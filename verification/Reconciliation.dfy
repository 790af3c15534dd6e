/** What one reconciliation makes of HAProxy's store: what each service port calls for, what a run leaves behind, and
    when runs converge. */
module Reconciliation {
  import opened Api
  import opened Names
  import opened HostPorts
  import opened PortMaps
  import opened Haproxy
  import opened Services
  import opened Endpoints

  // ---------- what a service port calls for ----------

  /** What is fixed when the proxier is created. */
  datatype Config = Config(mode: string, isHealthCheck: bool, serverAlgorithm: string, proxyIP: string)

  datatype HaproxyInfo = HaproxyInfo(backend: Backend, frontend: Frontend, bind: Bind)

  datatype Want = Want(info: HaproxyInfo, servers: Servers)

  const SERVER_PREFIX := "POD."
  const CHECK_TIMEOUT := 1
  const ENABLED := "enabled"

  // strings.ToLower and strings.Contains, for ASCII.
  function ToLower(s: string): string {
    seq(|s|, i requires 0 <= i < |s| => if 'A' <= s[i] <= 'Z' then s[i] - 'A' + 'a' else s[i])
  }

  predicate Contains(s: string, sub: string) {
    sub <= s || (s != "" && Contains(s[1..], sub))
  }

  predicate Skipped(cfg: Config, key: string) {
    cfg.mode == "of" && (Contains(key, "default.kubernetes") || Contains(key, "kube-system.kube-dns"))
  }

  /** The backend is in mode tcp unless the protocol is http; the frontend takes the protocol as it is. */
  function InfoFor(cfg: Config, key: string, info: ServiceInfo): HaproxyInfo {
    var protocol := ToLower(info.protocol);
    var http := protocol == "http";
    HaproxyInfo(
      Backend(BackendName(key), cfg.serverAlgorithm, if http then protocol else "tcp", Some(CHECK_TIMEOUT),
              if http then Some(("get", "/ping")) else None, if http then Some(ENABLED) else None),
      Frontend(FrontendName(key), BackendName(key), protocol),
      Bind(BindName(key), Some(info.port), cfg.proxyIP))
  }

  function ServerName(e: Endpoint): string {
    SERVER_PREFIX + e.String()
  }

  function ToServer(cfg: Config, e: Endpoint): Server {
    Server(e.ip, e.port, ServerName(e), if cfg.isHealthCheck then ENABLED else "", "")
  }

  /** The name of a server determines the whole server: it is made of address and port. */
  lemma ServerNamesDetermine(cfg: Config, e: Endpoint, e': Endpoint)
    ensures ServerName(e) == ServerName(e') <==> ToServer(cfg, e) == ToServer(cfg, e')
  {
    JoinHostPortInjective(e.ip, e.port, e'.ip, e'.port);
    PrefixedInjective(SERVER_PREFIX, e.String(), e'.String());
  }

  ghost predicate NamesUnique(servers: set<Server>) {
    forall s, s' | s in servers && s' in servers && s.name == s'.name :: s == s'
  }

  ghost function NamedIn(servers: set<Server>, n: string): (r: Server)
    requires exists s :: s in servers && s.name == n
    ensures r in servers && r.name == n
  {
    var s :| s in servers && s.name == n;
    s
  }

  ghost function ByName(servers: set<Server>): (r: Servers)
    requires NamesUnique(servers)
    ensures r.Values == servers
    ensures forall n | n in r :: r[n].name == n
  {
    var names := set s | s in servers :: s.name;
    var r := map n | n in names :: NamedIn(servers, n);
    assert forall s | s in servers :: r[s.name] == s;
    r
  }

  function WantedSet(cfg: Config, eps: seq<Endpoint>): (r: set<Server>)
    ensures NamesUnique(r) && forall s | s in r :: s.name != ""
  {
    var r := set e | e in eps :: ToServer(cfg, e);
    assert NamesUnique(r) by {
      forall s, s' | s in r && s' in r && s.name == s'.name ensures s == s' {
        var e, e' :| e in eps && e' in eps && ToServer(cfg, e) == s && ToServer(cfg, e') == s';
        ServerNamesDetermine(cfg, e, e');
      }
    }
    r
  }

  ghost function WantedServers(cfg: Config, eps: seq<Endpoint>): (r: Servers)
    ensures ServersNamed(r) && r.Values == WantedSet(cfg, eps)
  {
    ByName(WantedSet(cfg, eps))
  }

  ghost function WantFor(cfg: Config, services: PortMap<ServiceInfo>, endpoints: EndpointEntries,
                         p: ServicePortName): Want
    requires p in services
  {
    Want(InfoFor(cfg, EncodedName(p), services[p]), WantedServers(cfg, Listed(endpoints, p)))
  }

  /** What is called for, by encoded name. */
  type Wants = map<string, Want>

  function KeysFor(cfg: Config, spns: set<ServicePortName>): set<string> {
    set p | p in spns && !Skipped(cfg, EncodedName(p)) :: EncodedName(p)
  }

  ghost function PortFor(spns: set<ServicePortName>, key: string): (p: ServicePortName)
    requires exists p :: p in spns && EncodedName(p) == key
    ensures p in spns && EncodedName(p) == key
  {
    var p :| p in spns && EncodedName(p) == key;
    p
  }

  /** What the two maps call for. */
  ghost function WantsOf(cfg: Config, services: PortMap<ServiceInfo>, endpoints: EndpointEntries): Wants {
    map key | key in KeysFor(cfg, services.Keys) :: WantFor(cfg, services, endpoints, PortFor(services.Keys, key))
  }

  /** No service port is lost to another one with its encoded name. */
  lemma WantsAt(cfg: Config, services: PortMap<ServiceInfo>, endpoints: EndpointEntries, p: ServicePortName)
    requires KubernetesNames(services.Keys) && p in services
    ensures var w, key := WantsOf(cfg, services, endpoints), EncodedName(p);
      (key in w <==> !Skipped(cfg, key)) && (key in w ==> w[key] == WantFor(cfg, services, endpoints, p))
  {
    var key := EncodedName(p);
    if key in KeysFor(cfg, services.Keys) {
      var q := PortFor(services.Keys, key);
      EncodedNameExact(p, q);
    }
  }

  /** The entries are named after the key, and the service list decodes the frontend back to it. */
  ghost predicate NamedFor(key: string, info: HaproxyInfo) {
    && info.backend.name == BackendName(key) && info.frontend.name == FrontendName(key)
    && info.bind.name == BindName(key)
    && info.frontend.defaultBackend == BackendName(key) && info.backend.mode != "udp"
    && Trim(FrontendName(key)) == key
  }

  ghost predicate ProperAt(key: string, want: Want) {
    NamedFor(key, want.info) && ServersNamed(want.servers)
  }

  /** What holds of everything that is ever wanted. */
  ghost predicate Proper(w: Wants) {
    forall key | key in w :: ProperAt(key, w[key])
  }

  lemma WantIsProper(cfg: Config, services: PortMap<ServiceInfo>, endpoints: EndpointEntries, p: ServicePortName)
    requires IsLabelled(p) && p in services
    ensures ProperAt(EncodedName(p), WantFor(cfg, services, endpoints, p))
  {
    EncodedNameDecodes(p);
  }

  lemma WantsAreProper(cfg: Config, services: PortMap<ServiceInfo>, endpoints: EndpointEntries)
    requires KubernetesNames(services.Keys)
    ensures Proper(WantsOf(cfg, services, endpoints))
  {
    var w := WantsOf(cfg, services, endpoints);
    forall key | key in w ensures ProperAt(key, w[key]) {
      WantIsProper(cfg, services, endpoints, PortFor(services.Keys, key));
    }
  }

  // ---------- one round over the servers of a backend ----------

  /** New servers are added, unwanted and differing ones are deleted; a server whose name is taken cannot be added. */
  function Round(current: Servers, wanted: Servers): Servers {
    map n | n in current.Keys + wanted.Keys && n in wanted && (n in current ==> current[n] == wanted[n]) :: wanted[n]
  }

  /** Some current server has the name of a wanted one but differs from it. */
  ghost predicate Clashing(current: Servers, wanted: Servers) {
    exists n :: n in current && n in wanted && current[n] != wanted[n]
  }

  /** One round is enough exactly when there is no clash; two rounds always are. */
  lemma RoundsConverge(current: Servers, wanted: Servers)
    ensures Round(current, wanted) == wanted <==> !Clashing(current, wanted)
    ensures Round(Round(current, wanted), wanted) == wanted
  {
    if !Clashing(current, wanted) {
      assert Round(current, wanted).Keys == wanted.Keys;
    } else {
      var n :| n in current && n in wanted && current[n] != wanted[n];
      assert n !in Round(current, wanted);
    }
  }

  /** What holds of a round however many of its calls fail: wanted servers that are present stay, and nothing appears
      that was neither there nor wanted. */
  ghost predicate SafeRound(current: Servers, wanted: Servers, after: Servers) {
    && (forall n | n in current && n in wanted && current[n] == wanted[n] :: n in after && after[n] == wanted[n])
    && (forall n | n in after :: (n in current && after[n] == current[n]) || (n in wanted && after[n] == wanted[n]))
  }

  /** Servers as this configuration makes them, filed under their names. */
  ghost predicate Sourced(cfg: Config, servers: Servers) {
    forall n | n in servers :: SourcedAt(cfg, n, servers[n])
  }

  ghost predicate SourcedAt(cfg: Config, n: string, server: Server) {
    exists e: Endpoint :: n == ServerName(e) && server == ToServer(cfg, e)
  }

  lemma WantedServersSourced(cfg: Config, eps: seq<Endpoint>)
    ensures Sourced(cfg, WantedServers(cfg, eps))
  {
    var r := WantedServers(cfg, eps);
    forall n | n in r ensures SourcedAt(cfg, n, r[n]) {
      assert r[n] in WantedSet(cfg, eps);
      var e :| e in eps && r[n] == ToServer(cfg, e);
    }
  }

  /** Servers made under one configuration never clash, as their names determine them. */
  lemma SourcedNeverClash(cfg: Config, current: Servers, wanted: Servers)
    requires Sourced(cfg, current) && Sourced(cfg, wanted)
    ensures !Clashing(current, wanted)
  {
    forall n | n in current && n in wanted ensures current[n] == wanted[n] {
      assert SourcedAt(cfg, n, current[n]) && SourcedAt(cfg, n, wanted[n]);
      var e :| n == ServerName(e) && current[n] == ToServer(cfg, e);
      var e' :| n == ServerName(e') && wanted[n] == ToServer(cfg, e');
      ServerNamesDetermine(cfg, e, e');
    }
  }

  // ---------- what one run leaves behind ----------

  /** An entry in mode udp is left as it is. */
  function BackendConf(st: Store, b: Backend): Backend {
    if b.name in st.backends && st.backends[b.name].conf.mode == "udp" then st.backends[b.name].conf else b
  }

  function FrontendConf(st: Store, f: Frontend): Frontend {
    if f.name in st.frontends && st.frontends[f.name].conf.mode == "udp" then st.frontends[f.name].conf else f
  }

  function PutBackend(st: Store, b: Backend): Store {
    st.(backends := st.backends[b.name := BackendEntry(BackendConf(st, b), ServersOf(st, b.name))])
  }

  function PutFrontend(st: Store, f: Frontend): Store {
    st.(frontends := st.frontends[f.name := FrontendEntry(FrontendConf(st, f), BindsOf(st, f.name))])
  }

  /** The store after a fault-free syncService. */
  function Configured(st: Store, info: HaproxyInfo): Store {
    PutBind(PutFrontend(PutBackend(st, info.backend), info.frontend), info.frontend.name, info.bind)
  }

  // There is nothing for syncService to change.

  predicate BackendSettled(st: Store, b: Backend) {
    b.name in st.backends && BackendConf(st, b) == st.backends[b.name].conf
  }

  predicate FrontendSettled(st: Store, f: Frontend) {
    f.name in st.frontends && FrontendConf(st, f) == st.frontends[f.name].conf
  }

  predicate BindSettled(st: Store, frontend: string, bind: Bind) {
    bind.name in BindsOf(st, frontend) && BindsOf(st, frontend)[bind.name] == bind
  }

  predicate Settled(st: Store, info: HaproxyInfo) {
    && BackendSettled(st, info.backend) && FrontendSettled(st, info.frontend)
    && BindSettled(st, info.frontend.name, info.bind)
  }

  lemma SettledStays(st: Store, info: HaproxyInfo)
    requires Settled(st, info)
    ensures PutBackend(st, info.backend) == st && PutFrontend(st, info.frontend) == st && Configured(st, info) == st
  {
    var e := st.frontends[info.frontend.name];
    assert st.backends[info.backend.name := st.backends[info.backend.name]] == st.backends;
    assert st.frontends[info.frontend.name := e] == st.frontends;
    assert e.binds[info.bind.name := info.bind] == e.binds;
  }

  function FrontendAfter(st: Store, info: HaproxyInfo): FrontendEntry {
    FrontendEntry(FrontendConf(st, info.frontend), BindsOf(st, info.frontend.name)[info.bind.name := info.bind])
  }

  function BackendAfter(st: Store, w: Want): BackendEntry {
    BackendEntry(BackendConf(st, w.info.backend), Round(ServersOf(st, w.info.backend.name), w.servers))
  }

  function KeyIn(prefix: string, name: string): string {
    if |prefix| <= |name| then name[|prefix|..] else ""
  }

  function WantedFrontends(w: Wants): set<string> {
    set key | key in w :: FrontendName(key)
  }

  function WantedBackends(w: Wants): set<string> {
    set key | key in w :: BackendName(key)
  }

  function FrontendsFor(st: Store, w: Wants): map<string, FrontendEntry> {
    assert forall key :: KeyIn(FRONTEND_PREFIX, FrontendName(key)) == key;
    map f | f in WantedFrontends(w) :: FrontendAfter(st, w[KeyIn(FRONTEND_PREFIX, f)].info)
  }

  function BackendsFor(st: Store, w: Wants): map<string, BackendEntry> {
    assert forall key :: KeyIn(BACKEND_PREFIX, BackendName(key)) == key;
    map b | b in WantedBackends(w) :: BackendAfter(st, w[KeyIn(BACKEND_PREFIX, b)])
  }

  lemma ForKey(st: Store, w: Wants, key: string)
    ensures FrontendName(key) in FrontendsFor(st, w) <==> key in w
    ensures BackendName(key) in BackendsFor(st, w) <==> key in w
    ensures key in w ==> FrontendsFor(st, w)[FrontendName(key)] == FrontendAfter(st, w[key].info)
    ensures key in w ==> BackendsFor(st, w)[BackendName(key)] == BackendAfter(st, w[key])
  {
    assert forall k :: KeyIn(FRONTEND_PREFIX, FrontendName(k)) == k;
    assert forall k :: KeyIn(BACKEND_PREFIX, BackendName(k)) == k;
  }

  /** The store after the loop over the service ports. */
  function Merged(st: Store, w: Wants): Store {
    Store(st.frontends + FrontendsFor(st, w), st.backends + BackendsFor(st, w))
  }

  /** One pass of the loop: the entries are configured, then the servers are brought up to date. */
  function Driven(st: Store, w: Want): Store {
    var configured := Configured(st, w.info);
    WithServers(configured, w.info.backend.name, Round(ServersOf(configured, w.info.backend.name), w.servers))
  }

  lemma DrivenEntries(st: Store, w: Want)
    ensures Driven(st, w) == Store(st.frontends[w.info.frontend.name := FrontendAfter(st, w.info)],
                                   st.backends[w.info.backend.name := BackendAfter(st, w)])
  {
  }

  lemma KeysForWanted(st: Store, w: Wants)
    ensures FrontendsFor(st, w).Keys == WantedFrontends(w) && BackendsFor(st, w).Keys == WantedBackends(w)
  {
  }

  lemma WantedStep(w: Wants, key: string, want: Want)
    ensures WantedFrontends(w[key := want]) == WantedFrontends(w) + {FrontendName(key)}
    ensures WantedBackends(w[key := want]) == WantedBackends(w) + {BackendName(key)}
  {
    assert w[key := want].Keys == w.Keys + {key};
  }

  lemma KeysStep(st: Store, w: Wants, key: string, want: Want)
    ensures FrontendsFor(st, w[key := want]).Keys
         == FrontendsFor(st, w)[FrontendName(key) := FrontendAfter(st, want.info)].Keys
    ensures BackendsFor(st, w[key := want]).Keys == BackendsFor(st, w)[BackendName(key) := BackendAfter(st, want)].Keys
  {
    WantedStep(w, key, want);
  }

  lemma SameMap<V>(m: map<string, V>, m': map<string, V>)
    requires m.Keys == m'.Keys && forall k | k in m :: m[k] == m'[k]
    ensures m == m'
  {
  }

  lemma FrontendStepAt(st: Store, w: Wants, key: string, want: Want, f: string)
    requires key !in w && f in FrontendsFor(st, w[key := want])
    ensures f in FrontendsFor(st, w)[FrontendName(key) := FrontendAfter(st, want.info)]
    ensures FrontendsFor(st, w[key := want])[f]
         == FrontendsFor(st, w)[FrontendName(key) := FrontendAfter(st, want.info)][f]
  {
    var k := FrontendKey(st, w[key := want], f);
    ForKey(st, w, k);
    PrefixedInjective(FRONTEND_PREFIX, k, key);
  }

  lemma FrontendsStep(st: Store, w: Wants, key: string, want: Want)
    requires key !in w
    ensures FrontendsFor(st, w[key := want]) == FrontendsFor(st, w)[FrontendName(key) := FrontendAfter(st, want.info)]
  {
    var fs := FrontendsFor(st, w)[FrontendName(key) := FrontendAfter(st, want.info)];
    var fs' := FrontendsFor(st, w[key := want]);
    KeysStep(st, w, key, want);
    forall f | f in fs' ensures fs'[f] == fs[f] {
      FrontendStepAt(st, w, key, want, f);
    }
    SameMap(fs', fs);
  }

  lemma BackendStepAt(st: Store, w: Wants, key: string, want: Want, b: string)
    requires key !in w && b in BackendsFor(st, w[key := want])
    ensures b in BackendsFor(st, w)[BackendName(key) := BackendAfter(st, want)]
    ensures BackendsFor(st, w[key := want])[b] == BackendsFor(st, w)[BackendName(key) := BackendAfter(st, want)][b]
  {
    var k := BackendKey(st, w[key := want], b);
    ForKey(st, w, k);
    PrefixedInjective(BACKEND_PREFIX, k, key);
  }

  lemma BackendsStep(st: Store, w: Wants, key: string, want: Want)
    requires key !in w
    ensures BackendsFor(st, w[key := want]) == BackendsFor(st, w)[BackendName(key) := BackendAfter(st, want)]
  {
    var bs, bs' := BackendsFor(st, w)[BackendName(key) := BackendAfter(st, want)], BackendsFor(st, w[key := want]);
    KeysStep(st, w, key, want);
    forall b | b in bs' ensures bs'[b] == bs[b] {
      BackendStepAt(st, w, key, want, b);
    }
    SameMap(bs', bs);
  }

  lemma FrontendKey(st: Store, w: Wants, f: string) returns (key: string)
    requires f in FrontendsFor(st, w)
    ensures key in w && f == FrontendName(key) && FrontendsFor(st, w)[f] == FrontendAfter(st, w[key].info)
  {
    key :| key in w && f == FrontendName(key);
    ForKey(st, w, key);
  }

  lemma BackendKey(st: Store, w: Wants, b: string) returns (key: string)
    requires b in BackendsFor(st, w)
    ensures key in w && b == BackendName(key) && BackendsFor(st, w)[b] == BackendAfter(st, w[key])
  {
    key :| key in w && b == BackendName(key);
    ForKey(st, w, key);
  }

  lemma AfterBeside(st: Store, fs: map<string, FrontendEntry>, bs: map<string, BackendEntry>, want: Want)
    requires want.info.frontend.name !in fs && want.info.backend.name !in bs
    ensures var before := Store(st.frontends + fs, st.backends + bs);
      && FrontendAfter(before, want.info) == FrontendAfter(st, want.info)
      && BackendAfter(before, want) == BackendAfter(st, want)
  {
  }

  lemma PutOver<V>(m: map<string, V>, n: map<string, V>, k: string, v: V)
    ensures (m + n)[k := v] == m + n[k := v]
  {
  }

  /** A pass only looks at, and only changes, the entries it is about. */
  lemma DrivenBeside(st: Store, fs: map<string, FrontendEntry>, bs: map<string, BackendEntry>, want: Want)
    requires want.info.frontend.name !in fs && want.info.backend.name !in bs
    ensures Driven(Store(st.frontends + fs, st.backends + bs), want)
         == Store(st.frontends + fs[want.info.frontend.name := FrontendAfter(st, want.info)],
                  st.backends + bs[want.info.backend.name := BackendAfter(st, want)])
  {
    AfterBeside(st, fs, bs, want);
    DrivenEntries(Store(st.frontends + fs, st.backends + bs), want);
    PutOver(st.frontends, fs, want.info.frontend.name, FrontendAfter(st, want.info));
    PutOver(st.backends, bs, want.info.backend.name, BackendAfter(st, want));
  }

  /** The loop may visit the service ports in any order: each one finds its own entries as they were at the start. */
  lemma MergedStep(st: Store, w: Wants, key: string, want: Want)
    requires key !in w && NamedFor(key, want.info)
    ensures Merged(st, w[key := want]) == Driven(Merged(st, w), want)
  {
    ForKey(st, w, key);
    FrontendsStep(st, w, key, want);
    BackendsStep(st, w, key, want);
    DrivenBeside(st, FrontendsFor(st, w), BackendsFor(st, w), want);
  }
}
