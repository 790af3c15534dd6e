/** What HAProxy shows of the service ports after a reconciliation, in terms of the service ports, their endpoints and
    the configuration alone. */
module Shown {
  import opened Api
  import opened HostPorts
  import opened PortMaps
  import opened Names
  import opened Haproxy
  import opened Reconciliation
  import opened Convergence
  import opened Recovery
  import opened SyncSteps
  import opened SyncOutcome
  import opened Endpoints
  import Services

  // ---------- servers ----------

  /** s is the server for e. */
  ghost predicate ServerShows(cfg: Config, e: Endpoint, s: Server) {
    && s.address == e.ip && s.port == e.port && s.name == "POD." + JoinHostPort(e.ip, e.port)
    && s.check == (if cfg.isHealthCheck then "enabled" else "") && s.rest == ""
  }

  ghost predicate SomeShows(cfg: Config, eps: seq<Endpoint>, s: Server) {
    exists e :: e in eps && ServerShows(cfg, e, s)
  }

  /** There is a server for every endpoint, and none besides. */
  ghost predicate ServersShow(cfg: Config, eps: seq<Endpoint>, servers: Servers) {
    && (forall n | n in servers :: servers[n].name == n && SomeShows(cfg, eps, servers[n]))
    && (forall e | e in eps :: exists n :: n in servers && ServerShows(cfg, e, servers[n]))
  }

  /** No server has the name of one for an endpoint, but another address, port or setting. */
  ghost predicate NoneDiffers(cfg: Config, eps: seq<Endpoint>, servers: Servers) {
    forall n, e | n in servers && e in eps && n == "POD." + JoinHostPort(e.ip, e.port) ::
      ServerShows(cfg, e, servers[n])
  }

  /** However many calls fail: each server was there or is one for an endpoint, and of those that were there the ones
      for an endpoint stay. */
  ghost predicate OldOrShown(cfg: Config, eps: seq<Endpoint>, before: Servers, servers: Servers) {
    && (forall n | n in servers ::
          (n in before && servers[n] == before[n]) || (servers[n].name == n && SomeShows(cfg, eps, servers[n])))
    && (forall n | n in before && before[n].name == n && SomeShows(cfg, eps, before[n]) ::
          n in servers && servers[n] == before[n])
  }

  lemma ToServerShows(cfg: Config, e: Endpoint, s: Server)
    ensures ServerShows(cfg, e, s) <==> s == ToServer(cfg, e)
  {
  }

  lemma WantedServersShow(cfg: Config, eps: seq<Endpoint>, s: Server)
    ensures s in WantedServers(cfg, eps).Values <==> SomeShows(cfg, eps, s)
  {
    if SomeShows(cfg, eps, s) {
      var e :| e in eps && ServerShows(cfg, e, s);
      ToServerShows(cfg, e, s);
    }
    if s in WantedSet(cfg, eps) {
      var e :| e in eps && s == ToServer(cfg, e);
      ToServerShows(cfg, e, s);
    }
  }

  lemma WantedAt(cfg: Config, eps: seq<Endpoint>, e: Endpoint)
    requires e in eps
    ensures ServerName(e) in WantedServers(cfg, eps) && WantedServers(cfg, eps)[ServerName(e)] == ToServer(cfg, e)
  {
    assert ToServer(cfg, e) in WantedSet(cfg, eps);
  }

  lemma WantedShow(cfg: Config, eps: seq<Endpoint>)
    ensures ServersShow(cfg, eps, WantedServers(cfg, eps))
  {
    var wanted := WantedServers(cfg, eps);
    forall n | n in wanted ensures SomeShows(cfg, eps, wanted[n]) {
      WantedServersShow(cfg, eps, wanted[n]);
    }
    forall e | e in eps ensures exists n :: n in wanted && ServerShows(cfg, e, wanted[n]) {
      WantedAt(cfg, eps, e);
      ToServerShows(cfg, e, wanted[ServerName(e)]);
    }
  }

  lemma DiffersClashes(cfg: Config, eps: seq<Endpoint>, current: Servers)
    ensures NoneDiffers(cfg, eps, current) <==> !Clashing(current, WantedServers(cfg, eps))
  {
    var wanted := WantedServers(cfg, eps);
    forall n, e | n in current && e in eps && n == ServerName(e)
      ensures n in wanted && (ServerShows(cfg, e, current[n]) <==> current[n] == wanted[n])
    {
      WantedAt(cfg, eps, e);
      ToServerShows(cfg, e, current[n]);
    }
    forall n | n in wanted ensures exists e :: e in eps && n == ServerName(e) {
      assert wanted[n] in WantedSet(cfg, eps);
    }
  }

  lemma ShownAt(cfg: Config, eps: seq<Endpoint>, servers: Servers, n: string)
    requires ServersShow(cfg, eps, servers)
    ensures n in servers <==> n in WantedServers(cfg, eps)
    ensures n in servers ==> servers[n] == WantedServers(cfg, eps)[n]
  {
    var wanted := WantedServers(cfg, eps);
    if n in servers {
      var e :| e in eps && ServerShows(cfg, e, servers[n]);
      ToServerShows(cfg, e, servers[n]);
      WantedAt(cfg, eps, e);
    }
    if n in wanted {
      assert wanted[n] in WantedSet(cfg, eps);
      var e :| e in eps && wanted[n] == ToServer(cfg, e);
      var m :| m in servers && ServerShows(cfg, e, servers[m]);
    }
  }

  lemma ShownIsWanted(cfg: Config, eps: seq<Endpoint>, servers: Servers)
    requires ServersShow(cfg, eps, servers)
    ensures servers == WantedServers(cfg, eps)
  {
    forall n
      ensures n in servers <==> n in WantedServers(cfg, eps)
      ensures n in servers ==> servers[n] == WantedServers(cfg, eps)[n]
    {
      ShownAt(cfg, eps, servers, n);
    }
    SameMap(servers, WantedServers(cfg, eps));
  }

  /** A round whose calls are served leaves exactly the servers for the endpoints, unless one that was there differs
      from the one with its name. */
  lemma RoundShows(cfg: Config, eps: seq<Endpoint>, current: Servers)
    ensures ServersShow(cfg, eps, Round(current, WantedServers(cfg, eps))) <==> NoneDiffers(cfg, eps, current)
  {
    var wanted := WantedServers(cfg, eps);
    RoundsConverge(current, wanted);
    DiffersClashes(cfg, eps, current);
    WantedShow(cfg, eps);
    if ServersShow(cfg, eps, Round(current, wanted)) {
      ShownIsWanted(cfg, eps, Round(current, wanted));
    }
  }

  lemma SafeRoundShows(cfg: Config, eps: seq<Endpoint>, current: Servers, after: Servers)
    requires SafeRound(current, WantedServers(cfg, eps), after)
    ensures OldOrShown(cfg, eps, current, after)
  {
    var wanted := WantedServers(cfg, eps);
    forall n | n in after && n in wanted && after[n] == wanted[n]
      ensures after[n].name == n && SomeShows(cfg, eps, after[n])
    {
      WantedServersShow(cfg, eps, after[n]);
    }
    forall n | n in current && current[n].name == n && SomeShows(cfg, eps, current[n])
      ensures n in after && after[n] == current[n]
    {
      var e :| e in eps && ServerShows(cfg, e, current[n]);
      ToServerShows(cfg, e, current[n]);
      WantedAt(cfg, eps, e);
    }
  }

  // ---------- names ----------

  /** Namespace, service and port name of a service port, with dots. */
  function Path(p: ServicePortName): string {
    p.nn.namespace + "." + p.nn.name + (if p.port == "" then "" else "." + p.port)
  }

  ghost predicate OccursAt(sub: string, s: string, i: int) {
    0 <= i <= |s| - |sub| && s[i..i + |sub|] == sub
  }

  ghost predicate Occurs(sub: string, s: string) {
    exists i :: OccursAt(sub, s, i)
  }

  /** In mode "of" the API server and the cluster DNS are left to others. */
  ghost predicate Unhandled(cfg: Config, p: ServicePortName) {
    cfg.mode == "of" && (Occurs("default.kubernetes", Path(p)) || Occurs("kube-system.kube-dns", Path(p)))
  }

  lemma {:induction false} ContainsExact(s: string, sub: string)
    ensures Contains(s, sub) <==> Occurs(sub, s)
  {
    if sub <= s {
      assert OccursAt(sub, s, 0);
    } else if s == "" {
    } else {
      ContainsExact(s[1..], sub);
      if i :| OccursAt(sub, s, i) {
        assert i > 0 && s[1..][i - 1..i - 1 + |sub|] == s[i..i + |sub|];
        assert OccursAt(sub, s[1..], i - 1);
      }
      if i :| OccursAt(sub, s[1..], i) {
        assert s[i + 1..i + 1 + |sub|] == s[1..][i..i + |sub|];
        assert OccursAt(sub, s, i + 1);
      }
    }
  }

  lemma PathIsEncoded(p: ServicePortName)
    requires IsLabelled(p)
    ensures EncodedName(p) == Path(p)
  {
    EncodedIsDotted(p);
    assert Dotted(p) == Path(p);
  }

  lemma UnhandledExact(cfg: Config, p: ServicePortName)
    requires IsLabelled(p)
    ensures Skipped(cfg, Path(p)) <==> Unhandled(cfg, p)
  {
    ContainsExact(Path(p), "default.kubernetes");
    ContainsExact(Path(p), "kube-system.kube-dns");
  }

  // ---------- the entries of a service port ----------

  /** r is s in lower case. */
  ghost predicate IsLowerCase(s: string, r: string) {
    |r| == |s| && forall i | 0 <= i < |s| :: r[i] as int == s[i] as int + if 'A' <= s[i] <= 'Z' then 32 else 0
  }

  lemma LowerCaseExact(s: string, r: string)
    ensures IsLowerCase(s, r) <==> r == ToLower(s)
  {
  }

  ghost predicate BackendShows(cfg: Config, p: ServicePortName, info: Services.ServiceInfo, b: Backend) {
    && b.name == "BACKEND." + Path(p) && b.algorithm == cfg.serverAlgorithm && b.checkTimeout == Some(1)
    && if IsLowerCase(info.protocol, "http")
       then b.mode == "http" && b.httpchk == Some(("get", "/ping")) && b.forwardfor == Some("enabled")
       else b.mode == "tcp" && b.httpchk == None && b.forwardfor == None
  }

  ghost predicate FrontendShows(p: ServicePortName, info: Services.ServiceInfo, f: Frontend) {
    && f.name == "FRONTEND." + Path(p) && f.defaultBackend == "BACKEND." + Path(p)
    && IsLowerCase(info.protocol, f.mode)
  }

  ghost predicate BindShows(cfg: Config, p: ServicePortName, info: Services.ServiceInfo, bind: Bind) {
    bind.name == "BIND." + Path(p) && bind.port == Some(info.port) && bind.address == cfg.proxyIP
  }

  ghost predicate InfoShows(cfg: Config, p: ServicePortName, info: Services.ServiceInfo, entries: HaproxyInfo) {
    && BackendShows(cfg, p, info, entries.backend) && FrontendShows(p, info, entries.frontend)
    && BindShows(cfg, p, info, entries.bind)
  }

  lemma InfoForShows(cfg: Config, p: ServicePortName, info: Services.ServiceInfo)
    requires IsLabelled(p)
    ensures InfoShows(cfg, p, info, InfoFor(cfg, EncodedName(p), info))
  {
    PathIsEncoded(p);
    LowerCaseExact(info.protocol, "http");
    LowerCaseExact(info.protocol, ToLower(info.protocol));
  }

  // ---------- after a run whose calls are served ----------

  ghost predicate IsUdpFrontend(st: Store, f: string) {
    f in st.frontends && st.frontends[f].conf.mode == "udp"
  }

  ghost predicate IsUdpBackend(st: Store, b: string) {
    b in st.backends && st.backends[b].conf.mode == "udp"
  }

  /** The frontend has exactly the bind of the service port. It is the one called for, unless one in mode udp was
      there. */
  ghost predicate FrontendShown(cfg: Config, p: ServicePortName, info: Services.ServiceInfo, old_: Store, st: Store) {
    var f, n := "FRONTEND." + Path(p), "BIND." + Path(p);
    && f in st.frontends && st.frontends[f].binds.Keys == {n} && BindShows(cfg, p, info, st.frontends[f].binds[n])
    && if IsUdpFrontend(old_, f) then st.frontends[f].conf == old_.frontends[f].conf
       else FrontendShows(p, info, st.frontends[f].conf)
  }

  /** The backend is the one called for, unless one in mode udp was there. It has exactly the servers for the endpoints,
      unless one that was there differs from the one with its name. */
  ghost predicate BackendShown(cfg: Config, p: ServicePortName, info: Services.ServiceInfo, eps: seq<Endpoint>,
                               old_: Store, st: Store) {
    var b := "BACKEND." + Path(p);
    && b in st.backends
    && (if IsUdpBackend(old_, b) then st.backends[b].conf == old_.backends[b].conf
        else BackendShows(cfg, p, info, st.backends[b].conf))
    && (ServersShow(cfg, eps, st.backends[b].servers) <==> NoneDiffers(cfg, eps, ServersOf(old_, b)))
  }

  ghost predicate PortShown(cfg: Config, services: PortMap<Services.ServiceInfo>, endpoints: EndpointEntries,
                            p: ServicePortName, old_: Store, st: Store)
    requires p in services
  {
    && FrontendShown(cfg, p, services[p], old_, st)
    && BackendShown(cfg, p, services[p], Listed(endpoints, p), old_, st)
  }

  /** A handled service port has this path. */
  ghost predicate IsHandled(cfg: Config, services: PortMap<Services.ServiceInfo>, path: string) {
    exists p :: p in services && !Unhandled(cfg, p) && path == Path(p)
  }

  /** Nothing but the frontend "stats" and the frontends of the handled service ports is there. */
  ghost predicate FrontendsShown(cfg: Config, services: PortMap<Services.ServiceInfo>, old_: Store, st: Store) {
    && (forall f | f in st.frontends ::
          (f == "stats" && f in old_.frontends)
          || exists path :: IsHandled(cfg, services, path) && f == "FRONTEND." + path)
    && ("stats" in old_.frontends ==>
          "stats" in st.frontends && st.frontends["stats"] == old_.frontends["stats"])
  }

  /** No frontend but stats leads to b. */
  ghost predicate Unreached(st: Store, b: string) {
    b in st.backends && forall f | f in st.frontends && f != "stats" :: st.frontends[f].conf.defaultBackend != b
  }

  /** The backends are those of the handled service ports, and those that no frontend led to. */
  ghost predicate BackendsShown(cfg: Config, services: PortMap<Services.ServiceInfo>, old_: Store, st: Store) {
    && (forall b | b in st.backends ::
          Unreached(old_, b) || exists path :: IsHandled(cfg, services, path) && b == "BACKEND." + path)
    && (forall b | Unreached(old_, b) :: b in st.backends)
  }

  /** There is something to list for the cleanup: a handled service port, or a backend. */
  ghost predicate SomethingListed(cfg: Config, services: PortMap<Services.ServiceInfo>, old_: Store) {
    old_.backends != map[] || exists p :: p in services && !Unhandled(cfg, p)
  }

  /** What the store shows after a run whose calls are served. */
  ghost predicate StoreShows(cfg: Config, services: PortMap<Services.ServiceInfo>, endpoints: EndpointEntries,
                             old_: Store, st: Store) {
    && (forall p | p in services && !Unhandled(cfg, p) :: PortShown(cfg, services, endpoints, p, old_, st))
    && (if SomethingListed(cfg, services, old_)
        then FrontendsShown(cfg, services, old_, st) && BackendsShown(cfg, services, old_, st)
        else st == old_)
  }

  /** What is called for is what the handled service ports show. */
  lemma WantShows(cfg: Config, services: PortMap<Services.ServiceInfo>, endpoints: EndpointEntries, p: ServicePortName)
    requires KubernetesNames(services.Keys) && p in services
    ensures var w := WantsOf(cfg, services, endpoints);
      && (Path(p) in w <==> !Unhandled(cfg, p))
      && (Path(p) in w ==>
            && InfoShows(cfg, p, services[p], w[Path(p)].info)
            && w[Path(p)].servers == WantedServers(cfg, Listed(endpoints, p)))
  {
    PathIsEncoded(p);
    UnhandledExact(cfg, p);
    WantsAt(cfg, services, endpoints, p);
    InfoForShows(cfg, p, services[p]);
  }

  lemma WantedIsHandled(cfg: Config, services: PortMap<Services.ServiceInfo>, endpoints: EndpointEntries, key: string)
    requires KubernetesNames(services.Keys)
    ensures key in WantsOf(cfg, services, endpoints) <==> IsHandled(cfg, services, key)
  {
    if key in WantsOf(cfg, services, endpoints) {
      var p := PortFor(services.Keys, key);
      PathIsEncoded(p);
      UnhandledExact(cfg, p);
      WantsAt(cfg, services, endpoints, p);
    }
    if IsHandled(cfg, services, key) {
      var p :| p in services && !Unhandled(cfg, p) && key == Path(p);
      WantShows(cfg, services, endpoints, p);
    }
  }

  lemma FrontendIsShown(cfg: Config, p: ServicePortName, info: Services.ServiceInfo, st: Store, r: Store,
                        entries: HaproxyInfo)
    requires Tidy(st) && NamedFor(Path(p), entries) && InfoShows(cfg, p, info, entries)
    requires FrontendName(Path(p)) in r.frontends && r.frontends[FrontendName(Path(p))] == FrontendAfter(st, entries)
    ensures FrontendShown(cfg, p, info, st, r)
  {
    var f := FrontendName(Path(p));
    assert f[0] == 'F';
    if f in st.frontends {
      assert FrontendTidy(f, st.frontends[f]);
    }
  }

  lemma PortIsShown(cfg: Config, services: PortMap<Services.ServiceInfo>, endpoints: EndpointEntries,
                    p: ServicePortName, st: Store)
    requires KubernetesNames(services.Keys) && Tidy(st) && p in services && !Unhandled(cfg, p)
    ensures PortShown(cfg, services, endpoints, p, st, Reconciled(st, WantsOf(cfg, services, endpoints)))
  {
    var w := WantsOf(cfg, services, endpoints);
    WantShows(cfg, services, endpoints, p);
    WantsAreProper(cfg, services, endpoints);
    ReconciledAt(st, w, Path(p));
    assert ProperAt(Path(p), w[Path(p)]);
    FrontendIsShown(cfg, p, services[p], st, Reconciled(st, w), w[Path(p)].info);
    RoundShows(cfg, Listed(endpoints, p), ServersOf(st, BackendName(Path(p))));
  }

  lemma ListedExact(cfg: Config, services: PortMap<Services.ServiceInfo>, endpoints: EndpointEntries, st: Store)
    requires KubernetesNames(services.Keys)
    ensures Listable(st, WantsOf(cfg, services, endpoints)) <==> SomethingListed(cfg, services, st)
  {
    var w := WantsOf(cfg, services, endpoints);
    forall key ensures key in w <==> IsHandled(cfg, services, key) {
      WantedIsHandled(cfg, services, endpoints, key);
    }
    if p :| p in services && !Unhandled(cfg, p) {
      assert IsHandled(cfg, services, Path(p));
    }
    if w != map[] {
      var key :| key in w;
      var p :| p in services && !Unhandled(cfg, p) && key == Path(p);
    }
  }

  lemma FrontendsAreShown(cfg: Config, services: PortMap<Services.ServiceInfo>, endpoints: EndpointEntries, st: Store)
    requires KubernetesNames(services.Keys) && Tidy(st) && SomethingListed(cfg, services, st)
    ensures FrontendsShown(cfg, services, st, Reconciled(st, WantsOf(cfg, services, endpoints)))
  {
    var w := WantsOf(cfg, services, endpoints);
    var r := Reconciled(st, w);
    WantsAreProper(cfg, services, endpoints);
    ListedExact(cfg, services, endpoints, st);
    ReconciledKeys(st, w);
    forall f | f in r.frontends && f != "stats"
      ensures exists path :: IsHandled(cfg, services, path) && f == "FRONTEND." + path
    {
      var key :| key in w && f == FrontendName(key);
      WantedIsHandled(cfg, services, endpoints, key);
    }
    SameStats(st, r);
  }

  lemma SameStats(st: Store, r: Store)
    requires StatsOf(st) == StatsOf(r)
    ensures STATS in st.frontends <==> STATS in r.frontends
    ensures STATS in st.frontends ==> st.frontends[STATS] == r.frontends[STATS]
  {
    assert STATS in StatsOf(st) <==> STATS in st.frontends;
    assert STATS in StatsOf(r) <==> STATS in r.frontends;
  }

  lemma UnreachedExact(st: Store, b: string)
    ensures Unreached(st, b) <==> b in st.backends && b !in Owned(st)
  {
  }

  lemma BackendsAreShown(cfg: Config, services: PortMap<Services.ServiceInfo>, endpoints: EndpointEntries, st: Store)
    requires KubernetesNames(services.Keys) && Tidy(st) && SomethingListed(cfg, services, st)
    ensures BackendsShown(cfg, services, st, Reconciled(st, WantsOf(cfg, services, endpoints)))
  {
    var w := WantsOf(cfg, services, endpoints);
    var r := Reconciled(st, w);
    WantsAreProper(cfg, services, endpoints);
    ListedExact(cfg, services, endpoints, st);
    ReconciledKeys(st, w);
    forall b | b in r.backends
      ensures Unreached(st, b) || exists path :: IsHandled(cfg, services, path) && b == "BACKEND." + path
    {
      UnreachedExact(st, b);
      if b in WantedBackends(w) {
        var key :| key in w && b == BackendName(key);
        WantedIsHandled(cfg, services, endpoints, key);
      }
    }
    forall b | Unreached(st, b) ensures b in r.backends {
      UnreachedExact(st, b);
    }
  }

  lemma ReconciledShows(cfg: Config, services: PortMap<Services.ServiceInfo>, endpoints: EndpointEntries, st: Store)
    requires KubernetesNames(services.Keys) && Tidy(st)
    ensures StoreShows(cfg, services, endpoints, st, Reconciled(st, WantsOf(cfg, services, endpoints)))
  {
    forall p | p in services && !Unhandled(cfg, p)
      ensures PortShown(cfg, services, endpoints, p, st, Reconciled(st, WantsOf(cfg, services, endpoints)))
    {
      PortIsShown(cfg, services, endpoints, p, st);
    }
    ListedExact(cfg, services, endpoints, st);
    if SomethingListed(cfg, services, st) {
      FrontendsAreShown(cfg, services, endpoints, st);
      BackendsAreShown(cfg, services, endpoints, st);
    } else {
      UnlistableStays(st, WantsOf(cfg, services, endpoints));
    }
  }

  // ---------- after any run ----------

  /** Whatever calls fail, what is there of a handled service port is what was there or what is called for. */
  ghost predicate PortOldOrShown(cfg: Config, services: PortMap<Services.ServiceInfo>, endpoints: EndpointEntries,
                                 p: ServicePortName, old_: Store, st: Store)
    requires p in services
  {
    var f, b, n := "FRONTEND." + Path(p), "BACKEND." + Path(p), "BIND." + Path(p);
    && (f in st.frontends ==> FrontendOldOrShown(cfg, p, services[p], f, n, old_, st.frontends[f]))
    && (b in st.backends ==>
          && ((b in old_.backends && st.backends[b].conf == old_.backends[b].conf)
              || BackendShows(cfg, p, services[p], st.backends[b].conf))
          && OldOrShown(cfg, Listed(endpoints, p), ServersOf(old_, b), st.backends[b].servers))
  }

  ghost predicate FrontendOldOrShown(cfg: Config, p: ServicePortName, info: Services.ServiceInfo, f: string, n: string,
                                     old_: Store, e: FrontendEntry) {
    && ((f in old_.frontends && e.conf == old_.frontends[f].conf) || FrontendShows(p, info, e.conf))
    && (forall m | m in e.binds ::
          (m in BindsOf(old_, f) && e.binds[m] == BindsOf(old_, f)[m])
          || (m == n && BindShows(cfg, p, info, e.binds[m])))
  }

  ghost predicate AllOldOrShown(cfg: Config, services: PortMap<Services.ServiceInfo>, endpoints: EndpointEntries,
                                old_: Store, st: Store) {
    forall p | p in services && !Unhandled(cfg, p) :: PortOldOrShown(cfg, services, endpoints, p, old_, st)
  }

  /** What the store shows after a run, and if all its calls were served. */
  ghost predicate RunShows(cfg: Config, services: PortMap<Services.ServiceInfo>, endpoints: EndpointEntries,
                           served: bool, old_: Store, st: Store) {
    && AllOldOrShown(cfg, services, endpoints, old_, st)
    && (served ==> StoreShows(cfg, services, endpoints, old_, st))
  }

  /** The active keys are the paths of the handled service ports. */
  ghost predicate ActiveShown(cfg: Config, services: PortMap<Services.ServiceInfo>, active: set<string>) {
    forall path :: path in active <==> IsHandled(cfg, services, path)
  }

  lemma ActiveIsShown(cfg: Config, services: PortMap<Services.ServiceInfo>, endpoints: EndpointEntries)
    requires KubernetesNames(services.Keys)
    ensures ActiveShown(cfg, services, WantsOf(cfg, services, endpoints).Keys)
  {
    forall path ensures path in WantsOf(cfg, services, endpoints).Keys <==> IsHandled(cfg, services, path) {
      WantedIsHandled(cfg, services, endpoints, path);
    }
  }

  lemma OutcomeShows(cfg: Config, services: PortMap<Services.ServiceInfo>, endpoints: EndpointEntries,
                     plan: nat -> Fate, lo: nat, log: seq<Call>, st0: Store, st: Store)
    requires KubernetesNames(services.Keys) && Tidy(st0)
    requires RunOutcome(plan, lo, log, st0, st, WantsOf(cfg, services, endpoints))
    requires AllServed(plan, lo, |log|) ==> st == Reconciled(st0, WantsOf(cfg, services, endpoints))
    ensures RunShows(cfg, services, endpoints, AllServed(plan, lo, |log|), st0, st)
  {
    forall p | p in services && !Unhandled(cfg, p) ensures PortOldOrShown(cfg, services, endpoints, p, st0, st) {
      PortOutcomeShows(cfg, services, endpoints, plan, lo, log, st0, st, p);
    }
    ReconciledShows(cfg, services, endpoints, st0);
  }

  lemma PortOutcomeShows(cfg: Config, services: PortMap<Services.ServiceInfo>, endpoints: EndpointEntries,
                         plan: nat -> Fate, lo: nat, log: seq<Call>, st0: Store, st: Store, p: ServicePortName)
    requires KubernetesNames(services.Keys) && p in services && !Unhandled(cfg, p)
    requires RunOutcome(plan, lo, log, st0, st, WantsOf(cfg, services, endpoints))
    ensures PortOldOrShown(cfg, services, endpoints, p, st0, st)
  {
    var w, key := WantsOf(cfg, services, endpoints), Path(p);
    WantShows(cfg, services, endpoints, p);
    assert KeyOutcome(plan, lo, log, st0, st, w[key]);
    ConfsShow(cfg, p, services[p], st0, st, w[key].info);
    var b := BackendName(key);
    if b in st.backends {
      SafeRoundShows(cfg, Listed(endpoints, p), ServersOf(st0, b), st.backends[b].servers);
    }
  }

  lemma ConfsShow(cfg: Config, p: ServicePortName, info: Services.ServiceInfo, st0: Store, st: Store,
                  entries: HaproxyInfo)
    requires InfoShows(cfg, p, info, entries) && ConfOutcome(st0, st, entries)
    ensures var f, b := "FRONTEND." + Path(p), "BACKEND." + Path(p);
      && (f in st.frontends ==> FrontendOldOrShown(cfg, p, info, f, "BIND." + Path(p), st0, st.frontends[f]))
      && (b in st.backends ==>
            (b in st0.backends && st.backends[b].conf == st0.backends[b].conf)
            || BackendShows(cfg, p, info, st.backends[b].conf))
  {
  }

  // ---------- from a store that this program has left ----------

  /** All of it is as called for, but for a frontend in mode udp that was there. */
  ghost predicate HandledShown(cfg: Config, services: PortMap<Services.ServiceInfo>, endpoints: EndpointEntries,
                               p: ServicePortName, old_: Store, st: Store)
    requires p in services
  {
    var b := "BACKEND." + Path(p);
    && FrontendShown(cfg, p, services[p], old_, st)
    && b in st.backends && BackendShows(cfg, p, services[p], st.backends[b].conf)
    && ServersShow(cfg, Listed(endpoints, p), st.backends[b].servers)
  }

  /** Under one configuration nothing clashes, and no backend is in mode udp. */
  ghost predicate SoundStoreShows(cfg: Config, services: PortMap<Services.ServiceInfo>, endpoints: EndpointEntries,
                                  old_: Store, st: Store) {
    && StoreShows(cfg, services, endpoints, old_, st)
    && forall p | p in services && !Unhandled(cfg, p) :: HandledShown(cfg, services, endpoints, p, old_, st)
  }

  lemma SoundRunShows(cfg: Config, services: PortMap<Services.ServiceInfo>, endpoints: EndpointEntries, st: Store)
    requires KubernetesNames(services.Keys) && Sound(cfg, st)
    ensures SoundStoreShows(cfg, services, endpoints, st, Reconciled(st, WantsOf(cfg, services, endpoints)))
  {
    var r := Reconciled(st, WantsOf(cfg, services, endpoints));
    ReconciledShows(cfg, services, endpoints, st);
    forall p | p in services && !Unhandled(cfg, p) ensures HandledShown(cfg, services, endpoints, p, st, r) {
      assert PortShown(cfg, services, endpoints, p, st, r);
      var b, eps := "BACKEND." + Path(p), Listed(endpoints, p);
      WantedServersSourced(cfg, eps);
      SourcedNeverClash(cfg, ServersOf(st, b), WantedServers(cfg, eps));
      DiffersClashes(cfg, eps, ServersOf(st, b));
    }
  }
}
