/** Inputs that show where the program falls short of its purpose. */
module Witnesses {
  import opened Api
  import opened Names
  import opened Haproxy
  import opened Reconciliation
  import opened Convergence
  import opened Recovery
  import opened SyncSteps
  import opened SyncOutcome
  import ProxierSync
  import opened PortMaps
  import opened Endpoints
  import Services

  const EMPTY := Store(map[], map[])

  function Port(name: string, port: string, protocol: string): ServicePortName {
    ServicePortName(NamespacedName("default", name), port, protocol)
  }

  function Info(protocol: string): Services.ServiceInfo {
    Services.ServiceInfo("10.0.0.1", 53, protocol, 0, "", ("", ""))
  }

  lemma OnePortNamed(p: ServicePortName)
    requires IsLabelled(p)
    ensures KubernetesNames({p})
  {
  }

  lemma LabelsAreLabels()
    ensures IsLabel("default") && IsLabel("dns")
  {
  }

  // ---------- a port that changes its protocol ----------

  const UDP_PORT := Port("dns", "dns", UDP)
  const TCP_PORT := Port("dns", "dns", "TCP")

  function UdpServices(): PortMap<Services.ServiceInfo> { map[UDP_PORT := Info(UDP)] }

  function TcpServices(): PortMap<Services.ServiceInfo> { map[TCP_PORT := Info("TCP")] }

  /** What one service port alone calls for. */
  lemma OneWant(cfg: Config, p: ServicePortName, info: Services.ServiceInfo)
    requires cfg.mode != "of" && IsLabelled(p)
    ensures KubernetesNames({p})
    ensures var w, key := WantsOf(cfg, map[p := info], map[]), EncodedName(p);
      Proper(w) && w.Keys == {key} && w[key].info == InfoFor(cfg, key, info)
  {
    var services, key := map[p := info], EncodedName(p);
    OnePortNamed(p);
    assert services.Keys == {p};
    WantsAt(cfg, services, map[], p);
    WantsAreProper(cfg, services, map[]);
    forall k | k in KeysFor(cfg, {p}) ensures k == key {
    }
  }

  /** After the given runs an entry is in the way, and one more run does not bring what is wanted. */
  ghost predicate Spoilt(st: Store, ws: seq<Wants>, w: Wants) {
    !NoneStuck(AfterRuns(st, ws), w) && !IsIdeal(EMPTY, w, Reconciled(AfterRuns(st, ws), w))
  }

  /** A service replaces its udp port by a tcp port of the same name. HAProxy keeps the udp frontend, however often the
      service is reconciled afterwards. */
  lemma ProtocolChangeShown(cfg: Config, ws: seq<Wants>)
    requires cfg.mode != "of"
    requires forall i | 0 <= i < |ws| :: ws[i] == WantsOf(cfg, TcpServices(), map[])
    ensures KubernetesNames(UdpServices().Keys) && KubernetesNames(TcpServices().Keys)
    ensures Spoilt(Reconciled(EMPTY, WantsOf(cfg, UdpServices(), map[])), ws, WantsOf(cfg, TcpServices(), map[]))
  {
    OneKey();
    OneWant(cfg, UDP_PORT, Info(UDP));
    OneWant(cfg, TCP_PORT, Info("TCP"));
    assert UdpServices().Keys == {UDP_PORT} && TcpServices().Keys == {TCP_PORT};
    var w, key := WantsOf(cfg, UdpServices(), map[]), EncodedName(UDP_PORT);
    UdpArises(w, key);
    UdpIsStuck(Reconciled(EMPTY, w), ws, WantsOf(cfg, TcpServices(), map[]), key);
  }

  lemma OneKey()
    ensures EncodedName(UDP_PORT) == EncodedName(TCP_PORT) && IsLabelled(UDP_PORT) && IsLabelled(TCP_PORT)
    ensures ToLower(UDP) == "udp" && ToLower("TCP") == "tcp"
  {
    LabelsAreLabels();
    EncodedNameExact(UDP_PORT, TCP_PORT);
  }

  lemma UdpIsStuck(st: Store, ws: seq<Wants>, w: Wants, key: string)
    requires Tidy(st) && UdpAt(st, key) && Proper(w) && key in w && w[key].info.frontend.mode == "tcp"
    requires forall i | 0 <= i < |ws| :: ws[i] == w
    ensures Spoilt(st, ws, w)
  {
    StaysStuck(st, ws, w, key);
    StaysStuck(st, ws + [w], w, key);
    StuckIsNotIdeal(st, ws, w);
  }

  lemma StaysStuck(st: Store, ws: seq<Wants>, w: Wants, key: string)
    requires Tidy(st) && UdpAt(st, key) && Proper(w) && key in w && w[key].info.frontend.mode == "tcp"
    requires forall i | 0 <= i < |ws| :: ws[i] == w
    ensures !NoneStuck(AfterRuns(st, ws), w)
  {
    UdpStays(st, ws, key);
    assert ProperAt(key, w[key]) && w[key].info.frontend.mode[0] == 't';
    assert Stuck(AfterRuns(st, ws), w[key].info);
  }

  lemma UdpArises(w: Wants, key: string)
    requires Proper(w) && key in w && w[key].info.frontend.mode == "udp"
    ensures Tidy(Reconciled(EMPTY, w)) && UdpAt(Reconciled(EMPTY, w), key)
  {
    ReconciledTidy(EMPTY, w);
    ReconciledAt(EMPTY, w, key);
    assert ProperAt(key, w[key]);
  }

  lemma StuckIsNotIdeal(st: Store, ws: seq<Wants>, w: Wants)
    requires !NoneStuck(AfterRuns(st, ws + [w]), w) && Proper(w)
    ensures !IsIdeal(EMPTY, w, Reconciled(AfterRuns(st, ws), w))
  {
    assert (ws + [w])[..|ws|] == ws;
    var r := AfterRuns(st, ws + [w]);
    assert r == Reconciled(AfterRuns(st, ws), w);
    var key :| key in w && Stuck(r, w[key].info);
    assert ProperAt(key, w[key]);
    assert !IdealAt(r, key, w[key]);
  }

  // ---------- a service that is lost ----------

  /** A run without failures puts a service in place. */
  method PutInPlace(config: Config, node: Node, services: PortMap<Services.ServiceInfo>, ghost key: string)
    returns (handle: HaproxyHandle)
    requires KubernetesNames(services.Keys) && Proper(WantsOf(config, services, map[]))
    requires key in WantsOf(config, services, map[])
    ensures Tidy(handle.store) && Quiet(handle.store, WantsOf(config, services, map[]))
    ensures FrontendName(key) in handle.store.frontends && BackendName(key) in handle.store.backends
  {
    ghost var w := WantsOf(config, services, map[]);
    handle := new HaproxyHandle(_ => Served, 202, EMPTY);
    var proxier := new ProxierSync.Proxier(config, node, false, handle);
    var _ := proxier.SyncRules(services, map[]);
    ReconciledAt(EMPTY, w, key);
    SecondRunQuiet(EMPTY, w);
  }

  /** One run of a new proxier. */
  method RunOnce(config: Config, node: Node, services: PortMap<Services.ServiceInfo>, plan: nat -> Fate, store: Store,
                 ghost key: string)
    returns (handle: HaproxyHandle)
    requires KubernetesNames(services.Keys) && Tidy(store) && WantsOf(config, services, map[]).Keys == {key}
    ensures handle.plan == plan && Tidy(handle.store)
    ensures RunOutcome(plan, 0, handle.log, store, handle.store, WantsOf(config, services, map[]))
    ensures StartsSync(plan, handle.log, 0, store, WantsOf(config, services, map[])[key].info)
  {
    handle := new HaproxyHandle(plan, 202, store);
    var proxier := new ProxierSync.Proxier(config, node, false, handle);
    var _ := proxier.SyncRules(services, map[]);
    assert WantsOf(config, services, map[]) != map[];
  }

  /** In the next run the first two calls are refused and all others served. */
  method RunWithTwoFaults(config: Config, node: Node, services: PortMap<Services.ServiceInfo>, store: Store,
                          ghost key: string)
    returns (handle: HaproxyHandle)
    requires KubernetesNames(services.Keys) && Tidy(store) && WantsOf(config, services, map[]).Keys == {key}
    requires ProperAt(key, WantsOf(config, services, map[])[key])
    requires FrontendName(key) in store.frontends && BackendName(key) in store.backends
    ensures forall n :: handle.plan(n) == if n < 2 then Refused else Served
    ensures FrontendName(key) !in handle.store.frontends && BackendName(key) !in handle.store.backends
  {
    handle := RunOnce(config, node, services, n => if n < 2 then Refused else Served, store, key);
    TwoFaultsLose(handle.plan, handle.log, store, handle.store, WantsOf(config, services, map[]), key);
  }

  lemma TwoFaultsLose(plan: nat -> Fate, log: seq<Call>, st0: Store, st: Store, w: Wants, key: string)
    requires w.Keys == {key} && ProperAt(key, w[key]) && RunOutcome(plan, 0, log, st0, st, w)
    requires FrontendName(key) in st0.frontends && BackendName(key) in st0.backends
    requires StartsSync(plan, log, 0, st0, w[key].info)
    requires forall n :: plan(n) == if n < 2 then Refused else Served
    ensures FrontendName(key) !in st.frontends && BackendName(key) !in st.backends
  {
    SettledServiceLost(plan, 0, log, st0, st, w, key);
  }

  /** Nothing is left of a service that was in place and settled. */
  method LoseService(config: Config, node: Node) returns (before: HaproxyHandle, after: HaproxyHandle)
    requires config.mode != "of"
    ensures forall n :: after.plan(n) == if n < 2 then Refused else Served
    ensures var key := EncodedName(TCP_PORT);
      && FrontendName(key) in before.store.frontends && BackendName(key) in before.store.backends
      && Quiet(before.store, WantsOf(config, TcpServices(), map[]))
      && FrontendName(key) !in after.store.frontends && BackendName(key) !in after.store.backends
  {
    ghost var key := EncodedName(TCP_PORT);
    LabelsAreLabels();
    OneWant(config, TCP_PORT, Info("TCP"));
    assert TcpServices().Keys == {TCP_PORT};
    before := PutInPlace(config, node, TcpServices(), key);
    after := RunWithTwoFaults(config, node, TcpServices(), before.store, key);
  }

  // ---------- a backend that stays ----------

  /** On a fresh HAProxy the fourth call of a run, which adds the frontend, is refused and all others are served. */
  method MakeOrphan(config: Config, node: Node, services: PortMap<Services.ServiceInfo>, ghost key: string)
    returns (handle: HaproxyHandle)
    requires KubernetesNames(services.Keys) && WantsOf(config, services, map[]).Keys == {key}
    requires ProperAt(key, WantsOf(config, services, map[])[key])
    ensures forall n :: handle.plan(n) == if n == 3 then Refused else Served
    ensures Tidy(handle.store) && handle.store.frontends == map[] && handle.store.backends.Keys == {BackendName(key)}
  {
    handle := RunOnce(config, node, services, n => if n == 3 then Refused else Served, EMPTY, key);
    HalfMade(handle.plan, 0, handle.log, EMPTY, handle.store, WantsOf(config, services, map[]), key);
  }

  lemma OnlyBackendIsOrphan(st: Store, key: string)
    requires st.frontends == map[] && st.backends.Keys == {BackendName(key)}
    ensures IsOrphan(st, BackendName(key)) && HasOrphan(st, map[])
  {
    assert BackendName(key) !in Owned(st) && BackendName(key) !in WantedBackends(map[]);
  }

  /** If the service is then deleted, its backend is an orphan, and stays one through all runs that do not want its key,
      even if all their calls are served. */
  method LeaveBackend(config: Config, node: Node, ghost ws: seq<Wants>) returns (handle: HaproxyHandle)
    requires config.mode != "of" && AllProper(ws)
    requires forall i | 0 <= i < |ws| :: BackendName(EncodedName(TCP_PORT)) !in WantedBackends(ws[i])
    ensures forall n :: handle.plan(n) == if n == 3 then Refused else Served
    ensures HasOrphan(handle.store, map[])
    ensures IsOrphan(AfterRuns(handle.store, ws), BackendName(EncodedName(TCP_PORT)))
  {
    ghost var key := EncodedName(TCP_PORT);
    LabelsAreLabels();
    OneWant(config, TCP_PORT, Info("TCP"));
    assert TcpServices().Keys == {TCP_PORT};
    handle := MakeOrphan(config, node, TcpServices(), key);
    OnlyBackendIsOrphan(handle.store, key);
    OrphanStays(handle.store, ws, BackendName(key));
  }

  // ---------- servers that clash ----------

  /** The health check is switched on while a server is in place: its new form clashes with the one that is there. The
      first run only deletes the server, the second one adds it again. */
  lemma ClashShown(cfg: Config, e: Endpoint)
    requires cfg.mode != "of" && !cfg.isHealthCheck
    ensures var w := WantsOf(cfg, TcpServices(), map[TCP_PORT := [e]]);
      var w' := WantsOf(cfg.(isHealthCheck := true), TcpServices(), map[TCP_PORT := [e]]);
      NeedsTwoRuns(Reconciled(EMPTY, w), w')
  {
    var cfg' := cfg.(isHealthCheck := true);
    OneKey();
    EndpointWant(cfg, e);
    EndpointWant(cfg', e);
    ClashNeedsTwo(WantsOf(cfg, TcpServices(), map[TCP_PORT := [e]]), WantsOf(cfg', TcpServices(), map[TCP_PORT := [e]]),
                  EncodedName(TCP_PORT), ServerName(e));
  }

  ghost predicate NeedsTwoRuns(st: Store, w: Wants) {
    !IsIdeal(EMPTY, w, Reconciled(st, w)) && IsIdeal(EMPTY, w, Reconciled(Reconciled(st, w), w))
  }

  lemma EndpointWant(cfg: Config, e: Endpoint)
    requires cfg.mode != "of" && IsLabelled(TCP_PORT)
    ensures var w, key := WantsOf(cfg, TcpServices(), map[TCP_PORT := [e]]), EncodedName(TCP_PORT);
      && Proper(w) && w.Keys == {key} && w[key].info.frontend.mode != "udp"
      && w[key].servers.Keys == {ServerName(e)} && w[key].servers[ServerName(e)] == ToServer(cfg, e)
  {
    var endpoints, key := map[TCP_PORT := [e]], EncodedName(TCP_PORT);
    OnePortNamed(TCP_PORT);
    assert TcpServices().Keys == {TCP_PORT};
    WantsAt(cfg, TcpServices(), endpoints, TCP_PORT);
    WantsAreProper(cfg, TcpServices(), endpoints);
    forall k | k in KeysFor(cfg, {TCP_PORT}) ensures k == key {
    }
    assert ToLower("TCP")[0] == 't' != "udp"[0];
    OneServer(cfg, e);
  }

  lemma OneServer(cfg: Config, e: Endpoint)
    ensures WantedServers(cfg, [e]).Keys == {ServerName(e)}
    ensures WantedServers(cfg, [e])[ServerName(e)] == ToServer(cfg, e)
  {
    var r := WantedServers(cfg, [e]);
    assert WantedSet(cfg, [e]) == {ToServer(cfg, e)};
    assert ToServer(cfg, e) in r.Values;
    forall n | n in r ensures n == ServerName(e) {
      assert r[n] in r.Values;
    }
  }

  lemma ClashNeedsTwo(w: Wants, w': Wants, key: string, n: string)
    requires Proper(w) && Proper(w') && w.Keys == w'.Keys == {key} && w[key].info.frontend.mode != "udp"
    requires n in w[key].servers && n in w'[key].servers && w[key].servers[n] != w'[key].servers[n]
    ensures NeedsTwoRuns(Reconciled(EMPTY, w), w')
  {
    var st := Reconciled(EMPTY, w);
    assert AtStart(EMPTY);
    StartSpotless(EMPTY);
    ReconciledSpotless(EMPTY, w);
    SettledAfter(EMPTY, w, key);
    SpotlessHasNoOrphan(st, w');
    NotStuckAfter(w, w', key);
    assert n in ServersOf(st, BackendName(key));
    assert Clashing(ServersOf(st, BackendName(key)), w'[key].servers);
    assert !OneRunEnough(st, key, w'[key]);
    OneRunExact(st, w');
    TwoRunsExact(st, w');
    IdealFromSameStats(EMPTY, st, w', Reconciled(st, w'));
    IdealFromSameStats(EMPTY, st, w', Reconciled(Reconciled(st, w'), w'));
  }

  lemma FreshEntries(w: Wants, key: string)
    requires Proper(w) && key in w
    ensures var r := Reconciled(EMPTY, w);
      && FrontendName(key) in r.frontends && r.frontends[FrontendName(key)].conf == w[key].info.frontend
      && BackendName(key) in r.backends && r.backends[BackendName(key)].conf == w[key].info.backend
      && w[key].info.backend.mode != "udp"
  {
    ReconciledAt(EMPTY, w, key);
    assert ProperAt(key, w[key]);
  }

  lemma NotStuckAfter(w: Wants, w': Wants, key: string)
    requires Proper(w) && Proper(w') && w'.Keys == {key} && key in w && w[key].info.frontend.mode != "udp"
    ensures NoneStuck(Reconciled(EMPTY, w), w')
  {
    FreshEntries(w, key);
    assert ProperAt(key, w'[key]);
  }
}
