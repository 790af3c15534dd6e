/** From the events to the configuration: runs of the proxier on top of a HAProxy whose calls may fail. */
module EndToEnd {
  import opened Api
  import opened Names
  import opened Haproxy
  import opened Reconciliation
  import opened Convergence
  import opened Recovery
  import opened EndpointSide
  import opened ProxierRun
  import opened ProxierRest
  import Services
  import Endpoints
  import opened Protocol
  import V = ServicesRun

  // ---------- names ----------

  /** What Kubernetes guarantees of a Service: labels for names, and one name per port. */
  ghost predicate IsKubernetes(s: Services.Service) {
    && IsLabel(s.name.namespace) && IsLabel(s.name.name)
    && (forall i | 0 <= i < |s.ports| :: s.ports[i].name == "" || IsLabel(s.ports[i].name))
    && (forall i, j | 0 <= i < j < |s.ports| :: s.ports[i].name != s.ports[j].name)
  }

  ghost predicate ObjectsAreKubernetes(objects: V.Objects) {
    forall nn | nn in objects :: IsKubernetes(objects[nn])
  }

  ghost predicate ObservedKubernetes(v: V.State) {
    forall i | 0 <= i < |v.history| :: ObjectsAreKubernetes(v.history[i])
  }

  lemma PortOfKey(node: Node, objects: V.Objects, p: ServicePortName) returns (i: nat)
    requires p in V.FullMap(node, objects)
    ensures p.nn in objects && i < |objects[p.nn].ports| && p == Services.PortKey(objects[p.nn], objects[p.nn].ports[i])
  {
    var service := objects[p.nn];
    Services.OnlyPortKeys(service, service.ports, p);
    i :| 0 <= i < |service.ports| && p == Services.PortKey(service, service.ports[i]);
  }

  lemma PortsAreLabelled(node: Node, objects: V.Objects, p: ServicePortName)
    requires ObjectsAreKubernetes(objects) && p in V.FullMap(node, objects)
    ensures IsLabelled(p)
  {
    var i := PortOfKey(node, objects, p);
    assert IsKubernetes(objects[p.nn]);
  }

  lemma PortsAreUnique(node: Node, objects: V.Objects, p: ServicePortName, q: ServicePortName)
    requires ObjectsAreKubernetes(objects) && p in V.FullMap(node, objects) && q in V.FullMap(node, objects)
    requires p.nn == q.nn && p.port == q.port
    ensures p == q
  {
    var i := PortOfKey(node, objects, p);
    var j := PortOfKey(node, objects, q);
    assert IsKubernetes(objects[p.nn]);
  }

  lemma FullMapNames(node: Node, objects: V.Objects)
    requires ObjectsAreKubernetes(objects)
    ensures KubernetesNames(V.FullMap(node, objects).Keys)
  {
    var spns := V.FullMap(node, objects).Keys;
    forall p | p in spns ensures IsLabelled(p) {
      PortsAreLabelled(node, objects, p);
    }
    forall p, q | p in spns && q in spns && p.nn == q.nn && p.port == q.port ensures p == q {
      PortsAreUnique(node, objects, p, q);
    }
  }

  ghost predicate DrivesAreKubernetes(drives: seq<Drive>) {
    forall i | 0 <= i < |drives| :: KubernetesNames(drives[i].services.Keys)
  }

  lemma ObservedNames(node: Node, run: seq<Proxier>, i: nat)
    requires IsRun(node, run) && i < |run| && ObservedKubernetes(run[i].services)
    ensures DrivesAreKubernetes(run[i].drives)
  {
    forall j | 0 <= j < |run[i].drives| ensures KubernetesNames(run[i].drives[j].services.Keys) {
      DrivesAreFaithful(node, run, i, j);
      FullMapNames(node, run[i].services.history[run[i].drives[j].seen.services - 1]);
    }
  }

  // ---------- the stores between the reconciliations of a run ----------

  ghost function WantsOfDrive(cfg: Config, d: Drive): Wants {
    WantsOf(cfg, d.services, d.endpoints)
  }

  lemma DriveIsProper(cfg: Config, d: Drive)
    requires KubernetesNames(d.services.Keys)
    ensures Proper(WantsOfDrive(cfg, d)) && WantsSourced(cfg, WantsOfDrive(cfg, d))
  {
    var w := WantsOfDrive(cfg, d);
    WantsAreProper(cfg, d.services, d.endpoints);
    forall key | key in w ensures Sourced(cfg, w[key].servers) {
      WantedServersSourced(cfg, Endpoints.Listed(d.endpoints, PortFor(d.services.Keys, key)));
    }
  }

  /** What a reconciliation does to HAProxy: if that answers, a run with any failures; otherwise nothing. */
  ghost predicate DroveTo(cfg: Config, st: Store, st': Store, d: Drive) {
    if d.answered then Happened(st, st', WantsOfDrive(cfg, d)) else st' == st
  }

  /** The stores of HAProxy before, between and after some reconciliations. */
  ghost predicate AreStores(cfg: Config, stores: seq<Store>, drives: seq<Drive>) {
    && |stores| == |drives| + 1 && AtStart(stores[0])
    && forall i | 0 <= i < |drives| :: DroveTo(cfg, stores[i], stores[i + 1], drives[i])
  }

  lemma {:induction false} StoresSound(cfg: Config, stores: seq<Store>, drives: seq<Drive>, i: nat)
    requires AreStores(cfg, stores, drives) && DrivesAreKubernetes(drives) && i < |stores|
    ensures Sound(cfg, stores[i]) && StatsOf(stores[i]) == StatsOf(stores[0])
  {
    if i == 0 {
      StartSound(cfg, stores[0]);
    } else {
      var j := i - 1;
      StoresSound(cfg, stores, drives, j);
      assert DroveTo(cfg, stores[j], stores[j + 1], drives[j]);
      if drives[j].answered {
        DriveIsProper(cfg, drives[j]);
        RunKeepsSound(cfg, stores[j], stores[j + 1], WantsOfDrive(cfg, drives[j]));
      }
    }
  }

  /** All calls of this reconciliation were served, so that its store is Reconciled. */
  ghost predicate WasServed(cfg: Config, stores: seq<Store>, drives: seq<Drive>, i: nat)
    requires |stores| == |drives| + 1 && i < |drives|
  {
    drives[i].answered && stores[i + 1] == Reconciled(stores[i], WantsOfDrive(cfg, drives[i]))
  }

  /** What a reconciliation whose calls are served ends in, exactly. */
  ghost predicate EndsIn(cfg: Config, stores: seq<Store>, drives: seq<Drive>, i: nat)
    requires |stores| == |drives| + 1 && i < |drives|
  {
    var w := WantsOfDrive(cfg, drives[i]);
    WasServed(cfg, stores, drives, i) ==> (IsIdeal(stores[0], w, stores[i + 1]) <==> Restorable(stores[i], w))
  }

  lemma DrivesEnd(cfg: Config, stores: seq<Store>, drives: seq<Drive>, i: nat)
    requires AreStores(cfg, stores, drives) && DrivesAreKubernetes(drives) && i < |drives|
    ensures EndsIn(cfg, stores, drives, i)
  {
    var w := WantsOfDrive(cfg, drives[i]);
    StoresSound(cfg, stores, drives, i);
    DriveIsProper(cfg, drives[i]);
    SoundRunExact(cfg, stores[i], w);
    IdealFromSameStats(stores[0], stores[i], w, Reconciled(stores[i], w));
  }

  /** Take a HAProxy that was fresh at the start. Whatever calls failed in earlier reconciliations, one whose own
      calls are served ends in exactly what the observed objects call for at a point no earlier than its start, unless
      it finds an orphan or the frontend of a former udp port in the way. */
  lemma ConfigurationFollowsObjects(node: Node, cfg: Config, run: seq<Proxier>, i: nat, j: nat, stores: seq<Store>)
    requires IsRun(node, run) && i < |run| && j < |run[i].drives| && ObservedKubernetes(run[i].services)
    requires AreStores(cfg, stores, run[i].drives)
    ensures Faithful(node, run[i], run[i].drives[j])
    ensures EndsIn(cfg, stores, run[i].drives, j)
  {
    DrivesAreFaithful(node, run, i, j);
    ObservedNames(node, run, i);
    DrivesEnd(cfg, stores, run[i].drives, j);
  }

  /** When an initialised proxier comes to rest, it has reconciled, and last with the maps of the latest objects. If the
      calls of that reconciliation were served, HAProxy holds exactly what these objects call for, whatever has failed
      before, unless an orphan or the frontend of a former udp port is in the way. */
  lemma RestIsIdeal(node: Node, cfg: Config, run: seq<Proxier>, i: nat, stores: seq<Store>)
    requires IsRun(node, run) && i < |run| && ObservedKubernetes(run[i].services)
    requires run[i].control.initialized && Quiescent(run[i].control)
    requires AreStores(cfg, stores, run[i].drives)
    ensures RestsOn(node, run[i])
    ensures EndsIn(cfg, stores, run[i].drives, |run[i].drives| - 1)
  {
    RestOnLatest(node, run, i);
    ObservedNames(node, run, i);
    DrivesEnd(cfg, stores, run[i].drives, |run[i].drives| - 1);
  }

  /** EnsureHaproxy as written always answers; then every reconciliation acts on HAProxy. */
  ghost predicate AllAnswered(drives: seq<Drive>) {
    forall i | 0 <= i < |drives| :: drives[i].answered
  }

  lemma RestAsWritten(node: Node, cfg: Config, run: seq<Proxier>, i: nat, stores: seq<Store>)
    requires IsRun(node, run) && i < |run| && ObservedKubernetes(run[i].services) && AllAnswered(run[i].drives)
    requires run[i].control.initialized && Quiescent(run[i].control)
    requires AreStores(cfg, stores, run[i].drives)
    ensures RestsOn(node, run[i])
    ensures var n := |run[i].drives| - 1;
      && Happened(stores[n], stores[n + 1], WantsOfDrive(cfg, LastDrive(run[i])))
      && EndsIn(cfg, stores, run[i].drives, n)
  {
    RestIsIdeal(node, cfg, run, i, stores);
    var n := |run[i].drives| - 1;
    assert DroveTo(cfg, stores[n], stores[n + 1], run[i].drives[n]);
  }

  /** The last reconciliation had the current maps, and they are what the latest objects call for. */
  ghost predicate RestsOn(node: Node, s: Proxier) {
    && s.drives != [] && s.services.history != [] && Events(s.side) > 0
    && LastDrive(s).services == s.services.entries == V.FullMap(node, V.Latest(s.services))
    && LastDrive(s).endpoints == Entries(s.side)
    && CalledFor(node, s.side, Events(s.side) - 1, LastDrive(s).endpoints)
  }

  lemma RestOnLatest(node: Node, run: seq<Proxier>, i: nat)
    requires IsRun(node, run) && i < |run| && run[i].control.initialized && Quiescent(run[i].control)
    ensures RestsOn(node, run[i])
  {
    RestIsReconciled(node, run, i);
    RestCarries(node, run, i);
  }

  lemma RestCarries(node: Node, run: seq<Proxier>, i: nat)
    requires IsRun(node, run) && i < |run| && Quiescent(run[i].control) && run[i].drives != []
    ensures LastDrive(run[i]).services == run[i].services.entries && LastDrive(run[i]).endpoints == Entries(run[i].side)
  {
    EveryStateCarried(node, run, i);
    assert forall t :: PcOf(run[i].control, t).Resting?;
  }
}
