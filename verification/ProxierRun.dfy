/** Runs of the whole proxier: the protocol of flags, requests and threads, with the change trackers and the maps they
    feed, and with what HAProxy is driven with. */
module ProxierRun {
  import opened Api
  import opened PortMaps
  import opened Protocol
  import opened EndpointSide
  import Services
  import Endpoints
  import V = ServicesRun
  import E = EndpointsRun
  import S = SlicesRun

  /** One reconciliation: the maps it has for HAProxy, the events those account for, and the outcome of EnsureHaproxy;
      without an answer HAProxy is left alone. */
  datatype Drive = Drive(since: Since, seen: Since, services: PortMap<Services.ServiceInfo>,
                         endpoints: Endpoints.EndpointEntries, answered: bool)

  datatype Proxier = Proxier(services: V.State, side: Side, control: Control, drives: seq<Drive>)

  ghost predicate Init(s: Proxier) {
    && s.services == V.START && (s.side == Plain(E.START) || s.side == Sliced(S.START))
    && s.control == Protocol.START && s.drives == []
  }

  // ---------- steps ----------

  function Count(s: Proxier): Since {
    Since(|s.services.history|, Events(s.side))
  }

  ghost predicate ServicesMove(node: Node, v: V.State, v': V.State, step: Step, changed: bool) {
    match step
    case ServiceEvent(_) => exists nn, service :: V.Observe(node, v, v', nn, service, changed)
    case ApplyServices(_) => V.Apply(v, v')
    case _ => v' == v
  }

  ghost predicate SideMoves(node: Node, side: Side, side': Side, step: Step, changed: bool) {
    match step
    case EndpointEvent(_) => SideObserve(node, side, side', changed)
    case CheckoutEndpoints(_) => SideCheckout(node, side, side')
    case MergeOne(_) => SideMergeOne(side, side')
    case TakeTimes(_) => SideTakeTimes(side, side')
    case _ => side' == side
  }

  function DriveBy(s: Proxier, t: nat, answered: bool): Drive
    requires PcOf(s.control, t).Running?
  {
    Drive(PcOf(s.control, t).since, Since(s.services.seenAt + 1, SeenAt(s.side) + 1), s.services.entries,
          Entries(s.side), answered)
  }

  ghost predicate IsMove(node: Node, s: Proxier, s': Proxier, step: Step, changed: bool) {
    && ControlStep(s.control, s'.control, step, changed, Count(s), s.side.Sliced?)
    && ServicesMove(node, s.services, s'.services, step, changed)
    && SideMoves(node, s.side, s'.side, step, changed)
    && s'.drives == if step.Reconcile? then s.drives + [DriveBy(s, step.t, step.answered)] else s.drives
  }

  ghost predicate Moves(node: Node, s: Proxier, s': Proxier) {
    exists step, changed :: IsMove(node, s, s', step, changed)
  }

  ghost predicate IsRun(node: Node, run: seq<Proxier>) {
    && run != [] && Init(run[0])
    && forall i | 0 <= i < |run| - 1 :: Moves(node, run[i], run[i + 1])
  }

  // ---------- the protocol's view of the proxier ----------

  ghost function ServicesView(v: V.State): View {
    View(v.items != map[], true, v.seenAt + 1, |v.history|, v.entries == map[])
  }

  ghost function SideView(side: Side): View {
    View(Dirty(side), IdleSide(side), SeenAt(side) + 1, Events(side), Entries(side) == map[])
  }

  ghost function Seen(s: Proxier): Protocol.State {
    Protocol.State(ServicesView(s.services), SideView(s.side), s.side.Sliced?, s.control, |s.drives|)
  }

  ghost predicate SidesInv(node: Node, s: Proxier) {
    V.Inv(node, s.services) && SideInv(node, s.side)
  }

  lemma ServicesRefine(node: Node, v: V.State, v': V.State, step: Step, changed: bool)
    requires V.Inv(node, v) && ServicesMove(node, v, v', step, changed)
    ensures V.Inv(node, v') && v.history <= v'.history
    ensures ServicesStep(ServicesView(v), ServicesView(v'), step, changed)
  {
    match step
    case ServiceEvent(_) =>
      var nn, service :| V.Observe(node, v, v', nn, service, changed);
      V.ObserveKeeps(node, v, v', nn, service, changed);
    case ApplyServices(_) =>
      V.ApplyKeeps(node, v, v');
    case _ =>
  }

  lemma SideEventRefines(node: Node, side: Side, side': Side, step: Step, changed: bool)
    requires SideInv(node, side) && SideMoves(node, side, side', step, changed)
    requires step.EndpointEvent? || step.CheckoutEndpoints?
    ensures SideInv(node, side') && Extends(side, side')
    ensures EndpointsStep(SideView(side), SideView(side'), step, changed)
  {
    if step.EndpointEvent? {
      SideObserveKeeps(node, side, side', changed);
    } else {
      SideCheckoutKeeps(node, side, side');
    }
  }

  lemma SideRefines(node: Node, side: Side, side': Side, step: Step, changed: bool)
    requires SideInv(node, side) && SideMoves(node, side, side', step, changed)
    ensures SideInv(node, side') && Extends(side, side')
    ensures EndpointsStep(SideView(side), SideView(side'), step, changed)
  {
    match step
    case EndpointEvent(_) => SideEventRefines(node, side, side', step, changed);
    case CheckoutEndpoints(_) => SideEventRefines(node, side, side', step, changed);
    case MergeOne(_) => SideMergeOneKeeps(node, side, side');
    case TakeTimes(_) => SideTakeTimesKeeps(node, side, side');
    case _ =>
  }

  /** Every move of the proxier is a step of the protocol. */
  lemma MoveRefines(node: Node, s: Proxier, s': Proxier, step: Step, changed: bool)
    requires SidesInv(node, s) && IsMove(node, s, s', step, changed)
    ensures Protocol.IsStep(Seen(s), Seen(s'), step, changed)
    ensures SidesInv(node, s') && s.services.history <= s'.services.history && Extends(s.side, s'.side)
  {
    ServicesRefine(node, s.services, s'.services, step, changed);
    SideRefines(node, s.side, s'.side, step, changed);
  }

  // ---------- what HAProxy is driven with ----------

  /** A reconciliation drove HAProxy with what the observed objects called for at a point no earlier than its start. */
  ghost predicate Faithful(node: Node, s: Proxier, d: Drive) {
    && d.since.services <= d.seen.services && d.since.endpoints <= d.seen.endpoints
    && 0 < d.seen.services <= |s.services.history|
    && d.services == V.FullMap(node, s.services.history[d.seen.services - 1])
    && 0 < d.seen.endpoints && CalledFor(node, s.side, d.seen.endpoints - 1, d.endpoints)
  }

  ghost predicate Inv(node: Node, s: Proxier) {
    && SidesInv(node, s) && Protocol.Inv(Seen(s))
    && forall i | 0 <= i < |s.drives| :: Faithful(node, s, s.drives[i])
  }

  lemma StartInv(node: Node, s: Proxier)
    requires Init(s)
    ensures Inv(node, s)
  {
    V.StartInv(node);
    E.StartInv(node);
    S.StartInv(node);
    forall t ensures ThreadOk(Seen(s), t) && PcOf(s.control, t).Resting? {
    }
  }

  lemma FaithfulStays(node: Node, s: Proxier, s': Proxier, d: Drive)
    requires s.services.history <= s'.services.history && Extends(s.side, s'.side) && Faithful(node, s, d)
    ensures Faithful(node, s', d)
  {
    CalledForStays(node, s.side, s'.side, d.seen.endpoints - 1, d.endpoints);
  }

  lemma DriveIsFaithful(node: Node, s: Proxier, t: nat, answered: bool)
    requires SidesInv(node, s) && ThreadOk(Seen(s), t) && AtStage(PcOf(s.control, t), EndpointsApplied)
    ensures Faithful(node, s, DriveBy(s, t, answered))
  {
    V.MapIsRecomputed(node, s.services);
    IdleSideIsCoherent(node, s.side);
  }

  lemma MoveKeeps(node: Node, s: Proxier, s': Proxier, step: Step, changed: bool)
    requires Inv(node, s) && IsMove(node, s, s', step, changed)
    ensures Inv(node, s')
  {
    MoveRefines(node, s, s', step, changed);
    Protocol.StepKeeps(Seen(s), Seen(s'), step, changed);
    forall i | 0 <= i < |s'.drives| ensures Faithful(node, s', s'.drives[i]) {
      if i == |s.drives| {
        assert ThreadOk(Seen(s), step.t);
        DriveIsFaithful(node, s, step.t, step.answered);
      }
      FaithfulStays(node, s, s', s'.drives[i]);
    }
  }

  lemma MovesKeep(node: Node, s: Proxier, s': Proxier)
    requires Inv(node, s) && Moves(node, s, s')
    ensures Inv(node, s')
  {
    var step, changed :| IsMove(node, s, s', step, changed);
    MoveKeeps(node, s, s', step, changed);
  }

  // ---------- what holds in every state of every run ----------

  lemma {:induction false} EveryState(node: Node, run: seq<Proxier>, i: nat)
    requires IsRun(node, run) && i < |run|
    ensures Inv(node, run[i])
  {
    if i == 0 {
      StartInv(node, run[0]);
    } else {
      var j := i - 1;
      EveryState(node, run, j);
      assert Moves(node, run[j], run[j + 1]);
      MovesKeep(node, run[j], run[j + 1]);
    }
  }

  ghost predicate Pending(s: Proxier, k: Tracker) {
    match k
    case ServiceTracker => s.services.items != map[]
    case EndpointTracker => Dirty(s.side)
  }

  /** No lost wake-up: once initialised, a difference that no run has checked out has a request, or a thread that will
      request or start a run or is in one that has yet to check it out. */
  lemma NoLostWakeup(node: Node, run: seq<Proxier>, i: nat, k: Tracker)
    requires IsRun(node, run) && i < |run| && run[i].control.initialized && Pending(run[i], k)
    ensures run[i].control.request || exists t :: Attends(PcOf(run[i].control, t), k)
  {
    EveryState(node, run, i);
    assert Wakeful(Seen(run[i]), k);
  }

  ghost predicate Quiescent(c: Control) {
    !c.request && forall t :: PcOf(c, t).Resting?
  }

  /** When an initialised proxier comes to rest, both maps are those of the latest objects. */
  lemma QuiescentIsCurrent(node: Node, run: seq<Proxier>, i: nat)
    requires IsRun(node, run) && i < |run| && run[i].control.initialized && Quiescent(run[i].control)
    ensures run[i].services.history != []
    ensures run[i].services.entries == V.FullMap(node, V.Latest(run[i].services))
    ensures Events(run[i].side) > 0 && CalledFor(node, run[i].side, Events(run[i].side) - 1, Entries(run[i].side))
  {
    EveryState(node, run, i);
    NothingPending(Seen(run[i]));
    V.MapIsRecomputed(node, run[i].services);
    IdleSideIsCoherent(node, run[i].side);
  }

  lemma NothingPending(s: Protocol.State)
    requires Protocol.Inv(s) && s.control.initialized && Quiescent(s.control)
    ensures !s.services.pending && !s.endpoints.pending && s.endpoints.idle
  {
    assert Wakeful(s, ServiceTracker) && Wakeful(s, EndpointTracker);
  }

  /** HAProxy is only ever driven once the gate has opened, and with maps that account for every event that came
      before the run was started. */
  lemma DrivesAreFaithful(node: Node, run: seq<Proxier>, i: nat, j: nat)
    requires IsRun(node, run) && i < |run| && j < |run[i].drives|
    ensures run[i].control.servicesSynced && (run[i].control.endpointsSynced || run[i].control.endpointSlicesSynced)
    ensures Faithful(node, run[i], run[i].drives[j])
  {
    EveryState(node, run, i);
    assert Gated(Seen(run[i]));
  }

  ghost predicate NothingTouched(s: Proxier) {
    s.services.entries == map[] && Entries(s.side) == map[] && s.drives == []
  }

  /** Before the service callback and one endpoint callback have come, maps and HAProxy are as at start-up. */
  lemma GateHolds(node: Node, run: seq<Proxier>, i: nat)
    requires IsRun(node, run) && i < |run|
    requires !run[i].control.servicesSynced || !(run[i].control.endpointsSynced || run[i].control.endpointSlicesSynced)
    ensures NothingTouched(run[i])
  {
    EveryState(node, run, i);
    assert Gated(Seen(run[i]));
  }

  /** In Endpoints mode the gate is open once both callbacks have come, in either order. */
  lemma OpenInPlainMode(node: Node, run: seq<Proxier>, i: nat)
    requires IsRun(node, run) && i < |run| && run[i].side.Plain?
    requires run[i].control.servicesSynced && run[i].control.endpointsSynced
    ensures run[i].control.initialized
  {
    EveryState(node, run, i);
    assert Gated(Seen(run[i]));
  }

  /** In EndpointSlice mode, once both callbacks have come, the gate is open exactly when the service callback came
      first; otherwise it stays shut and nothing is ever touched. */
  lemma SliceGateExact(node: Node, run: seq<Proxier>, i: nat)
    requires IsRun(node, run) && i < |run| && run[i].side.Sliced?
    requires run[i].control.servicesSynced && run[i].control.endpointSlicesSynced
    ensures run[i].control.initialized <==> run[i].control.first == Some(OnServiceSynced)
    ensures run[i].control.first != Some(OnServiceSynced) ==> NothingTouched(run[i])
  {
    EveryState(node, run, i);
    assert Gated(Seen(run[i]));
  }
}
