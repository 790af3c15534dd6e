/** What the proxier has done once it rests, and what the run of a synced callback has taken into account. */
module ProxierRest {
  import opened Api
  import opened Protocol
  import opened EndpointSide
  import opened ProxierRun
  import V = ServicesRun
  import S = SlicesRun

  // ---------- the last reconciliation carries the current maps ----------

  function LastDrive(s: Proxier): Drive
    requires s.drives != []
  {
    s.drives[|s.drives| - 1]
  }

  /** While no run is under way, the maps are those of the last reconciliation. */
  ghost predicate Carried(s: Proxier) {
    LockFree(s.control) && s.drives != [] ==>
      LastDrive(s).services == s.services.entries && LastDrive(s).endpoints == Entries(s.side)
  }

  predicate OnItsWay(pc: Pc) {
    pc.WillRun? || pc.Running?
  }

  /** An initialised proxier that has not reconciled yet is about to. */
  ghost predicate Starting(s: Proxier) {
    s.control.initialized && s.drives == [] ==> exists t :: OnItsWay(PcOf(s.control, t))
  }

  /** These steps belong to a run that goes on. */
  predicate IsInRun(step: Step) {
    step.ApplyServices? || step.CheckoutEndpoints? || step.MergeOne? || step.TakeTimes?
  }

  lemma MapsStay(node: Node, s: Proxier, s': Proxier, step: Step, changed: bool)
    requires SidesInv(node, s) && IsMove(node, s, s', step, changed) && !IsInRun(step)
    ensures s'.services.entries == s.services.entries && Entries(s'.side) == Entries(s.side)
  {
    match step
    case ServiceEvent(_) =>
    case EndpointEvent(_) => SideObserveKeeps(node, s.side, s'.side, changed);
    case _ =>
  }

  lemma LockWasFree(s: Proxier, s': Proxier, step: Step, changed: bool, now: Since)
    requires ControlStep(s.control, s'.control, step, changed, now, s.side.Sliced?) && LockFree(s'.control)
    requires !step.Reconcile?
    ensures LockFree(s.control) && !IsInRun(step)
  {
    assert !PcOf(s'.control, step.t).Running?;
    forall t ensures !PcOf(s.control, t).Running? {
      assert !PcOf(s'.control, t).Running?;
    }
  }

  lemma CarriedKeeps(node: Node, s: Proxier, s': Proxier, step: Step, changed: bool)
    requires SidesInv(node, s) && Carried(s) && IsMove(node, s, s', step, changed)
    ensures Carried(s')
  {
    if LockFree(s'.control) {
      if step.Reconcile? {
        MapsStay(node, s, s', step, changed);
      } else {
        LockWasFree(s, s', step, changed, Count(s));
        MapsStay(node, s, s', step, changed);
      }
    }
  }

  lemma StartingKeeps(node: Node, s: Proxier, s': Proxier, step: Step, changed: bool)
    requires Starting(s) && IsMove(node, s, s', step, changed)
    ensures Starting(s')
  {
    if s'.control.initialized && s'.drives == [] {
      if step.Synced? {
        assert OnItsWay(PcOf(s'.control, step.t));
      } else {
        var t :| OnItsWay(PcOf(s.control, t));
        assert OnItsWay(PcOf(s'.control, t));
      }
    }
  }

  lemma {:induction false} EveryStateCarried(node: Node, run: seq<Proxier>, i: nat)
    requires IsRun(node, run) && i < |run|
    ensures Carried(run[i]) && Starting(run[i])
  {
    if i == 0 {
    } else {
      var j := i - 1;
      EveryState(node, run, j);
      EveryStateCarried(node, run, j);
      assert Moves(node, run[j], run[j + 1]);
      var step, changed :| IsMove(node, run[j], run[j + 1], step, changed);
      CarriedKeeps(node, run[j], run[j + 1], step, changed);
      StartingKeeps(node, run[j], run[j + 1], step, changed);
    }
  }

  /** When an initialised proxier comes to rest, it has reconciled, and last with the maps of the latest objects. */
  lemma RestIsReconciled(node: Node, run: seq<Proxier>, i: nat)
    requires IsRun(node, run) && i < |run| && run[i].control.initialized && Quiescent(run[i].control)
    ensures run[i].drives != [] && run[i].services.history != [] && Events(run[i].side) > 0
    ensures LastDrive(run[i]).services == V.FullMap(node, V.Latest(run[i].services))
    ensures CalledFor(node, run[i].side, Events(run[i].side) - 1, LastDrive(run[i]).endpoints)
  {
    EveryStateCarried(node, run, i);
    QuiescentIsCurrent(node, run, i);
    assert forall t :: !OnItsWay(PcOf(run[i].control, t));
  }

  // ---------- the run of a synced callback ----------

  predicate HasSince(pc: Pc, since: Since) {
    OnItsWay(pc) && pc.since == since
  }

  lemma SinceStays(node: Node, s: Proxier, s': Proxier, step: Step, changed: bool, t: nat, since: Since)
    requires IsMove(node, s, s', step, changed) && HasSince(PcOf(s.control, t), since)
    ensures HasSince(PcOf(s'.control, t), since) || PcOf(s'.control, t).Resting?
  {
  }

  lemma {:induction false} SinceKept(node: Node, run: seq<Proxier>, a: nat, b: nat, t: nat, since: Since)
    requires IsRun(node, run) && a <= b < |run| && HasSince(PcOf(run[a].control, t), since)
    requires forall j | a <= j <= b :: !PcOf(run[j].control, t).Resting?
    ensures HasSince(PcOf(run[b].control, t), since)
  {
    if a == b {
    } else {
      var j := b - 1;
      SinceKept(node, run, a, j, t, since);
      assert Moves(node, run[j], run[j + 1]);
      var step, changed :| IsMove(node, run[j], run[j + 1], step, changed);
      SinceStays(node, run[j], run[j + 1], step, changed, t, since);
    }
  }

  /** In Endpoints mode with both callbacks in. */
  ghost predicate BothIn(s: Proxier) {
    s.side.Plain? && s.control.servicesSynced && s.control.endpointsSynced
  }

  lemma BothStayIn(node: Node, s: Proxier, s': Proxier)
    requires SidesInv(node, s) && Moves(node, s, s') && BothIn(s)
    ensures BothIn(s')
  {
    var step, changed :| IsMove(node, s, s', step, changed);
    MoveRefines(node, s, s', step, changed);
  }

  lemma {:induction false} BothRemainIn(node: Node, run: seq<Proxier>, a: nat, b: nat)
    requires IsRun(node, run) && a <= b < |run| && BothIn(run[a])
    ensures BothIn(run[b])
  {
    if a == b {
    } else {
      var j := b - 1;
      BothRemainIn(node, run, a, j);
      EveryState(node, run, j);
      assert Moves(node, run[j], run[j + 1]);
      BothStayIn(node, run[j], run[j + 1]);
    }
  }

  /** A run that an initialised proxier has entered or is about to enter ends by reconciling. */
  lemma EndsByReconciling(node: Node, s: Proxier, s': Proxier, step: Step, changed: bool, t: nat)
    requires IsMove(node, s, s', step, changed) && s.control.initialized
    requires OnItsWay(PcOf(s.control, t)) && PcOf(s'.control, t).Resting?
    ensures step.Reconcile? && step.t == t && s'.drives == s.drives + [DriveBy(s, t, step.answered)]
  {
  }

  lemma ComesToRest(node: Node, s: Proxier, s': Proxier, t: nat, since: Since)
    requires Moves(node, s, s') && s.control.initialized
    requires HasSince(PcOf(s.control, t), since) && PcOf(s'.control, t).Resting?
    ensures |s'.drives| == |s.drives| + 1 && LastDrive(s').since == since
  {
    var step, changed :| IsMove(node, s, s', step, changed);
    EndsByReconciling(node, s, s', step, changed, t);
  }

  lemma RunCovers(node: Node, run: seq<Proxier>, b: nat, t: nat, since: Since)
    requires IsRun(node, run) && b + 1 < |run| && run[b].control.initialized
    requires HasSince(PcOf(run[b].control, t), since) && PcOf(run[b + 1].control, t).Resting?
    ensures |run[b + 1].drives| == |run[b].drives| + 1
    ensures var d := LastDrive(run[b + 1]);
      since.services <= d.seen.services && since.endpoints <= d.seen.endpoints && Faithful(node, run[b + 1], d)
  {
    assert Moves(node, run[b], run[b + 1]);
    ComesToRest(node, run[b], run[b + 1], t, since);
    DrivesAreFaithful(node, run, b + 1, |run[b + 1].drives| - 1);
  }

  /** In Endpoints mode, whichever callback comes second, the run it starts (from the move at a to the one at b) ends by
      reconciling, with maps that account for every event received before the callback. */
  lemma SecondCallbackApplies(node: Node, run: seq<Proxier>, a: nat, b: nat, t: nat, callback: Callback, changed: bool)
    requires IsRun(node, run) && a < b && b + 1 < |run|
    requires IsMove(node, run[a], run[a + 1], Synced(t, callback), changed) && BothIn(run[a + 1])
    requires forall j | a < j <= b :: !PcOf(run[j].control, t).Resting?
    requires PcOf(run[b + 1].control, t).Resting?
    ensures |run[b + 1].drives| == |run[b].drives| + 1
    ensures var d := LastDrive(run[b + 1]);
      && |run[a].services.history| <= d.seen.services && Events(run[a].side) <= d.seen.endpoints
      && Faithful(node, run[b + 1], d)
  {
    SinceKept(node, run, a + 1, b, t, Count(run[a]));
    BothRemainIn(node, run, a + 1, b);
    OpenInPlainMode(node, run, b);
    RunCovers(node, run, b, t, Count(run[a]));
  }

  // ---------- a gate that stays shut ----------

  function Shut(node: Node, c: Control): Proxier {
    Proxier(V.START, Sliced(S.START), c, [])
  }

  /** In EndpointSlice mode the slices callback may come before the service callback; then both have come, the runs they
      started have been turned away, and the proxier is not initialised. By SliceGateExact it never will be. */
  lemma SlicesFirst(node: Node) returns (run: seq<Proxier>)
    ensures IsRun(node, run) && run != []
    ensures var last := run[|run| - 1];
      && last.side.Sliced? && last.control.servicesSynced && last.control.endpointSlicesSynced
      && !last.control.initialized && Quiescent(last.control)
  {
    var c0 := Protocol.START;
    var s0 := Shut(node, c0);
    var c1 := Goes(Flagged(c0, OnEndpointSlicesSynced), 0, WillRun(Count(s0)));
    var c2 := Goes(c1, 0, Resting);
    var c3 := Goes(Flagged(c2, OnServiceSynced), 0, WillRun(Count(s0)));
    var c4 := Goes(c3, 0, Resting);
    run := [s0, Shut(node, c1), Shut(node, c2), Shut(node, c3), Shut(node, c4)];
    forall t
      ensures PcOf(c0, t).Resting? && PcOf(c2, t).Resting? && PcOf(c4, t).Resting?
      ensures !PcOf(c1, t).Running? && !PcOf(c3, t).Running?
    {
    }
    assert IsMove(node, run[0], run[1], Synced(0, OnEndpointSlicesSynced), false);
    assert IsMove(node, run[1], run[2], Enter(0), false);
    assert IsMove(node, run[2], run[3], Synced(0, OnServiceSynced), false);
    assert IsMove(node, run[3], run[4], Enter(0), false);
    assert Moves(node, run[0], run[1]);
    assert Moves(node, run[1], run[2]);
    assert Moves(node, run[2], run[3]);
    assert Moves(node, run[3], run[4]);
  }
}
