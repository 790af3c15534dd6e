/** The gate and wake-up protocol of haproxy/proxier.go: the synced flags, initialized, the request bit of syncRunner
    and the threads that use them. Each change tracker is seen only through a view; ProxierRun puts the trackers and the
    maps back in. */
module Protocol {
  import opened Api

  /** pending: the tracker holds a difference not checked out; idle: nothing checked out is waiting to be merged;
      seen: how many events the map accounts for; events: how many there were; empty: the map has no entries. */
  datatype View = View(pending: bool, idle: bool, seen: nat, events: nat, empty: bool)

  datatype Tracker = ServiceTracker | EndpointTracker

  /** How many events each tracker had received at some moment. */
  datatype Since = Since(services: nat, endpoints: nat)

  datatype Stage = Entered | ServicesApplied | EndpointsOut | EndpointsApplied

  /** Updated: between a tracker's Update and the test of its result; WillSync: about to call Sync;
      WillRun: about to take the lock in syncProxyRules; Running: holding it. */
  datatype Pc =
    | Resting | Updated(changed: bool) | WillSync | WillRun(since: Since) | Running(since: Since, stage: Stage)

  datatype Callback = OnServiceSynced | OnEndpointsSynced | OnEndpointSlicesSynced

  datatype Control = Control(
    servicesSynced: bool,
    endpointsSynced: bool,
    endpointSlicesSynced: bool,
    initialized: bool,
    request: bool,
    pcs: map<nat, Pc>,
    first: Option<Callback>)   // the synced callback that came first

  const START := Control(false, false, false, false, false, map[], None)

  datatype State = State(services: View, endpoints: View, sliceMode: bool, control: Control, drives: nat)

  datatype Step =
    | ServiceEvent(t: nat)
    | EndpointEvent(t: nat)
    | TestInitialized(t: nat)
    | Sync(t: nat)
    | Synced(t: nat, callback: Callback)
    | StartRequested(t: nat)
    | StartUnrequested(t: nat)
    | Enter(t: nat)
    | ApplyServices(t: nat)
    | CheckoutEndpoints(t: nat)
    | MergeOne(t: nat)
    | TakeTimes(t: nat)
    | Reconcile(t: nat, answered: bool)

  function PcOf(c: Control, t: nat): Pc {
    if t in c.pcs then c.pcs[t] else Resting
  }

  function Goes(c: Control, t: nat, pc: Pc): Control {
    c.(pcs := c.pcs[t := pc])
  }

  ghost predicate LockFree(c: Control) {
    forall t :: !PcOf(c, t).Running?
  }

  /** The assignments of the synced callbacks. OnServiceSynced consults the endpoints flag only, in both modes. */
  function Flagged(c: Control, callback: Callback): Control {
    var c' := c.(first := if c.first.None? then Some(callback) else c.first);
    match callback
    case OnServiceSynced => c'.(servicesSynced := true, initialized := c.endpointsSynced)
    case OnEndpointsSynced => c'.(endpointsSynced := true, initialized := c.servicesSynced)
    case OnEndpointSlicesSynced => c'.(endpointSlicesSynced := true, initialized := c.servicesSynced)
  }

  /** Each callback comes once, and those for endpoints only in their own mode. */
  predicate MayCall(c: Control, sliceMode: bool, callback: Callback) {
    match callback
    case OnServiceSynced => !c.servicesSynced
    case OnEndpointsSynced => !sliceMode && !c.endpointsSynced
    case OnEndpointSlicesSynced => sliceMode && !c.endpointSlicesSynced
  }

  predicate AtStage(pc: Pc, stage: Stage) {
    pc.Running? && pc.stage == stage
  }

  /** What a step does to flags and threads; changed is what an Update returned, now counts the events so far. */
  ghost predicate ControlStep(c: Control, c': Control, step: Step, changed: bool, now: Since, sliceMode: bool) {
    var t, pc := step.t, PcOf(c, step.t);
    match step
    case ServiceEvent(_) => pc.Resting? && c' == Goes(c, t, Updated(changed))
    case EndpointEvent(_) => pc.Resting? && c' == Goes(c, t, Updated(changed))
    case TestInitialized(_) =>
      pc.Updated? && c' == Goes(c, t, if pc.changed && c.initialized then WillSync else Resting)
    case Sync(_) => pc.WillSync? && c' == Goes(c, t, Resting).(request := true)
    case Synced(_, callback) =>
      pc.Resting? && LockFree(c) && MayCall(c, sliceMode, callback) && c' == Goes(Flagged(c, callback), t, WillRun(now))
    case StartRequested(_) => pc.Resting? && c.request && c' == Goes(c, t, WillRun(now)).(request := false)
    case StartUnrequested(_) => pc.Resting? && c' == Goes(c, t, WillRun(now))
    case Enter(_) =>
      pc.WillRun? && LockFree(c) && c' == Goes(c, t, if c.initialized then Running(pc.since, Entered) else Resting)
    case ApplyServices(_) => AtStage(pc, Entered) && c' == Goes(c, t, Running(pc.since, ServicesApplied))
    case CheckoutEndpoints(_) => AtStage(pc, ServicesApplied) && c' == Goes(c, t, Running(pc.since, EndpointsOut))
    case MergeOne(_) => AtStage(pc, EndpointsOut) && c' == c
    case TakeTimes(_) => AtStage(pc, EndpointsOut) && c' == Goes(c, t, Running(pc.since, EndpointsApplied))
    case Reconcile(_, _) => AtStage(pc, EndpointsApplied) && c' == Goes(c, t, Resting)
  }

  /** What a step does to the view of a tracker and its map. An Update that leaves a difference pending returns true
      or found one pending already. */
  predicate ServicesStep(v: View, v': View, step: Step, changed: bool) {
    match step
    case ServiceEvent(_) =>
      v' == v.(events := v.events + 1, pending := v'.pending) && (v'.pending ==> changed || v.pending)
    case ApplyServices(_) => v' == v.(pending := false, seen := v.events, empty := v'.empty)
    case _ => v' == v
  }

  predicate EndpointsStep(v: View, v': View, step: Step, changed: bool) {
    match step
    case EndpointEvent(_) =>
      v' == v.(events := v.events + 1, pending := v'.pending) && (v'.pending ==> changed || v.pending)
    case CheckoutEndpoints(_) => v' == v.(pending := false, seen := v.events, idle := false)
    case MergeOne(_) => v' == v.(empty := v'.empty)
    case TakeTimes(_) => v' == v.(idle := true)
    case _ => v' == v
  }

  function Now(s: State): Since {
    Since(s.services.events, s.endpoints.events)
  }

  ghost predicate IsStep(s: State, s': State, step: Step, changed: bool) {
    && ControlStep(s.control, s'.control, step, changed, Now(s), s.sliceMode)
    && ServicesStep(s.services, s'.services, step, changed)
    && EndpointsStep(s.endpoints, s'.endpoints, step, changed)
    && s'.sliceMode == s.sliceMode
    && s'.drives == s.drives + if step.Reconcile? then 1 else 0
  }

  // ---------- invariants ----------

  function ViewOf(s: State, k: Tracker): View {
    if k.ServiceTracker? then s.services else s.endpoints
  }

  /** This thread is going to request or start a run, or is in one that has yet to check out the tracker. */
  predicate Attends(pc: Pc, k: Tracker) {
    match pc
    case Resting => false
    case Updated(changed) => changed
    case WillSync => true
    case WillRun(_) => true
    case Running(_, stage) => stage.Entered? || (k.EndpointTracker? && stage.ServicesApplied?)
  }

  ghost predicate Attended(c: Control, k: Tracker) {
    c.request || exists t :: Attends(PcOf(c, t), k)
  }

  /** No wake-up is lost. */
  ghost predicate Wakeful(s: State, k: Tracker) {
    s.control.initialized && ViewOf(s, k).pending ==> Attended(s.control, k)
  }

  predicate Untouched(s: State) {
    s.services.empty && s.endpoints.empty && s.drives == 0
  }

  /** When the gate is open, in either mode. */
  predicate GateIs(c: Control, sliceMode: bool) {
    && (c.first.None? <==> !c.servicesSynced && !c.endpointsSynced && !c.endpointSlicesSynced)
    && if sliceMode then
         && !c.endpointsSynced && c.first != Some(OnEndpointsSynced)
         && c.initialized == (c.servicesSynced && c.endpointSlicesSynced && c.first == Some(OnServiceSynced))
         && (c.first == Some(OnServiceSynced) ==> c.servicesSynced)
         && (c.first == Some(OnEndpointSlicesSynced) ==> c.endpointSlicesSynced)
       else
         !c.endpointSlicesSynced && c.initialized == (c.servicesSynced && c.endpointsSynced)
  }

  ghost predicate Gated(s: State) {
    GateIs(s.control, s.sliceMode) && (!s.control.initialized ==> Untouched(s))
  }

  /** At each stage of a run the maps account for every event that came before the run was started. */
  predicate RunOn(s: State, since: Since, stage: Stage) {
    && s.control.initialized
    && (!stage.Entered? ==> since.services <= s.services.seen)
    && (stage.EndpointsOut? || stage.EndpointsApplied? ==> since.endpoints <= s.endpoints.seen)
    && (s.endpoints.idle <==> !stage.EndpointsOut?)
  }

  predicate ThreadOk(s: State, t: nat) {
    var pc := PcOf(s.control, t);
    && (pc.WillRun? || pc.Running? ==>
          pc.since.services <= s.services.events && pc.since.endpoints <= s.endpoints.events)
    && (pc.Running? ==> RunOn(s, pc.since, pc.stage))
  }

  ghost predicate OneRunner(s: State) {
    && (forall t, u :: PcOf(s.control, t).Running? && PcOf(s.control, u).Running? ==> t == u)
    && (LockFree(s.control) ==> s.endpoints.idle)
  }

  ghost predicate Inv(s: State) {
    && Wakeful(s, ServiceTracker) && Wakeful(s, EndpointTracker)
    && Gated(s) && OneRunner(s)
    && (forall t :: ThreadOk(s, t))
  }

  // ---------- every step keeps them ----------

  lemma OthersStay(s: State, s': State, step: Step, changed: bool, u: nat)
    requires IsStep(s, s', step, changed) && u != step.t
    ensures PcOf(s'.control, u) == PcOf(s.control, u)
  {
  }

  lemma AttentionOfOthers(s: State, s': State, step: Step, changed: bool, k: Tracker, u: nat)
    requires IsStep(s, s', step, changed) && Attends(PcOf(s.control, u), k)
    requires u != step.t || Attends(PcOf(s'.control, step.t), k)
    ensures Attended(s'.control, k)
  {
    if u != step.t {
      OthersStay(s, s', step, changed, u);
    }
    assert Attends(PcOf(s'.control, u), k);
  }

  /** A thread stops attending to a tracker only by leaving a request behind, by checking the tracker out, or because
      the proxier is not initialised. */
  lemma LosesAttention(s: State, s': State, step: Step, changed: bool, k: Tracker)
    requires IsStep(s, s', step, changed) && s.control.initialized
    requires Attends(PcOf(s.control, step.t), k) && !Attends(PcOf(s'.control, step.t), k)
    ensures s'.control.request || !ViewOf(s', k).pending
  {
  }

  lemma GainsAttention(s: State, s': State, step: Step, changed: bool, k: Tracker)
    requires IsStep(s, s', step, changed) && s'.control.initialized && ViewOf(s', k).pending
    ensures (s.control.initialized && ViewOf(s, k).pending) || Attends(PcOf(s'.control, step.t), k)
  {
  }

  lemma WakefulKeeps(s: State, s': State, step: Step, changed: bool, k: Tracker)
    requires Wakeful(s, k) && IsStep(s, s', step, changed)
    ensures Wakeful(s', k)
  {
    if s'.control.initialized && ViewOf(s', k).pending && !Attends(PcOf(s'.control, step.t), k) {
      GainsAttention(s, s', step, changed, k);
      if !s.control.request {
        var u :| Attends(PcOf(s.control, u), k);
        if u == step.t {
          LosesAttention(s, s', step, changed, k);
        } else {
          AttentionOfOthers(s, s', step, changed, k, u);
        }
      }
    }
  }

  lemma GatedKeeps(s: State, s': State, step: Step, changed: bool)
    requires Gated(s) && ThreadOk(s, step.t) && IsStep(s, s', step, changed)
    ensures Gated(s')
  {
    if step.Synced? {
      match s.control.first
      case None =>
      case Some(OnServiceSynced) =>
      case Some(OnEndpointsSynced) =>
      case Some(OnEndpointSlicesSynced) =>
    }
  }

  lemma OneRunnerKeeps(s: State, s': State, step: Step, changed: bool)
    requires OneRunner(s) && ThreadOk(s, step.t) && IsStep(s, s', step, changed)
    ensures OneRunner(s')
  {
    forall u | u != step.t ensures PcOf(s'.control, u) == PcOf(s.control, u) {
      OthersStay(s, s', step, changed, u);
    }
    if LockFree(s'.control) {
      assert !PcOf(s'.control, step.t).Running?;
      if PcOf(s.control, step.t).Running? {
        assert step.Reconcile?;
      } else {
        assert LockFree(s.control);
      }
    }
  }

  lemma ThreadOkKeeps(s: State, s': State, step: Step, changed: bool, u: nat)
    requires OneRunner(s) && ThreadOk(s, step.t) && ThreadOk(s, u) && IsStep(s, s', step, changed)
    ensures ThreadOk(s', u)
  {
    if u != step.t {
      OthersStay(s, s', step, changed, u);
    }
  }

  lemma StepKeeps(s: State, s': State, step: Step, changed: bool)
    requires Inv(s) && IsStep(s, s', step, changed)
    ensures Inv(s')
  {
    WakefulKeeps(s, s', step, changed, ServiceTracker);
    WakefulKeeps(s, s', step, changed, EndpointTracker);
    assert ThreadOk(s, step.t);
    GatedKeeps(s, s', step, changed);
    OneRunnerKeeps(s, s', step, changed);
    forall u ensures ThreadOk(s', u) {
      assert ThreadOk(s, u);
      ThreadOkKeeps(s, s', step, changed, u);
    }
  }
}
