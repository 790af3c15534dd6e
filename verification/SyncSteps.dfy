/** What syncService and syncEndpoint may do to the store when calls fail, and what they do when none does. */
module SyncSteps {
  import opened Api
  import opened Names
  import opened Haproxy
  import opened GracefulTermination
  import opened Reconciliation
  import opened Convergence

  // ---------- the calls made for one service port ----------

  /** The calls that syncService and syncEndpoint make for a service port. */
  predicate Own(call: Call, info: HaproxyInfo) {
    match call
    case ReadBackend(n) => n == info.backend.name
    case WriteBackend(n) => n == info.backend.name
    case ReadFrontend(n) => n == info.frontend.name
    case WriteFrontend(n) => n == info.frontend.name
    case ReadBind(n) => n == info.bind.name
    case WriteBind(n) => n == info.bind.name
    case ReadServers(b) => b == info.backend.name
    case ReadServer(b) => b == info.backend.name
    case PutServer(b) => b == info.backend.name
    case DropServer(b) => b == info.backend.name
    case _ => false
  }

  /** The calls of cleanup. */
  predicate IsCleanup(call: Call) {
    call.DropBackend? || call.DropFrontend? || IsListing(call)
  }

  predicate IsListing(call: Call) {
    call.ListBackends? || call.ListFrontends?
  }

  ghost predicate OwnCalls(log0: seq<Call>, log: seq<Call>, info: HaproxyInfo) {
    log0 <= log && forall n | |log0| <= n < |log| :: Own(log[n], info)
  }

  ghost predicate WriteFailedAt(plan: nat -> Fate, call: Call, n: nat, info: HaproxyInfo) {
    IsWrite(call) && Own(call, info) && !plan(n).Served?
  }

  /** Since the lo-th call, a write of a frontend, backend or bind of this service port was not served. */
  ghost predicate WriteFailed(plan: nat -> Fate, log: seq<Call>, lo: nat, info: HaproxyInfo) {
    exists n | lo <= n < |log| :: WriteFailedAt(plan, log[n], n, info)
  }

  /** A write that fails is the last call for its service port. */
  ghost predicate StopsAtFailure(plan: nat -> Fate, log: seq<Call>, lo: nat, info: HaproxyInfo) {
    forall n, m | lo <= n < m < |log| && WriteFailedAt(plan, log[n], n, info) :: !Own(log[m], info)
  }

  lemma StopsLater(plan: nat -> Fate, log0: seq<Call>, log1: seq<Call>, log2: seq<Call>, info: HaproxyInfo)
    requires log0 <= log1 <= log2 && !WriteFailed(plan, log1, |log0|, info)
    requires StopsAtFailure(plan, log2, |log1|, info)
    ensures StopsAtFailure(plan, log2, |log0|, info)
  {
    assert forall n | |log0| <= n < |log1| :: log2[n] == log1[n] && !WriteFailedAt(plan, log1[n], n, info);
  }

  /** Since the lo-th call, everything that was asked for this service port was served. */
  ghost predicate OwnServed(plan: nat -> Fate, log: seq<Call>, lo: nat, info: HaproxyInfo) {
    forall n | lo <= n < |log| && Own(log[n], info) :: plan(n).Served?
  }

  /** One of the three steps of syncService: an entry is read, and written unless the read shows that it is settled. */
  function StepCalls(plan: nat -> Fate, n: nat, read: Call, write: Call, settled: bool): seq<Call> {
    if plan(n).Served? && settled then [read] else [read, write]
  }

  ghost predicate CallsAt(log: seq<Call>, lo: nat, calls: seq<Call>) {
    lo + |calls| <= |log| && log[lo..lo + |calls|] == calls
  }

  function BackendCalls(plan: nat -> Fate, n: nat, st: Store, info: HaproxyInfo): seq<Call> {
    StepCalls(plan, n, ReadBackend(info.backend.name), WriteBackend(info.backend.name),
              BackendSettled(st, info.backend))
  }

  function FrontendCalls(plan: nat -> Fate, n: nat, st: Store, info: HaproxyInfo): seq<Call> {
    StepCalls(plan, n, ReadFrontend(info.frontend.name), WriteFrontend(info.frontend.name),
              FrontendSettled(st, info.frontend))
  }

  /** From the lo-th call on come the calls for the backend, and unless its write fails those for the frontend. */
  ghost predicate StartsSync(plan: nat -> Fate, log: seq<Call>, lo: nat, st: Store, info: HaproxyInfo) {
    var calls := BackendCalls(plan, lo, st, info);
    && CallsAt(log, lo, calls)
    && (!(|calls| == 2 && !plan(lo + 1).Served?) ==>
          CallsAt(log, lo + |calls|, FrontendCalls(plan, lo + |calls|, st, info)))
  }

  lemma CallsStayAt(log: seq<Call>, log': seq<Call>, lo: nat, calls: seq<Call>)
    requires CallsAt(log, lo, calls) && log <= log'
    ensures CallsAt(log', lo, calls)
  {
    assert log'[lo..lo + |calls|] == log[lo..lo + |calls|];
  }

  lemma StartStays(plan: nat -> Fate, log: seq<Call>, log': seq<Call>, lo: nat, st: Store, info: HaproxyInfo)
    requires StartsSync(plan, log, lo, st, info) && log <= log'
    ensures StartsSync(plan, log', lo, st, info)
  {
    var calls := BackendCalls(plan, lo, st, info);
    CallsStayAt(log, log', lo, calls);
    if CallsAt(log, lo + |calls|, FrontendCalls(plan, lo + |calls|, st, info)) {
      CallsStayAt(log, log', lo + |calls|, FrontendCalls(plan, lo + |calls|, st, info));
    }
  }

  /** A step shows in the store through its write only. */
  lemma StepEffects(plan: nat -> Fate, log0: seq<Call>, log: seq<Call>, read: Call, write: Call, settled: bool)
    requires log == log0 + StepCalls(plan, |log0|, read, write, settled) && read != write
    ensures write in Effective(plan, log, |log0|) <==> |log| == |log0| + 2 && !plan(|log0| + 1).Refused?
    ensures Effective(plan, log, |log0|) <= {read, write}
  {
    assert log[|log0|] == read;
    if |log| == |log0| + 2 {
      assert log[|log0| + 1] == write;
    }
  }

  lemma EffectiveSplits(plan: nat -> Fate, log1: seq<Call>, log2: seq<Call>, lo: nat)
    requires lo <= |log1| && log1 <= log2
    ensures Effective(plan, log2, lo) == Effective(plan, log1, lo) + Effective(plan, log2, |log1|)
  {
    assert forall n | lo <= n < |log1| :: log2[n] == log1[n];
  }

  lemma StepFails(plan: nat -> Fate, log0: seq<Call>, log: seq<Call>, read: Call, write: Call, settled: bool,
                  info: HaproxyInfo)
    requires log == log0 + StepCalls(plan, |log0|, read, write, settled)
    requires Own(read, info) && Own(write, info) && !IsWrite(read) && IsWrite(write)
    ensures OwnCalls(log0, log, info) && StopsAtFailure(plan, log, |log0|, info)
    ensures WriteFailed(plan, log, |log0|, info) <==> |log| == |log0| + 2 && !plan(|log0| + 1).Served?
  {
    var n := |log0| + 1;
    if |log| == n + 1 {
      assert log[n] == write;
      assert WriteFailedAt(plan, log[n], n, info) <==> !plan(n).Served?;
    }
    assert log[|log0|] == read;
  }

  lemma CallsCombine(plan: nat -> Fate, log0: seq<Call>, log1: seq<Call>, log2: seq<Call>, info: HaproxyInfo)
    requires OwnCalls(log0, log1, info) && OwnCalls(log1, log2, info)
    ensures OwnCalls(log0, log2, info)
    ensures WriteFailed(plan, log2, |log0|, info) <==>
      WriteFailed(plan, log1, |log0|, info) || WriteFailed(plan, log2, |log1|, info)
  {
    if n :| |log0| <= n < |log1| && WriteFailedAt(plan, log1[n], n, info) {
      assert WriteFailedAt(plan, log2[n], n, info);
    }
    if n :| |log0| <= n < |log2| && WriteFailedAt(plan, log2[n], n, info) {
      assert n < |log1| ==> WriteFailedAt(plan, log1[n], n, info);
    }
  }

  lemma FailureShows(plan: nat -> Fate, log0: seq<Call>, log: seq<Call>, info: HaproxyInfo)
    requires OwnCalls(log0, log, info) && WriteFailed(plan, log, |log0|, info)
    ensures !AllServed(plan, |log0|, |log|)
  {
    var n :| |log0| <= n < |log| && WriteFailedAt(plan, log[n], n, info);
  }

  lemma ServerCallsAreOwn(plan: nat -> Fate, log0: seq<Call>, log: seq<Call>, info: HaproxyInfo)
    requires OnlyServerCalls(log0, log, info.backend.name)
    ensures OwnCalls(log0, log, info) && !WriteFailed(plan, log, |log0|, info)
    ensures StopsAtFailure(plan, log, |log0|, info)
    ensures forall call | call in Effective(plan, log, |log0|) :: !IsWrite(call)
  {
  }

  // ---------- what syncService may do, whatever fails ----------

  ghost predicate InfoNamed(info: HaproxyInfo) {
    info.backend.name != "" && info.frontend.name != "" && info.bind.name != ""
  }

  ghost predicate BackendTouched(bs: map<string, BackendEntry>, bs': map<string, BackendEntry>, b: Backend) {
    || bs' == bs
    || bs' == bs[b.name := BackendEntry(b, if b.name in bs then bs[b.name].servers else map[])]
  }

  ghost predicate FrontendTouched(fs: map<string, FrontendEntry>, fs': map<string, FrontendEntry>, f: Frontend) {
    || fs' == fs
    || fs' == fs[f.name := FrontendEntry(f, if f.name in fs then fs[f.name].binds else map[])]
  }

  ghost predicate BindTouched(st: Store, st': Store, frontend: string, bind: Bind) {
    st' == st || st' == PutBind(st, frontend, bind)
  }

  ghost predicate FrontendMixed(e: FrontendEntry, e': FrontendEntry, info: HaproxyInfo) {
    e'.conf in {e.conf, info.frontend} && e'.binds in {e.binds, e.binds[info.bind.name := info.bind]}
  }

  /** Only the two entries of this service port changed, nothing went, and all servers are as they were. */
  ghost predicate OnlyConfigured(st: Store, st': Store, info: HaproxyInfo) {
    && BackendTouched(st.backends, st'.backends, info.backend)
    && st'.frontends - {info.frontend.name} == st.frontends - {info.frontend.name}
    && (info.frontend.name in st.frontends ==> info.frontend.name in st'.frontends)
    && (info.frontend.name in st'.frontends ==>
          FrontendMixed(FrontendBefore(st, info), st'.frontends[info.frontend.name], info))
  }

  lemma PartsCombine(st: Store, st1: Store, st2: Store, st3: Store, info: HaproxyInfo)
    requires st1.frontends == st.frontends && BackendTouched(st.backends, st1.backends, info.backend)
    requires st2.backends == st1.backends && FrontendTouched(st1.frontends, st2.frontends, info.frontend)
    requires BindTouched(st2, st3, info.frontend.name, info.bind)
    ensures OnlyConfigured(st, st3, info)
  {
  }

  lemma BindCombines(st: Store, st1: Store, st2: Store, info: HaproxyInfo)
    requires OnlyConfigured(st, st1, info) && BindsOf(st1, info.frontend.name) == BindsOf(st, info.frontend.name)
    requires BindTouched(st1, st2, info.frontend.name, info.bind)
    ensures OnlyConfigured(st, st2, info)
    ensures st2.frontends.Keys == st1.frontends.Keys && st2.backends.Keys == st1.backends.Keys
  {
  }

  lemma TouchedNamed(st: Store, st': Store, info: HaproxyInfo)
    requires WellNamed(st) && InfoNamed(info)
    requires BackendTouched(st.backends, st'.backends, info.backend)
    requires
      || st'.frontends == st.frontends
      || (st'.backends == st.backends && FrontendTouched(st.frontends, st'.frontends, info.frontend))
    ensures WellNamed(st')
  {
  }

  // ---------- syncEndpoint ----------

  /** Nothing but the servers of one backend changed. */
  ghost predicate OnlyServers(st: Store, st': Store, backend: string) {
    st' == WithServers(st, backend, ServersOf(st', backend))
  }

  ghost predicate SubMap<K, V>(m: map<K, V>, m': map<K, V>) {
    forall k | k in m :: k in m' && m'[k] == m[k]
  }

  function NamesOf(servers: set<Server>): set<string> {
    set s | s in servers :: s.name
  }

  /** Wanted servers are added under names that are free; todo is what has not been looked at. */
  function Growing(now: Servers, wanted: Servers, todo: set<Server>): Servers {
    (map n | n in wanted && wanted[n] !in todo :: wanted[n]) + now
  }

  lemma GrowingStep(now: Servers, wanted: Servers, todo: set<Server>, s: Server)
    requires ServersNamed(wanted) && s in wanted.Values && s in todo
    ensures Growing(now, wanted, todo - {s})
         == if s.name in Growing(now, wanted, todo) then Growing(now, wanted, todo)
            else Growing(now, wanted, todo)[s.name := s]
    ensures s.name in Growing(now, wanted, todo) <==> s.name in now
  {
  }

  lemma GrowingEnds(now: Servers, wanted: Servers)
    ensures Growing(now, wanted, wanted.Values) == now
    ensures Growing(now, wanted, {}) == wanted + now
  {
  }

  lemma AddedGrows(now: Servers, wanted: Servers, before: Servers, s: Server)
    requires ServersNamed(wanted) && s in wanted.Values
    requires SubMap(now, before) && SubMap(before, wanted + now) && s.name !in before
    ensures SubMap(now, before[s.name := s]) && SubMap(before[s.name := s], wanted + now)
  {
  }

  lemma DropNone(st: Store, backend: string)
    ensures WithServers(st, backend, ServersOf(st, backend) - {}) == st
  {
    assert ServersOf(st, backend) - {} == ServersOf(st, backend);
  }

  lemma DropOneMore(st: Store, backend: string, names: set<string>, name: string)
    ensures Without(WithServers(st, backend, ServersOf(st, backend) - names), backend, name)
         == WithServers(st, backend, ServersOf(st, backend) - (names + {name}))
  {
    assert ServersOf(st, backend) - names - {name} == ServersOf(st, backend) - (names + {name});
  }

  lemma Dropped(current: Servers, wanted: Servers, n: string)
    requires ServersNamed(current) && ServersNamed(wanted) && n in current
    ensures n in NamesOf(current.Values - wanted.Values) <==> !(n in wanted && wanted[n] == current[n])
  {
    assert current[n].name == n && current[n] in current.Values;
  }

  lemma RoundInTwoSteps(current: Servers, wanted: Servers)
    requires ServersNamed(current) && ServersNamed(wanted)
    ensures (wanted + current) - NamesOf(current.Values - wanted.Values) == Round(current, wanted)
  {
    var dropped := NamesOf(current.Values - wanted.Values);
    forall n | n in current ensures n in dropped <==> !(n in wanted && wanted[n] == current[n]) {
      Dropped(current, wanted, n);
    }
    assert forall n | n in dropped :: n in current;
  }

  lemma SafeInTwoSteps(current: Servers, wanted: Servers, grown: Servers, after: Servers)
    requires ServersNamed(current) && ServersNamed(wanted)
    requires SubMap(current, grown) && SubMap(grown, wanted + current)
    requires SubMap(after, grown) && grown.Keys - after.Keys <= NamesOf(current.Values - wanted.Values)
    ensures SafeRound(current, wanted, after)
  {
    forall n | n in current && n in wanted && current[n] == wanted[n] ensures n in after && after[n] == wanted[n] {
      Dropped(current, wanted, n);
      assert n in grown;
    }
  }

  lemma FailingRoundIsSafe(st0: Store, st1: Store, st2: Store, backend: string, current: set<Server>, wanted: Servers)
    requires ServersNamed(ServersOf(st0, backend)) && ServersNamed(wanted) && current <= ServersOf(st0, backend).Values
    requires OnlyServers(st0, st1, backend) && OnlyServers(st1, st2, backend)
    requires SubMap(ServersOf(st2, backend), ServersOf(st1, backend))
    requires ServersOf(st1, backend).Keys - ServersOf(st2, backend).Keys <= NamesOf(current - wanted.Values)
    requires SubMap(ServersOf(st0, backend), ServersOf(st1, backend))
    requires SubMap(ServersOf(st1, backend), wanted + ServersOf(st0, backend))
    ensures SafeRound(ServersOf(st0, backend), wanted, ServersOf(st2, backend))
    ensures current == {} ==> SubMap(ServersOf(st0, backend), ServersOf(st2, backend))
  {
    var now := ServersOf(st0, backend);
    assert NamesOf(current - wanted.Values) <= NamesOf(now.Values - wanted.Values);
    SafeInTwoSteps(now, wanted, ServersOf(st1, backend), ServersOf(st2, backend));
    if current == {} {
      assert NamesOf(current - wanted.Values) == {};
      var grown, after := ServersOf(st1, backend), ServersOf(st2, backend);
      assert forall n | n in now :: n in after || n in grown.Keys - after.Keys;
    }
  }

  lemma RoundIsExact(st: Store, backend: string, wanted: Servers)
    requires ServersNamed(ServersOf(st, backend)) && ServersNamed(wanted)
    ensures var now := ServersOf(st, backend);
      var grown := WithServers(st, backend, wanted + now);
      WithServers(grown, backend, ServersOf(grown, backend) - NamesOf(now.Values - wanted.Values))
        == WithServers(st, backend, Round(now, wanted))
  {
    RoundInTwoSteps(ServersOf(st, backend), wanted);
  }

  // ---------- one service port ----------

  /** No other entries have changed, and nothing has gone. */
  ghost predicate OnlyEntries(st: Store, st': Store, info: HaproxyInfo) {
    && (forall f | f != info.frontend.name :: Lookup(st'.frontends, f) == Lookup(st.frontends, f))
    && (forall b | b != info.backend.name :: Lookup(st'.backends, b) == Lookup(st.backends, b))
    && (info.frontend.name in st.frontends ==> info.frontend.name in st'.frontends)
    && (info.backend.name in st.backends ==> info.backend.name in st'.backends)
  }

  /** The entries are those of a fault-free run. */
  ghost predicate ExactAt(st: Store, st': Store, w: Want) {
    && Lookup(st'.frontends, w.info.frontend.name) == Some(FrontendAfter(st, w.info))
    && Lookup(st'.backends, w.info.backend.name) == Some(BackendAfter(st, w))
  }

  /** Entries that are there have the wanted configuration or the one they had before. */
  ghost predicate ConfOutcome(st: Store, st': Store, info: HaproxyInfo) {
    var f, b := info.frontend.name, info.backend.name;
    && (b in st'.backends ==>
          st'.backends[b].conf == info.backend || (b in st.backends && st'.backends[b].conf == st.backends[b].conf))
    && (f in st'.frontends ==> FrontendMixed(FrontendBefore(st, info), st'.frontends[f], info))
  }

  function FrontendBefore(st: Store, info: HaproxyInfo): FrontendEntry {
    if info.frontend.name in st.frontends then st.frontends[info.frontend.name] else FrontendEntry(info.frontend, map[])
  }

  /** The frontend was there or has been made. */
  ghost predicate HasFrontend(plan: nat -> Fate, log: seq<Call>, lo: nat, st: Store, f: string) {
    f in st.frontends || WriteFrontend(f) in Effective(plan, log, lo)
  }

  ghost predicate HasBackend(plan: nat -> Fate, log: seq<Call>, lo: nat, st: Store, b: string) {
    b in st.backends || WriteBackend(b) in Effective(plan, log, lo)
  }

  /** Writes that were not refused show in the store, and nothing goes. */
  ghost predicate EntriesShow(plan: nat -> Fate, log: seq<Call>, lo: nat, st: Store, st': Store, info: HaproxyInfo) {
    var f, b := info.frontend.name, info.backend.name;
    && (f in st'.frontends <==> HasFrontend(plan, log, lo, st, f))
    && (b in st'.backends <==> HasBackend(plan, log, lo, st, b))
  }

  lemma BackendShows(plan: nat -> Fate, log0: seq<Call>, log: seq<Call>, st: Store, st': Store, info: HaproxyInfo)
    requires log == log0 + BackendCalls(plan, |log0|, st, info) && st'.frontends == st.frontends
    requires info.backend.name in st'.backends <==>
      info.backend.name in st.backends || (|log| == |log0| + 2 && !plan(|log0| + 1).Refused?)
    ensures EntriesShow(plan, log, |log0|, st, st', info)
    ensures CallsAt(log, |log0|, BackendCalls(plan, |log0|, st, info))
  {
    StepEffects(plan, log0, log, ReadBackend(info.backend.name), WriteBackend(info.backend.name),
                BackendSettled(st, info.backend));
  }

  lemma FrontendShows(plan: nat -> Fate, log0: seq<Call>, log1: seq<Call>, log2: seq<Call>, st: Store, st1: Store,
                      st2: Store, info: HaproxyInfo)
    requires log0 <= log1 && EntriesShow(plan, log1, |log0|, st, st1, info) && st1.frontends == st.frontends
    requires log2 == log1 + FrontendCalls(plan, |log1|, st, info) && st2.backends == st1.backends
    requires info.frontend.name in st2.frontends <==>
      info.frontend.name in st1.frontends || (|log2| == |log1| + 2 && !plan(|log1| + 1).Refused?)
    requires WriteFrontend(info.frontend.name) !in Effective(plan, log1, |log0|)
    ensures EntriesShow(plan, log2, |log0|, st, st2, info)
    ensures CallsAt(log2, |log1|, FrontendCalls(plan, |log1|, st, info))
  {
    StepEffects(plan, log1, log2, ReadFrontend(info.frontend.name), WriteFrontend(info.frontend.name),
                FrontendSettled(st, info.frontend));
    EffectiveSplits(plan, log1, log2, |log0|);
  }

  lemma EntriesStay(plan: nat -> Fate, log0: seq<Call>, log1: seq<Call>, log2: seq<Call>, st: Store, st1: Store,
                    st2: Store, info: HaproxyInfo)
    requires log0 <= log1 <= log2 && EntriesShow(plan, log1, |log0|, st, st1, info)
    requires st2.frontends.Keys == st1.frontends.Keys && st2.backends.Keys == st1.backends.Keys
    requires forall call | call in Effective(plan, log2, |log1|) :: !call.WriteFrontend? && !call.WriteBackend?
    ensures EntriesShow(plan, log2, |log0|, st, st2, info)
  {
    EffectiveSplits(plan, log1, log2, |log0|);
  }

  /** What becomes of one service port, whatever happens to its own calls or to those of others. */
  ghost predicate PortOutcome(plan: nat -> Fate, log: seq<Call>, lo: nat, st: Store, st': Store, w: Want) {
    var f, b := w.info.frontend.name, w.info.backend.name;
    && EntriesShow(plan, log, lo, st, st', w.info) && StopsAtFailure(plan, log, lo, w.info)
    && (!WriteFailed(plan, log, lo, w.info) ==> f in st'.frontends && b in st'.backends)
    && (OwnServed(plan, log, lo, w.info) ==> ExactAt(st, st', w))
    && ConfOutcome(st, st', w.info)
    && SafeRound(ServersOf(st, b), w.servers, ServersOf(st', b))
  }

  lemma BackendStep(plan: nat -> Fate, log0: seq<Call>, log: seq<Call>, st: Store, st': Store, info: HaproxyInfo)
    requires WellNamed(st) && InfoNamed(info)
    requires log == log0 + BackendCalls(plan, |log0|, st, info) && st'.frontends == st.frontends
    requires BackendTouched(st.backends, st'.backends, info.backend)
    requires info.backend.name in st'.backends <==>
      info.backend.name in st.backends || (|log| == |log0| + 2 && !plan(|log0| + 1).Refused?)
    ensures WellNamed(st') && OnlyConfigured(st, st', info)
    ensures OwnCalls(log0, log, info) && CallsAt(log, |log0|, BackendCalls(plan, |log0|, st, info))
    ensures EntriesShow(plan, log, |log0|, st, st', info)
    ensures WriteFrontend(info.frontend.name) !in Effective(plan, log, |log0|)
    ensures StopsAtFailure(plan, log, |log0|, info)
    ensures WriteFailed(plan, log, |log0|, info) <==> |log| == |log0| + 2 && !plan(|log0| + 1).Served?
  {
    var read, write := ReadBackend(info.backend.name), WriteBackend(info.backend.name);
    StepFails(plan, log0, log, read, write, BackendSettled(st, info.backend), info);
    StepEffects(plan, log0, log, read, write, BackendSettled(st, info.backend));
    BackendShows(plan, log0, log, st, st', info);
    TouchedNamed(st, st', info);
    PartsCombine(st, st', st', st', info);
  }

  lemma FrontendStep(plan: nat -> Fate, log0: seq<Call>, log1: seq<Call>, log2: seq<Call>, st: Store, st1: Store,
                     st2: Store, info: HaproxyInfo)
    requires InfoNamed(info) && WellNamed(st1) && OwnCalls(log0, log1, info) && !WriteFailed(plan, log1, |log0|, info)
    requires log1 == log0 + BackendCalls(plan, |log0|, st, info)
    requires EntriesShow(plan, log1, |log0|, st, st1, info) && st1.frontends == st.frontends
    requires BackendTouched(st.backends, st1.backends, info.backend)
    requires WriteFrontend(info.frontend.name) !in Effective(plan, log1, |log0|)
    requires log2 == log1 + FrontendCalls(plan, |log1|, st1, info) && st2.backends == st1.backends
    requires FrontendTouched(st1.frontends, st2.frontends, info.frontend)
    requires info.frontend.name in st2.frontends <==>
      info.frontend.name in st1.frontends || (|log2| == |log1| + 2 && !plan(|log1| + 1).Refused?)
    ensures WellNamed(st2) && OnlyConfigured(st, st2, info)
    ensures OwnCalls(log0, log2, info) && StartsSync(plan, log2, |log0|, st, info)
    ensures EntriesShow(plan, log2, |log0|, st, st2, info) && StopsAtFailure(plan, log2, |log0|, info)
    ensures WriteFailed(plan, log2, |log0|, info) <==> |log2| == |log1| + 2 && !plan(|log1| + 1).Served?
  {
    FrontendStepCalls(plan, log0, log1, log2, st, st1, info);
    FrontendShows(plan, log0, log1, log2, st, st1, st2, info);
    TouchedNamed(st1, st2, info);
    PartsCombine(st, st1, st2, st2, info);
  }

  lemma FrontendStepCalls(plan: nat -> Fate, log0: seq<Call>, log1: seq<Call>, log2: seq<Call>, st: Store, st1: Store,
                          info: HaproxyInfo)
    requires OwnCalls(log0, log1, info) && !WriteFailed(plan, log1, |log0|, info) && st1.frontends == st.frontends
    requires log1 == log0 + BackendCalls(plan, |log0|, st, info)
    requires log2 == log1 + FrontendCalls(plan, |log1|, st1, info)
    ensures OwnCalls(log0, log2, info) && StartsSync(plan, log2, |log0|, st, info)
    ensures StopsAtFailure(plan, log2, |log0|, info)
    ensures WriteFailed(plan, log2, |log0|, info) <==> |log2| == |log1| + 2 && !plan(|log1| + 1).Served?
  {
    var read, write := ReadFrontend(info.frontend.name), WriteFrontend(info.frontend.name);
    StepFails(plan, log1, log2, read, write, FrontendSettled(st1, info.frontend), info);
    CallsCombine(plan, log0, log1, log2, info);
    StopsLater(plan, log0, log1, log2, info);
    assert CallsAt(log1, |log0|, BackendCalls(plan, |log0|, st, info));
    CallsStayAt(log1, log2, |log0|, BackendCalls(plan, |log0|, st, info));
    assert CallsAt(log2, |log1|, FrontendCalls(plan, |log1|, st, info));
  }

  lemma BindStep(plan: nat -> Fate, log0: seq<Call>, log1: seq<Call>, log2: seq<Call>, st: Store, st1: Store,
                 st2: Store, info: HaproxyInfo)
    requires OwnCalls(log0, log1, info) && OnlyConfigured(st, st1, info) && !WriteFailed(plan, log1, |log0|, info)
    requires BindsOf(st1, info.frontend.name) == BindsOf(st, info.frontend.name)
    requires EntriesShow(plan, log1, |log0|, st, st1, info) && StartsSync(plan, log1, |log0|, st, info)
    requires log2 == log1 + StepCalls(plan, |log1|, ReadBind(info.bind.name), WriteBind(info.bind.name),
                                      BindSettled(st1, info.frontend.name, info.bind))
    requires BindTouched(st1, st2, info.frontend.name, info.bind)
    ensures OnlyConfigured(st, st2, info)
    ensures OwnCalls(log0, log2, info) && StartsSync(plan, log2, |log0|, st, info)
    ensures EntriesShow(plan, log2, |log0|, st, st2, info) && StopsAtFailure(plan, log2, |log0|, info)
    ensures WriteFailed(plan, log2, |log0|, info) <==> |log2| == |log1| + 2 && !plan(|log1| + 1).Served?
  {
    var read, write, settled :=
      ReadBind(info.bind.name), WriteBind(info.bind.name), BindSettled(st1, info.frontend.name, info.bind);
    StepFails(plan, log1, log2, read, write, settled, info);
    StepEffects(plan, log1, log2, read, write, settled);
    CallsCombine(plan, log0, log1, log2, info);
    StopsLater(plan, log0, log1, log2, info);
    StartStays(plan, log1, log2, |log0|, st, info);
    BindCombines(st, st1, st2, info);
    EntriesStay(plan, log0, log1, log2, st, st1, st2, info);
  }

  lemma ConfiguredTidy(st: Store, st': Store, key: string, info: HaproxyInfo)
    requires Tidy(st) && NamedFor(key, info) && OnlyConfigured(st, st', info)
    ensures Tidy(st')
  {
    var f := FrontendName(key);
    assert f[0] == 'F' && BackendName(key)[0] == BindName(key)[0] == 'B';
    forall g | g in st'.frontends ensures FrontendTidy(g, st'.frontends[g]) {
      if g == f {
        assert f in st.frontends ==> FrontendTidy(f, st.frontends[f]);
        assert FrontendMixed(FrontendBefore(st, info), st'.frontends[f], info);
      } else {
        assert g in st'.frontends - {f};
        assert g in st.frontends - {f} && st.frontends[g] == st'.frontends[g];
      }
    }
    forall b | b in st'.backends ensures BackendNamed(b, st'.backends[b]) {
      assert b in st.backends ==> BackendNamed(b, st.backends[b]);
    }
  }

  lemma ServersTidy(st: Store, st': Store, backend: string)
    requires Tidy(st) && OnlyServers(st, st', backend) && ServersNamed(ServersOf(st', backend))
    ensures Tidy(st')
  {
  }

  lemma ServiceThenServers(st: Store, st1: Store, st2: Store, w: Want)
    requires OnlyConfigured(st, st1, w.info) && OnlyServers(st1, st2, w.info.backend.name)
    ensures OnlyEntries(st, st2, w.info) && ConfOutcome(st, st2, w.info)
    ensures st2.frontends.Keys == st1.frontends.Keys && st2.backends.Keys == st1.backends.Keys
    ensures ServersOf(st1, w.info.backend.name) == ServersOf(st, w.info.backend.name)
  {
    forall g | g != w.info.frontend.name ensures Lookup(st1.frontends, g) == Lookup(st.frontends, g) {
      assert g in st.frontends <==> g in st.frontends - {w.info.frontend.name};
      assert g in st1.frontends <==> g in st1.frontends - {w.info.frontend.name};
    }
  }

  lemma DrivenIsExact(st: Store, w: Want)
    ensures ExactAt(st, Driven(st, w), w)
  {
    DrivenEntries(st, w);
  }

  lemma SafeNamed(current: Servers, wanted: Servers, after: Servers)
    requires ServersNamed(current) && ServersNamed(wanted) && SafeRound(current, wanted, after)
    ensures ServersNamed(after)
  {
  }

  /** A service port whose syncService fails keeps its servers as they were. */
  lemma FailedPort(plan: nat -> Fate, log0: seq<Call>, log: seq<Call>, st: Store, st': Store, w: Want)
    requires OwnCalls(log0, log, w.info) && WriteFailed(plan, log, |log0|, w.info)
    requires EntriesShow(plan, log, |log0|, st, st', w.info) && StopsAtFailure(plan, log, |log0|, w.info)
    requires ConfOutcome(st, st', w.info) && ServersOf(st', w.info.backend.name) == ServersOf(st, w.info.backend.name)
    ensures PortOutcome(plan, log, |log0|, st, st', w)
    ensures !AllServed(plan, |log0|, |log|)
  {
    FailureShows(plan, log0, log, w.info);
    var n :| |log0| <= n < |log| && WriteFailedAt(plan, log[n], n, w.info);
    assert Own(log[n], w.info);
  }

  lemma OwnWindow(plan: nat -> Fate, log0: seq<Call>, log: seq<Call>, info: HaproxyInfo)
    requires OwnCalls(log0, log, info)
    ensures OwnServed(plan, log, |log0|, info) <==> AllServed(plan, |log0|, |log|)
  {
  }
}
