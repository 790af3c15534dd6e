/** What the loop of syncProxyRules and its cleanup do to the store, for every pattern of failing calls: service ports
    do not affect each other, and cleanup deletes what is listed and not active. */
module SyncOutcome {
  import opened Api
  import opened Names
  import opened Haproxy
  import opened Reconciliation
  import opened Convergence
  import opened SyncSteps
  import opened Endpoints
  import opened PortMaps
  import Services

  // ---------- cleanup ----------

  function DeadFrontends(active: set<string>, current: map<string, Service>): set<string> {
    set cs | cs in current && cs !in active :: current[cs].frontend.name
  }

  function DeadBackends(active: set<string>, current: map<string, Service>): set<string> {
    set cs | cs in current && cs !in active :: current[cs].backend.name
  }

  ghost predicate FromList(st: Store, current: map<string, Service>) {
    forall cs | cs in current :: current[cs].name == cs && current[cs] in ListedServices(st)
  }

  ghost predicate AllListed(st: Store, current: map<string, Service>) {
    forall svc | svc in ListedServices(st) :: svc.name in current
  }

  /** The store after the deletions that had their effect. */
  function Undropped(st: Store, effective: set<Call>): Store {
    Store(map f | f in st.frontends && DropFrontend(f) !in effective :: st.frontends[f],
          map b | b in st.backends && DropBackend(b) !in effective :: st.backends[b])
  }

  lemma DropNothing(st: Store, effective: set<Call>)
    requires forall call | call in effective :: IsListing(call)
    ensures Undropped(st, effective) == st
  {
    assert Undropped(st, effective).frontends == st.frontends && Undropped(st, effective).backends == st.backends;
  }

  lemma DropMore(st: Store, e: set<Call>, e': set<Call>)
    ensures Undropped(Undropped(st, e), e') == Undropped(st, e + e')
  {
    assert Undropped(Undropped(st, e), e').frontends == Undropped(st, e + e').frontends;
    assert Undropped(Undropped(st, e), e').backends == Undropped(st, e + e').backends;
  }

  function Drops(fs: set<string>, bs: set<string>): set<Call> {
    (set f | f in fs :: DropFrontend(f)) + (set b | b in bs :: DropBackend(b))
  }

  function Unless(plan: nat -> Fate, n: nat, call: Call): set<Call> {
    if plan(n).Refused? then {} else {call}
  }

  lemma DropTwo(plan: nat -> Fate, n: nat, f: string, b: string, st: Store, st': Store)
    requires st'.frontends == if plan(n).Refused? then st.frontends else st.frontends - {f}
    requires st'.backends == if plan(n + 1).Refused? then st.backends else st.backends - {b}
    ensures st' == Undropped(st, Unless(plan, n, DropFrontend(f)) + Unless(plan, n + 1, DropBackend(b)))
  {
    var r := Undropped(st, Unless(plan, n, DropFrontend(f)) + Unless(plan, n + 1, DropBackend(b)));
    assert st'.frontends == r.frontends;
    assert st'.backends == r.backends;
  }

  /** A service is deleted by two calls, whose effects show in the store. */
  lemma DropService(plan: nat -> Fate, log0: seq<Call>, log: seq<Call>, f: string, b: string, lo: nat)
    requires lo <= |log0| && log == log0 + [DropFrontend(f), DropBackend(b)]
    ensures Made(log, lo) == Made(log0, lo) + {DropFrontend(f), DropBackend(b)}
    ensures Effective(plan, log, lo)
         == Effective(plan, log0, lo)
            + (Unless(plan, |log0|, DropFrontend(f)) + Unless(plan, |log0| + 1, DropBackend(b)))
  {
    MadeSnoc(plan, log0, lo, DropFrontend(f));
    MadeSnoc(plan, log0 + [DropFrontend(f)], lo, DropBackend(b));
    assert log == log0 + [DropFrontend(f)] + [DropBackend(b)];
  }

  lemma DropsStep(fs: set<string>, bs: set<string>, f: string, b: string)
    ensures Drops(fs + {f}, bs + {b}) == Drops(fs, bs) + {DropFrontend(f), DropBackend(b)}
  {
  }

  lemma DeadStep(active: set<string>, current: map<string, Service>, todo: set<string>, cs: string)
    requires todo <= current.Keys && cs in todo
    ensures DeadFrontends(active, current - (todo - {cs}))
         == DeadFrontends(active, current - todo) + if cs in active then {} else {current[cs].frontend.name}
    ensures DeadBackends(active, current - (todo - {cs}))
         == DeadBackends(active, current - todo) + if cs in active then {} else {current[cs].backend.name}
  {
    var before, after := current - todo, current - (todo - {cs});
    assert after == before[cs := current[cs]] && cs !in before;
  }

  lemma ListedFrom(st: Store, svc: Service) returns (f: string)
    requires svc in ListedServices(st)
    ensures f in st.frontends && st.frontends[f].conf.name != STATS && svc == ServiceOf(st, f) && st.backends != map[]
  {
    f :| f in st.frontends && st.frontends[f].conf.name != STATS && svc == ServiceOf(st, f);
  }

  /** A listed service is that of the frontend its name decodes from. */
  lemma ListedDecodes(st: Store, svc: Service)
    requires Tidy(st) && svc in ListedServices(st)
    ensures var f := FrontendName(svc.name);
      && f in st.frontends && f != STATS && svc == ServiceOf(st, f) && Trim(f) == svc.name && svc.frontend.name == f
      && (svc.backend.name == BackendName(svc.name)
          || (svc.backend.name == "" && BackendName(svc.name) !in st.backends))
  {
    var f := ListedFrom(st, svc);
    assert FrontendTidy(f, st.frontends[f]);
    var b := st.frontends[f].conf.defaultBackend;
    assert b in st.backends ==> BackendNamed(b, st.backends[b]);
  }

  lemma ListsFrontend(st: Store, f: string)
    requires Tidy(st) && f in st.frontends && f != STATS && st.backends != map[]
    ensures ServiceOf(st, f) in ListedServices(st) && ServiceOf(st, f).name == Trim(f)
  {
    assert FrontendTidy(f, st.frontends[f]);
  }

  /** Cleanup never hits what belongs to an active key. */
  lemma DeadIsInactive(st: Store, active: set<string>, current: map<string, Service>)
    requires Tidy(st) && FromList(st, current)
    ensures forall key | key in active ::
      FrontendName(key) !in DeadFrontends(active, current) && BackendName(key) !in DeadBackends(active, current)
  {
    forall cs | cs in current && cs !in active
      ensures current[cs].frontend.name == FrontendName(cs) && current[cs].backend.name in {BackendName(cs), ""}
    {
      ListedDecodes(st, current[cs]);
    }
    forall key | key in active
      ensures FrontendName(key) !in DeadFrontends(active, current) && BackendName(key) !in DeadBackends(active, current)
    {
      forall cs | cs in current && cs !in active
        ensures current[cs].frontend.name != FrontendName(key) && current[cs].backend.name != BackendName(key)
      {
        PrefixedInjective(FRONTEND_PREFIX, cs, key);
        PrefixedInjective(BACKEND_PREFIX, cs, key);
      }
    }
  }

  lemma DeadFrontendsExact(st: Store, active: set<string>, current: map<string, Service>)
    requires Tidy(st) && FromList(st, current) && AllListed(st, current)
    ensures DeadFrontends(active, current) == Legacy(st, active)
  {
    forall f | f in DeadFrontends(active, current) ensures f in Legacy(st, active) {
      var cs :| cs in current && cs !in active && current[cs].frontend.name == f;
      ListedDecodes(st, current[cs]);
      assert st.backends != map[] by {
        var _ := ListedFrom(st, current[cs]);
      }
    }
    forall f | f in Legacy(st, active) ensures f in DeadFrontends(active, current) {
      ListsFrontend(st, f);
      assert Trim(f) in current;
      ListedDecodes(st, current[Trim(f)]);
      assert FrontendTidy(f, st.frontends[f]);
    }
  }

  lemma DeadBackendsExact(st: Store, active: set<string>, current: map<string, Service>)
    requires Tidy(st) && FromList(st, current) && AllListed(st, current)
    ensures st.backends - DeadBackends(active, current) == st.backends - DefaultBackends(st, Legacy(st, active))
  {
    forall b | b in st.backends
      ensures b in DeadBackends(active, current) <==> b in DefaultBackends(st, Legacy(st, active))
    {
      assert BackendNamed(b, st.backends[b]);
      if b in DeadBackends(active, current) {
        var cs :| cs in current && cs !in active && current[cs].backend.name == b;
        ListedDecodes(st, current[cs]);
        var f := FrontendName(cs);
        assert FrontendTidy(f, st.frontends[f]) && f in Legacy(st, active);
      }
      if b in DefaultBackends(st, Legacy(st, active)) {
        var f :| f in Legacy(st, active) && f in st.frontends && st.frontends[f].conf.defaultBackend == b;
        ListsFrontend(st, f);
        assert Trim(f) in current;
        ListedDecodes(st, current[Trim(f)]);
        assert FrontendTidy(f, st.frontends[f]);
      }
    }
  }

  /** Whatever cleanup deletes through the decoded service list: the frontends with inactive keys and their backends. */
  lemma CleanupIsExact(st: Store, active: set<string>, current: map<string, Service>)
    requires Tidy(st) && FromList(st, current) && AllListed(st, current)
    ensures Undropped(st, Drops(DeadFrontends(active, current), DeadBackends(active, current))) == Cleaned(st, active)
  {
    var effective := Drops(DeadFrontends(active, current), DeadBackends(active, current));
    DeadFrontendsExact(st, active, current);
    DeadBackendsExact(st, active, current);
    assert Undropped(st, effective).frontends == st.frontends - DeadFrontends(active, current);
    assert Undropped(st, effective).backends == st.backends - DeadBackends(active, current);
  }

  /** What cleanup asks for, and what comes of it. */
  ghost predicate CleanupDone(plan: nat -> Fate, log0: seq<Call>, log: seq<Call>, st: Store, st': Store,
                              active: set<string>) {
    && ListsFirst(log0, log) && DropsLegacy(plan, log, |log0|, st, active)
    && st' == Undropped(st, Effective(plan, log, |log0|))
  }

  ghost predicate ListsFirst(log0: seq<Call>, log: seq<Call>) {
    var lo := |log0|;
    && log0 <= log && lo + 2 <= |log| && log[lo] == ListBackends && log[lo + 1] == ListFrontends
    && (forall n | lo <= n < |log| :: IsCleanup(log[n])) && (forall n | lo + 2 <= n < |log| :: !IsListing(log[n]))
  }

  /** The deletions asked for after the lo-th call are those of the legacy frontends and of their backends. */
  ghost predicate DropsLegacy(plan: nat -> Fate, log: seq<Call>, lo: nat, st: Store, active: set<string>) {
    && (forall f :: DropFrontend(f) in Made(log, lo) <==> AllServed(plan, lo, lo + 2) && f in Legacy(st, active))
    && (forall b | b in st.backends ::
          DropBackend(b) in Made(log, lo) <==>
            AllServed(plan, lo, lo + 2) && b in DefaultBackends(st, Legacy(st, active)))
  }

  lemma MadeBesideListing(log: seq<Call>, lo: nat)
    requires lo + 2 <= |log| && IsListing(log[lo]) && IsListing(log[lo + 1])
    ensures forall call | !IsListing(call) :: call in Made(log, lo) <==> call in Made(log, lo + 2)
  {
    forall call | !IsListing(call) ensures call in Made(log, lo) <==> call in Made(log, lo + 2) {
      if call in Made(log, lo) {
        var n :| lo <= n < |log| && log[n] == call;
        assert lo + 2 <= n;
      }
    }
  }

  lemma OnlyDrops(log: seq<Call>, lo: nat, fs: set<string>, bs: set<string>)
    requires Made(log, lo) == Drops(fs, bs)
    ensures forall n | lo <= n < |log| :: IsCleanup(log[n]) && !IsListing(log[n])
  {
    forall n | lo <= n < |log| ensures IsCleanup(log[n]) && !IsListing(log[n]) {
      assert log[n] in Made(log, lo);
    }
  }

  lemma DropsAsked(st: Store, active: set<string>, current: map<string, Service>, served: bool)
    requires Tidy(st) && FromList(st, current) && if served then AllListed(st, current) else current == map[]
    ensures DeadFrontends(active, current) == if served then Legacy(st, active) else {}
    ensures forall b | b in st.backends ::
      b in DeadBackends(active, current) <==> served && b in DefaultBackends(st, Legacy(st, active))
  {
    if served {
      DeadFrontendsExact(st, active, current);
      DeadBackendsExact(st, active, current);
      forall b | b in st.backends
        ensures b in DeadBackends(active, current) <==> b in DefaultBackends(st, Legacy(st, active))
      {
        assert b in st.backends - DeadBackends(active, current) <==>
          b in st.backends - DefaultBackends(st, Legacy(st, active));
      }
    }
  }

  lemma CleanupCombines(plan: nat -> Fate, log0: seq<Call>, log: seq<Call>, st: Store, st': Store, active: set<string>,
                        current: map<string, Service>)
    requires Tidy(st) && FromList(st, current)
    requires if AllServed(plan, |log0|, |log0| + 2) then AllListed(st, current) else current == map[]
    requires log0 + [ListBackends, ListFrontends] <= log
    requires Made(log, |log0| + 2) == Drops(DeadFrontends(active, current), DeadBackends(active, current))
    requires st' == Undropped(st, Effective(plan, log, |log0| + 2))
    ensures CleanupDone(plan, log0, log, st, st', active)
  {
    ListingCombines(log0, log, DeadFrontends(active, current), DeadBackends(active, current));
    EffectiveBesideListing(plan, log, |log0|, st);
    DropsCombine(plan, log, |log0|, st, active, current);
  }

  lemma ListingCombines(log0: seq<Call>, log: seq<Call>, fs: set<string>, bs: set<string>)
    requires log0 + [ListBackends, ListFrontends] <= log && Made(log, |log0| + 2) == Drops(fs, bs)
    ensures ListsFirst(log0, log)
  {
    var lo, listed := |log0|, log0 + [ListBackends, ListFrontends];
    assert log[lo] == listed[lo] && log[lo + 1] == listed[lo + 1];
    OnlyDrops(log, lo + 2, fs, bs);
  }

  lemma DropsCombine(plan: nat -> Fate, log: seq<Call>, lo: nat, st: Store, active: set<string>,
                     current: map<string, Service>)
    requires Tidy(st) && FromList(st, current)
    requires if AllServed(plan, lo, lo + 2) then AllListed(st, current) else current == map[]
    requires lo + 2 <= |log| && IsListing(log[lo]) && IsListing(log[lo + 1])
    requires Made(log, lo + 2) == Drops(DeadFrontends(active, current), DeadBackends(active, current))
    ensures DropsLegacy(plan, log, lo, st, active)
  {
    MadeBesideListing(log, lo);
    DropsAsked(st, active, current, AllServed(plan, lo, lo + 2));
  }

  lemma EffectiveBesideListing(plan: nat -> Fate, log: seq<Call>, lo: nat, st: Store)
    requires lo + 2 <= |log| && IsListing(log[lo]) && IsListing(log[lo + 1])
    ensures Undropped(st, Effective(plan, log, lo)) == Undropped(st, Effective(plan, log, lo + 2))
  {
    var e, e' := Effective(plan, log, lo), Effective(plan, log, lo + 2);
    forall call | !IsListing(call) ensures call in e <==> call in e' {
      if call in e {
        var n :| lo <= n < |log| && !plan(n).Refused? && log[n] == call;
        assert lo + 2 <= n;
      }
    }
    assert Undropped(st, e).frontends == Undropped(st, e').frontends;
    assert Undropped(st, e).backends == Undropped(st, e').backends;
  }

  lemma ServedCleanup(plan: nat -> Fate, log0: seq<Call>, log: seq<Call>, st: Store, st': Store, active: set<string>)
    requires CleanupDone(plan, log0, log, st, st', active) && AllServed(plan, |log0|, |log|)
    ensures st' == Cleaned(st, active)
  {
    var lo := |log0|;
    assert Effective(plan, log, lo) == Made(log, lo);
    assert st'.frontends == Cleaned(st, active).frontends && st'.backends == Cleaned(st, active).backends;
  }

  lemma UndroppedTidy(st: Store, effective: set<Call>)
    requires Tidy(st)
    ensures Tidy(Undropped(st, effective))
  {
  }

  // ---------- the loop over the service map ----------

  /** Keys still to come have seen no call and no change; of the others, active are those whose writes were all
      served. */
  ghost predicate KeyProgress(plan: nat -> Fate, lo: nat, log: seq<Call>, st0: Store, st: Store, active: set<string>,
                              left: set<string>, key: string, w: Want) {
    if key in left then
      && key !in active
      && Lookup(st.frontends, w.info.frontend.name) == Lookup(st0.frontends, w.info.frontend.name)
      && Lookup(st.backends, w.info.backend.name) == Lookup(st0.backends, w.info.backend.name)
      && forall n | lo <= n < |log| :: !Own(log[n], w.info)
    else
      (key in active <==> !WriteFailed(plan, log, lo, w.info)) && PortOutcome(plan, log, lo, st0, st, w)
  }

  /** What nobody wants is as it was. */
  ghost predicate Foreign(st0: Store, st: Store, w: Wants) {
    && (forall f | f !in WantedFrontends(w) :: Lookup(st.frontends, f) == Lookup(st0.frontends, f))
    && (forall b | b !in WantedBackends(w) :: Lookup(st.backends, b) == Lookup(st0.backends, b))
  }

  ghost predicate AllProgress(plan: nat -> Fate, lo: nat, log: seq<Call>, st0: Store, st: Store, active: set<string>,
                              left: set<string>, w: Wants) {
    forall key | key in w :: KeyProgress(plan, lo, log, st0, st, active, left, key, w[key])
  }

  ghost predicate NoCleanup(log: seq<Call>, lo: nat) {
    forall n | lo <= n < |log| :: !IsCleanup(log[n])
  }

  /** Backends are only written under wanted names. */
  ghost predicate WritesWanted(log: seq<Call>, lo: nat, w: Wants) {
    forall n | lo <= n < |log| && log[n].WriteBackend? :: log[n].name in WantedBackends(w)
  }

  /** Unless no key has been looked at, the calls begin with those for one of them. */
  ghost predicate Begun(plan: nat -> Fate, lo: nat, log: seq<Call>, st0: Store, left: set<string>, w: Wants) {
    if left == w.Keys then |log| == lo else exists key | key in w :: StartsSync(plan, log, lo, st0, w[key].info)
  }

  ghost predicate Progress(plan: nat -> Fate, lo: nat, log: seq<Call>, st0: Store, st: Store, active: set<string>,
                           left: set<string>, w: Wants) {
    && lo <= |log| && active <= w.Keys
    && Foreign(st0, st, w) && NoCleanup(log, lo) && WritesWanted(log, lo, w) && Begun(plan, lo, log, st0, left, w)
    && AllProgress(plan, lo, log, st0, st, active, left, w)
  }

  lemma OwnDisjoint(w: Wants, k: string, key: string)
    requires Proper(w) && k in w && key in w && k != key
    ensures w[k].info.frontend.name != w[key].info.frontend.name && w[k].info.backend.name != w[key].info.backend.name
    ensures forall call :: !(Own(call, w[k].info) && Own(call, w[key].info))
  {
    assert ProperAt(k, w[k]) && ProperAt(key, w[key]);
    PrefixedInjective(FRONTEND_PREFIX, k, key);
    PrefixedInjective(BACKEND_PREFIX, k, key);
    PrefixedInjective(BIND_PREFIX, k, key);
  }

  /** The calls for one service port do not count as failures of another one. */
  lemma OthersCalls(plan: nat -> Fate, lo: nat, log: seq<Call>, log': seq<Call>, info: HaproxyInfo)
    requires lo <= |log| && log <= log' && forall n | |log| <= n < |log'| :: !Own(log'[n], info)
    ensures WriteFailed(plan, log', lo, info) <==> WriteFailed(plan, log, lo, info)
    ensures OwnServed(plan, log', lo, info) <==> OwnServed(plan, log, lo, info)
    ensures forall call | Own(call, info) :: call in Effective(plan, log', lo) <==> call in Effective(plan, log, lo)
    ensures StopsAtFailure(plan, log, lo, info) ==> StopsAtFailure(plan, log', lo, info)
  {
    EffectiveSplits(plan, log, log', lo);
    if n :| lo <= n < |log| && WriteFailedAt(plan, log[n], n, info) {
      assert WriteFailedAt(plan, log'[n], n, info);
    }
    if n :| lo <= n < |log'| && WriteFailedAt(plan, log'[n], n, info) {
      assert WriteFailedAt(plan, log[n], n, info);
    }
    assert forall n | lo <= n < |log| :: log'[n] == log[n];
    if OwnServed(plan, log', lo, info) {
      forall n | lo <= n < |log| && Own(log[n], info) ensures plan(n).Served? {
        assert Own(log'[n], info);
      }
    }
  }

  lemma OutcomeBeside(plan: nat -> Fate, lo: nat, log: seq<Call>, log': seq<Call>, st0: Store, st: Store, st': Store,
                      w: Want)
    requires lo <= |log| && log <= log' && forall n | |log| <= n < |log'| :: !Own(log'[n], w.info)
    requires PortOutcome(plan, log, lo, st0, st, w)
    requires Lookup(st'.frontends, w.info.frontend.name) == Lookup(st.frontends, w.info.frontend.name)
    requires Lookup(st'.backends, w.info.backend.name) == Lookup(st.backends, w.info.backend.name)
    ensures PortOutcome(plan, log', lo, st0, st', w)
  {
    OthersCalls(plan, lo, log, log', w.info);
    assert ServersOf(st', w.info.backend.name) == ServersOf(st, w.info.backend.name);
  }

  lemma OutcomeHere(plan: nat -> Fate, lo: nat, log: seq<Call>, log': seq<Call>, st0: Store, st: Store, st': Store,
                    w: Want)
    requires lo <= |log| && log <= log' && forall n | lo <= n < |log| :: !Own(log[n], w.info)
    requires PortOutcome(plan, log', |log|, st, st', w)
    requires Lookup(st.frontends, w.info.frontend.name) == Lookup(st0.frontends, w.info.frontend.name)
    requires Lookup(st.backends, w.info.backend.name) == Lookup(st0.backends, w.info.backend.name)
    ensures WriteFailed(plan, log', lo, w.info) <==> WriteFailed(plan, log', |log|, w.info)
    ensures PortOutcome(plan, log', lo, st0, st', w)
  {
    assert forall n | lo <= n < |log| :: log'[n] == log[n];
    if n :| lo <= n < |log'| && WriteFailedAt(plan, log'[n], n, w.info) {
      assert |log| <= n;
    }
    assert OwnServed(plan, log', lo, w.info) ==> OwnServed(plan, log', |log|, w.info);
    EffectiveSplits(plan, log, log', lo);
    NotEffective(plan, log, lo, w.info);
    assert FrontendAfter(st, w.info) == FrontendAfter(st0, w.info);
    assert BackendAfter(st, w) == BackendAfter(st0, w);
  }

  lemma NotEffective(plan: nat -> Fate, log: seq<Call>, lo: nat, info: HaproxyInfo)
    requires forall n | lo <= n < |log| :: !Own(log[n], info)
    ensures forall call | Own(call, info) :: call !in Effective(plan, log, lo)
  {
  }

  lemma KeyStep(plan: nat -> Fate, lo: nat, log: seq<Call>, log': seq<Call>, st0: Store, st: Store, st': Store,
                active: set<string>, left: set<string>, w: Wants, key: string, ok: bool, k: string)
    requires Proper(w) && key in w && key in left && k in w && lo <= |log|
    requires KeyProgress(plan, lo, log, st0, st, active, left, k, w[k])
    requires OnlyEntries(st, st', w[key].info) && OwnCalls(log, log', w[key].info)
    requires PortOutcome(plan, log', |log|, st, st', w[key]) && (ok <==> !WriteFailed(plan, log', |log|, w[key].info))
    ensures KeyProgress(plan, lo, log', st0, st', if ok then active + {key} else active, left - {key}, k, w[k])
  {
    if k == key {
      OutcomeHere(plan, lo, log, log', st0, st, st', w[key]);
    } else {
      OwnDisjoint(w, k, key);
      if k in left {
        forall n | lo <= n < |log'| ensures !Own(log'[n], w[k].info) {
          assert n < |log| ==> log'[n] == log[n];
        }
      } else {
        OutcomeBeside(plan, lo, log, log', st0, st, st', w[k]);
        OthersCalls(plan, lo, log, log', w[k].info);
      }
    }
  }

  lemma ForeignStep(st0: Store, st: Store, st': Store, w: Wants, key: string)
    requires Proper(w) && key in w && Foreign(st0, st, w) && OnlyEntries(st, st', w[key].info)
    ensures Foreign(st0, st', w)
  {
    assert ProperAt(key, w[key]);
    assert FrontendName(key) in WantedFrontends(w) && BackendName(key) in WantedBackends(w);
  }

  /** What a service port begins with depends on its own entries only. */
  lemma StartFrom(plan: nat -> Fate, log: seq<Call>, lo: nat, st: Store, st0: Store, info: HaproxyInfo)
    requires Lookup(st.frontends, info.frontend.name) == Lookup(st0.frontends, info.frontend.name)
    requires Lookup(st.backends, info.backend.name) == Lookup(st0.backends, info.backend.name)
    requires StartsSync(plan, log, lo, st, info)
    ensures StartsSync(plan, log, lo, st0, info)
  {
    assert BackendSettled(st, info.backend) == BackendSettled(st0, info.backend);
    assert FrontendSettled(st, info.frontend) == FrontendSettled(st0, info.frontend);
  }

  lemma BegunStep(plan: nat -> Fate, lo: nat, log: seq<Call>, log': seq<Call>, st0: Store, st: Store, left: set<string>,
                  w: Wants, key: string)
    requires key in w && key in left && left <= w.Keys && log <= log' && lo <= |log|
    requires Lookup(st.frontends, w[key].info.frontend.name) == Lookup(st0.frontends, w[key].info.frontend.name)
    requires Lookup(st.backends, w[key].info.backend.name) == Lookup(st0.backends, w[key].info.backend.name)
    requires Begun(plan, lo, log, st0, left, w) && StartsSync(plan, log', |log|, st, w[key].info)
    ensures Begun(plan, lo, log', st0, left - {key}, w)
  {
    if left != w.Keys {
      var k :| k in w && StartsSync(plan, log, lo, st0, w[k].info);
      StartStays(plan, log, log', lo, st0, w[k].info);
    } else {
      StartFrom(plan, log', lo, st, st0, w[key].info);
    }
  }

  lemma ProgressStep(plan: nat -> Fate, lo: nat, log: seq<Call>, log': seq<Call>, st0: Store, st: Store, st': Store,
                     active: set<string>, left: set<string>, w: Wants, key: string, ok: bool)
    requires Proper(w) && key in w && key in left && left <= w.Keys
    requires Progress(plan, lo, log, st0, st, active, left, w)
    requires OnlyEntries(st, st', w[key].info) && OwnCalls(log, log', w[key].info)
    requires StartsSync(plan, log', |log|, st, w[key].info)
    requires PortOutcome(plan, log', |log|, st, st', w[key]) && (ok <==> !WriteFailed(plan, log', |log|, w[key].info))
    ensures Progress(plan, lo, log', st0, st', if ok then active + {key} else active, left - {key}, w)
  {
    ForeignStep(st0, st, st', w, key);
    assert KeyProgress(plan, lo, log, st0, st, active, left, key, w[key]) && ProperAt(key, w[key]);
    BegunStep(plan, lo, log, log', st0, st, left, w, key);
    NoCleanupStep(lo, log, log', w[key].info);
    WritesWantedStep(lo, log, log', w, key);
    AllProgressStep(plan, lo, log, log', st0, st, st', active, left, w, key, ok);
  }

  lemma BegunStays(plan: nat -> Fate, lo: nat, log: seq<Call>, log': seq<Call>, st0: Store, w: Wants)
    requires Begun(plan, lo, log, st0, {}, w) && log <= log'
    ensures RunBegins(plan, lo, log', st0, w)
  {
    if w != map[] {
      var some :| some in w;
      var key :| key in w && StartsSync(plan, log, lo, st0, w[key].info);
      StartStays(plan, log, log', lo, st0, w[key].info);
    }
  }

  lemma WritesWantedStep(lo: nat, log: seq<Call>, log': seq<Call>, w: Wants, key: string)
    requires WritesWanted(log, lo, w) && key in w && ProperAt(key, w[key]) && OwnCalls(log, log', w[key].info)
    ensures WritesWanted(log', lo, w)
  {
    forall n | lo <= n < |log'| && log'[n].WriteBackend? ensures log'[n].name in WantedBackends(w) {
      if n < |log| {
        assert log'[n] == log[n];
      } else {
        assert Own(log'[n], w[key].info) && BackendName(key) in WantedBackends(w);
      }
    }
  }

  lemma NoCleanupStep(lo: nat, log: seq<Call>, log': seq<Call>, info: HaproxyInfo)
    requires NoCleanup(log, lo) && OwnCalls(log, log', info)
    ensures NoCleanup(log', lo)
  {
    forall n | lo <= n < |log'| ensures !IsCleanup(log'[n]) {
      assert n < |log| ==> log'[n] == log[n];
    }
  }

  lemma AllProgressStep(plan: nat -> Fate, lo: nat, log: seq<Call>, log': seq<Call>, st0: Store, st: Store, st': Store,
                        active: set<string>, left: set<string>, w: Wants, key: string, ok: bool)
    requires Proper(w) && key in w && key in left && lo <= |log|
    requires AllProgress(plan, lo, log, st0, st, active, left, w)
    requires OnlyEntries(st, st', w[key].info) && OwnCalls(log, log', w[key].info)
    requires PortOutcome(plan, log', |log|, st, st', w[key]) && (ok <==> !WriteFailed(plan, log', |log|, w[key].info))
    ensures AllProgress(plan, lo, log', st0, st', if ok then active + {key} else active, left - {key}, w)
  {
    forall k | k in w
      ensures KeyProgress(plan, lo, log', st0, st', if ok then active + {key} else active, left - {key}, k, w[k])
    {
      assert KeyProgress(plan, lo, log, st0, st, active, left, k, w[k]);
      KeyStep(plan, lo, log, log', st0, st, st', active, left, w, key, ok, k);
    }
  }

  lemma DonePart(w: Wants, left: set<string>, key: string)
    requires key in left && key in w
    ensures w - (left - {key}) == (w - left)[key := w[key]]
    ensures (w - (left - {key})).Keys == (w - left).Keys + {key}
  {
  }

  lemma SettledBeside(st: Store, w: Wants, key: string, want: Want)
    requires key !in w && NamedFor(key, want.info) && Settled(st, want.info)
    ensures Settled(Merged(st, w), want.info)
  {
    ForKey(st, w, key);
  }

  /** The state of the loop. */
  ghost predicate Reached(plan: nat -> Fate, lo: nat, log: seq<Call>, st0: Store, st: Store, active: set<string>,
                          left: set<string>, w: Wants) {
    && Tidy(st) && left <= w.Keys && Progress(plan, lo, log, st0, st, active, left, w)
    && (AllServed(plan, lo, |log|) ==> ReachedExactly(st0, st, active, w - left))
  }

  ghost predicate ReachedExactly(st0: Store, st: Store, active: set<string>, done: Wants) {
    st == Merged(st0, done) && active == done.Keys
  }

  /** If every call was served and everything was settled, there were no writes. */
  ghost predicate Unwritten(plan: nat -> Fate, lo: nat, log: seq<Call>, st0: Store, w: Wants, writes: int) {
    AllServed(plan, lo, |log|) && AllSettled(st0, w) ==> writes == 0
  }

  lemma ReachedAtStart(plan: nat -> Fate, log: seq<Call>, st: Store, w: Wants)
    requires Tidy(st)
    ensures Reached(plan, |log|, log, st, st, {}, w.Keys, w)
  {
    ProgressAtStart(plan, log, st, w);
    ExactAtStart(st, w);
  }

  lemma ProgressAtStart(plan: nat -> Fate, log: seq<Call>, st: Store, w: Wants)
    ensures Progress(plan, |log|, log, st, st, {}, w.Keys, w)
  {
  }

  lemma ExactAtStart(st: Store, w: Wants)
    ensures ReachedExactly(st, st, {}, w - w.Keys)
  {
    assert w - w.Keys == map[];
    MergedNothing(st);
  }

  lemma ReachedStep(plan: nat -> Fate, lo: nat, log: seq<Call>, log': seq<Call>, st0: Store, st: Store, st': Store,
                    active: set<string>, left: set<string>, w: Wants, key: string, ok: bool)
    requires Reached(plan, lo, log, st0, st, active, left, w) && Proper(w) && key in w && key in left && Tidy(st')
    requires OnlyEntries(st, st', w[key].info) && OwnCalls(log, log', w[key].info)
    requires StartsSync(plan, log', |log|, st, w[key].info)
    requires PortOutcome(plan, log', |log|, st, st', w[key]) && (ok <==> !WriteFailed(plan, log', |log|, w[key].info))
    requires AllServed(plan, |log|, |log'|) ==> ok && st' == Driven(st, w[key])
    ensures Reached(plan, lo, log', st0, st', if ok then active + {key} else active, left - {key}, w)
  {
    ProgressStep(plan, lo, log, log', st0, st, st', active, left, w, key, ok);
    if AllServed(plan, lo, |log'|) {
      DonePart(w, left, key);
      assert ProperAt(key, w[key]);
      MergedStep(st0, w - left, key, w[key]);
    }
  }

  lemma SettledHere(st0: Store, st: Store, active: set<string>, left: set<string>, w: Wants, key: string)
    requires ReachedExactly(st0, st, active, w - left) && Proper(w) && AllSettled(st0, w) && key in w && key in left
    ensures Settled(st, w[key].info)
  {
    assert ProperAt(key, w[key]);
    SettledBeside(st0, w - left, key, w[key]);
  }

  lemma NoKeysLeft(cfg: Config)
    ensures KeysFor(cfg, {}) == {}
  {
  }

  /** The keys still to come are those of the service ports still to come. */
  lemma KeysLeft(cfg: Config, spns: set<ServicePortName>, todo: set<ServicePortName>, p: ServicePortName)
    requires KubernetesNames(spns) && todo <= spns && p in todo
    ensures KeysFor(cfg, todo - {p})
         == if Skipped(cfg, EncodedName(p)) then KeysFor(cfg, todo) else KeysFor(cfg, todo) - {EncodedName(p)}
  {
    var key := EncodedName(p);
    forall q | q in todo && q != p ensures EncodedName(q) != key {
      EncodedNameExact(p, q);
    }
    forall k ensures k in KeysFor(cfg, todo - {p}) <==> k in KeysFor(cfg, todo) && (k != key || Skipped(cfg, key)) {
      if k in KeysFor(cfg, todo) && k != key {
        var q :| q in todo && !Skipped(cfg, EncodedName(q)) && EncodedName(q) == k;
        assert q in todo - {p};
      }
    }
    if Skipped(cfg, key) {
      assert key !in KeysFor(cfg, todo);
    }
  }

  /** What the loop needs to know of a service port it comes to. */
  ghost predicate Called(cfg: Config, services: PortMap<Services.ServiceInfo>, endpoints: EndpointEntries, w: Wants,
                         p: ServicePortName)
    requires p in services
  {
    var key := EncodedName(p);
    && (key in w <==> !Skipped(cfg, key))
    && (key in w ==> w[key] == WantFor(cfg, services, endpoints, p) && ProperAt(key, w[key]))
  }

  ghost predicate AllCalled(cfg: Config, services: PortMap<Services.ServiceInfo>, endpoints: EndpointEntries,
                            w: Wants) {
    forall p | p in services :: Called(cfg, services, endpoints, w, p)
  }

  lemma NextPort(cfg: Config, services: PortMap<Services.ServiceInfo>, endpoints: EndpointEntries, w: Wants,
                 todo: set<ServicePortName>, p: ServicePortName)
    requires KubernetesNames(services.Keys) && AllCalled(cfg, services, endpoints, w) && todo <= services.Keys
    requires p in todo
    ensures var key := EncodedName(p);
      if Skipped(cfg, key) then KeysFor(cfg, todo - {p}) == KeysFor(cfg, todo)
      else
        && KeysFor(cfg, todo - {p}) == KeysFor(cfg, todo) - {key}
        && key in w && key in KeysFor(cfg, todo) && ProperAt(key, w[key])
        && w[key] == Want(InfoFor(cfg, key, services[p]), WantedServers(cfg, Listed(endpoints, p)))
  {
    KeysLeft(cfg, services.Keys, todo, p);
    assert Called(cfg, services, endpoints, w, p);
  }

  lemma WantsCall(cfg: Config, services: PortMap<Services.ServiceInfo>, endpoints: EndpointEntries)
    requires KubernetesNames(services.Keys)
    ensures var w := WantsOf(cfg, services, endpoints);
      && Proper(w) && w.Keys == KeysFor(cfg, services.Keys)
      && AllCalled(cfg, services, endpoints, w)
  {
    WantsAreProper(cfg, services, endpoints);
    forall p | p in services ensures Called(cfg, services, endpoints, WantsOf(cfg, services, endpoints), p) {
      WantsAt(cfg, services, endpoints, p);
    }
  }

  lemma DeadExist(active: set<string>, current: map<string, Service>)
    ensures DeadFrontends(active, current) == {} ==> current.Keys <= active
  {
    forall cs | cs in current && cs !in active ensures DeadFrontends(active, current) != {} {
      var f := current[cs].frontend.name;
      assert f in DeadFrontends(active, current);
    }
  }

  lemma QuietCleanup(st: Store, active: set<string>, current: map<string, Service>)
    requires Tidy(st) && FromList(st, current) && AllListed(st, current)
    ensures Legacy(st, active) == {} ==> current.Keys <= active
  {
    DeadFrontendsExact(st, active, current);
    DeadExist(active, current);
  }

  // ---------- the outcome of a run ----------

  /** Both reads of the service list were served. */
  ghost predicate ListServed(plan: nat -> Fate, log: seq<Call>, lo: nat) {
    forall n | lo <= n < |log| && IsListing(log[n]) :: plan(n).Served?
  }

  /** At some time in the run there was a backend. Without one cleanup finds nothing. */
  ghost predicate Backed(plan: nat -> Fate, log: seq<Call>, lo: nat, st0: Store) {
    st0.backends != map[] || exists b :: WriteBackend(b) in Effective(plan, log, lo)
  }

  /** What becomes of one wanted service port. Its entries are there exactly if they were there or were made, and were
      not deleted. That is asked for exactly if one of its own writes failed and cleanup finds its frontend. */
  ghost predicate KeyOutcome(plan: nat -> Fate, lo: nat, log: seq<Call>, st0: Store, st: Store, w: Want) {
    var f, b, failed := w.info.frontend.name, w.info.backend.name, WriteFailed(plan, log, lo, w.info);
    var made, effective := Made(log, lo), Effective(plan, log, lo);
    && (OwnServed(plan, log, lo, w.info) ==> ExactAt(st0, st, w))
    && StopsAtFailure(plan, log, lo, w.info) && ConfOutcome(st0, st, w.info)
    && (b in st.backends ==> SafeRound(ServersOf(st0, b), w.servers, ServersOf(st, b)))
    && (!failed ==> f in st.frontends && b in st.backends)
    && (f in st.frontends <==> HasFrontend(plan, log, lo, st0, f) && DropFrontend(f) !in effective)
    && (b in st.backends <==> HasBackend(plan, log, lo, st0, b) && DropBackend(b) !in effective)
    && (DropFrontend(f) in made <==>
          failed && ListServed(plan, log, lo) && HasFrontend(plan, log, lo, st0, f) && Backed(plan, log, lo, st0))
    && (HasBackend(plan, log, lo, st0, b) ==>
          (DropBackend(b) in made <==> failed && ListServed(plan, log, lo) && HasFrontend(plan, log, lo, st0, f)))
  }

  /** What becomes of a frontend that is not wanted. */
  ghost predicate FrontendOutcome(plan: nat -> Fate, lo: nat, log: seq<Call>, st0: Store, st: Store, f: string) {
    && Lookup(st.frontends, f)
        == (if DropFrontend(f) in Effective(plan, log, lo) then None else Lookup(st0.frontends, f))
    && (DropFrontend(f) in Made(log, lo) <==>
          f in st0.frontends && f != STATS && ListServed(plan, log, lo) && Backed(plan, log, lo, st0))
  }

  /** What becomes of a backend that is not wanted: it is found through its frontend or not at all. */
  ghost predicate BackendOutcome(plan: nat -> Fate, lo: nat, log: seq<Call>, st0: Store, st: Store, b: string) {
    && Lookup(st.backends, b) == (if DropBackend(b) in Effective(plan, log, lo) then None else Lookup(st0.backends, b))
    && (b in st0.backends ==> (DropBackend(b) in Made(log, lo) <==> ListServed(plan, log, lo) && b in Owned(st0)))
  }

  /** What a run does, for every plan; log shows what it asked for from the lo-th call on. */
  ghost predicate RunOutcome(plan: nat -> Fate, lo: nat, log: seq<Call>, st0: Store, st: Store, w: Wants) {
    && (forall key | key in w :: KeyOutcome(plan, lo, log, st0, st, w[key]))
    && (forall f | f !in WantedFrontends(w) :: FrontendOutcome(plan, lo, log, st0, st, f))
    && (forall b | b !in WantedBackends(w) :: BackendOutcome(plan, lo, log, st0, st, b))
  }

  /** If anything is wanted, a run starts with the calls for one of the wanted ports. */
  ghost predicate RunBegins(plan: nat -> Fate, lo: nat, log: seq<Call>, st0: Store, w: Wants) {
    w != map[] ==> exists key :: key in w && StartsSync(plan, log, lo, st0, w[key].info)
  }

  /** The keys that a run counts as active. */
  ghost function ActiveKeys(plan: nat -> Fate, lo: nat, log: seq<Call>, w: Wants): set<string> {
    set key | key in w && !WriteFailed(plan, log, lo, w[key].info)
  }

  /** The end of a run: the loop has passed every key, and cleanup has followed. */
  ghost predicate Finished(plan: nat -> Fate, lo: nat, log0: seq<Call>, log: seq<Call>, st0: Store, merged: Store,
                           st: Store, active: set<string>, w: Wants) {
    && Tidy(st0) && Tidy(merged) && Progress(plan, lo, log0, st0, merged, active, {}, w)
    && CleanupDone(plan, log0, log, merged, st, active)
  }

  lemma CleanupCalls(plan: nat -> Fate, lo: nat, log0: seq<Call>, log: seq<Call>, info: HaproxyInfo)
    requires lo <= |log0| && log0 <= log && forall n | |log0| <= n < |log| :: IsCleanup(log[n])
    ensures WriteFailed(plan, log, lo, info) <==> WriteFailed(plan, log0, lo, info)
    ensures OwnServed(plan, log, lo, info) <==> OwnServed(plan, log0, lo, info)
    ensures forall call | Own(call, info) :: call in Effective(plan, log, lo) <==> call in Effective(plan, log0, lo)
    ensures StopsAtFailure(plan, log0, lo, info) ==> StopsAtFailure(plan, log, lo, info)
  {
    assert forall n | |log0| <= n < |log| :: !Own(log[n], info);
    OthersCalls(plan, lo, log0, log, info);
  }

  /** All deletions and listings of a run are those of its cleanup. */
  lemma CleanupIsLast(plan: nat -> Fate, lo: nat, log0: seq<Call>, log: seq<Call>, call: Call)
    requires lo <= |log0| && log0 <= log && NoCleanup(log0, lo) && IsCleanup(call)
    ensures call in Made(log, lo) <==> call in Made(log, |log0|)
    ensures call in Effective(plan, log, lo) <==> call in Effective(plan, log, |log0|)
  {
    assert forall n | lo <= n < |log0| :: log[n] == log0[n];
  }

  lemma ListServedAt(plan: nat -> Fate, lo: nat, log0: seq<Call>, log: seq<Call>, st: Store, st': Store,
                     active: set<string>)
    requires lo <= |log0| && NoCleanup(log0, lo) && CleanupDone(plan, log0, log, st, st', active)
    ensures ListServed(plan, log, lo) <==> AllServed(plan, |log0|, |log0| + 2)
  {
    var mid := |log0|;
    assert IsListing(log[mid]) && IsListing(log[mid + 1]);
    assert forall n | lo <= n < mid :: log[n] == log0[n] && !IsListing(log[n]);
    assert forall n | lo <= n < |log| && IsListing(log[n]) :: n == mid || n == mid + 1;
  }

  /** What is under a key is taken for legacy exactly if the key is not active. */
  lemma LegacyByKey(st: Store, active: set<string>, key: string)
    requires Tidy(st) && Trim(FrontendName(key)) == key
    ensures FrontendName(key) in Legacy(st, active) <==>
      key !in active && FrontendName(key) in st.frontends && st.backends != map[]
    ensures BackendName(key) in DefaultBackends(st, Legacy(st, active)) <==> FrontendName(key) in Legacy(st, active)
  {
    var f, b := FrontendName(key), BackendName(key);
    assert f[0] == 'F';
    if g :| g in Legacy(st, active) && st.frontends[g].conf.defaultBackend == b {
      assert FrontendTidy(g, st.frontends[g]);
      PrefixedInjective(BACKEND_PREFIX, Trim(g), key);
    }
    if f in st.frontends {
      assert FrontendTidy(f, st.frontends[f]);
    }
  }

  lemma MergedBackend(plan: nat -> Fate, lo: nat, log0: seq<Call>, log: seq<Call>, st0: Store, merged: Store,
                      active: set<string>, w: Wants, b: string)
    requires Proper(w) && Progress(plan, lo, log0, st0, merged, active, {}, w) && log0 <= log
    requires forall n | |log0| <= n < |log| :: IsCleanup(log[n])
    ensures b in merged.backends <==> HasBackend(plan, log, lo, st0, b)
  {
    EffectiveSplits(plan, log0, log, lo);
    assert WriteBackend(b) in Effective(plan, log, lo) <==> WriteBackend(b) in Effective(plan, log0, lo);
    if b in WantedBackends(w) {
      var key :| key in w && b == BackendName(key);
      assert ProperAt(key, w[key]) && KeyProgress(plan, lo, log0, st0, merged, active, {}, key, w[key]);
    } else {
      assert Lookup(merged.backends, b) == Lookup(st0.backends, b);
    }
  }

  /** The loop leaves a backend exactly if there was one or one was made. */
  lemma MergedBacked(plan: nat -> Fate, lo: nat, log0: seq<Call>, log: seq<Call>, st0: Store, merged: Store,
                     active: set<string>, w: Wants)
    requires Proper(w) && Progress(plan, lo, log0, st0, merged, active, {}, w) && log0 <= log
    requires forall n | |log0| <= n < |log| :: IsCleanup(log[n])
    ensures merged.backends != map[] <==> Backed(plan, log, lo, st0)
  {
    forall b ensures b in merged.backends <==> HasBackend(plan, log, lo, st0, b) {
      MergedBackend(plan, lo, log0, log, st0, merged, active, w, b);
    }
    if b :| b in merged.backends {
      assert HasBackend(plan, log, lo, st0, b);
    }
    if b :| b in st0.backends {
      assert HasBackend(plan, log, lo, st0, b);
    }
    if b :| WriteBackend(b) in Effective(plan, log, lo) {
      assert HasBackend(plan, log, lo, st0, b);
    }
  }

  /** The deletions under a wanted key. */
  ghost predicate DropsUnderKey(plan: nat -> Fate, lo: nat, log: seq<Call>, merged: Store, st: Store,
                                active: set<string>, key: string) {
    var f, b, made, effective := FrontendName(key), BackendName(key), Made(log, lo), Effective(plan, log, lo);
    && (f in st.frontends <==> f in merged.frontends && DropFrontend(f) !in effective)
    && (b in st.backends <==> b in merged.backends && DropBackend(b) !in effective)
    && (f in st.frontends ==> st.frontends[f] == merged.frontends[f])
    && (b in st.backends ==> st.backends[b] == merged.backends[b])
    && (DropFrontend(f) in made <==>
          key !in active && ListServed(plan, log, lo) && f in merged.frontends && merged.backends != map[])
    && (b in merged.backends ==>
          (DropBackend(b) in made <==> key !in active && ListServed(plan, log, lo) && f in merged.frontends))
  }

  lemma KeyDrops(plan: nat -> Fate, lo: nat, log0: seq<Call>, log: seq<Call>, merged: Store, st: Store,
                 active: set<string>, key: string)
    requires Tidy(merged) && Trim(FrontendName(key)) == key && lo <= |log0| && NoCleanup(log0, lo)
    requires CleanupDone(plan, log0, log, merged, st, active)
    ensures DropsUnderKey(plan, lo, log, merged, st, active, key) && Effective(plan, log, lo) <= Made(log, lo)
  {
    CleanupIsLast(plan, lo, log0, log, DropFrontend(FrontendName(key)));
    CleanupIsLast(plan, lo, log0, log, DropBackend(BackendName(key)));
    ListServedAt(plan, lo, log0, log, merged, st, active);
    LegacyByKey(merged, active, key);
    EffectiveIsMade(plan, log, lo);
  }

  lemma KeyFinishes(plan: nat -> Fate, lo: nat, log0: seq<Call>, log: seq<Call>, st0: Store, merged: Store, st: Store,
                    active: set<string>, w: Wants, key: string)
    requires Proper(w) && key in w && Finished(plan, lo, log0, log, st0, merged, st, active, w)
    ensures KeyOutcome(plan, lo, log, st0, st, w[key])
    ensures key in active <==> !WriteFailed(plan, log, lo, w[key].info)
  {
    var info := w[key].info;
    assert ProperAt(key, w[key]) && KeyProgress(plan, lo, log0, st0, merged, active, {}, key, w[key]);
    CleanupCalls(plan, lo, log0, log, info);
    KeyDrops(plan, lo, log0, log, merged, st, active, key);
    MergedBacked(plan, lo, log0, log, st0, merged, active, w);
    OutcomeAfterDrops(plan, lo, log0, log, st0, merged, st, active, w[key], key);
  }

  lemma OutcomeAfterDrops(plan: nat -> Fate, lo: nat, log0: seq<Call>, log: seq<Call>, st0: Store, merged: Store,
                          st: Store, active: set<string>, w: Want, key: string)
    requires NamedFor(key, w.info) && PortOutcome(plan, log0, lo, st0, merged, w)
    requires StopsAtFailure(plan, log, lo, w.info)
    requires WriteFailed(plan, log, lo, w.info) <==> WriteFailed(plan, log0, lo, w.info)
    requires OwnServed(plan, log, lo, w.info) <==> OwnServed(plan, log0, lo, w.info)
    requires forall call | Own(call, w.info) :: call in Effective(plan, log, lo) <==> call in Effective(plan, log0, lo)
    requires Effective(plan, log, lo) <= Made(log, lo) && DropsUnderKey(plan, lo, log, merged, st, active, key)
    requires key in active <==> !WriteFailed(plan, log, lo, w.info)
    requires merged.backends != map[] <==> Backed(plan, log, lo, st0)
    ensures KeyOutcome(plan, lo, log, st0, st, w)
  {
    var f, b := w.info.frontend.name, w.info.backend.name;
    assert Own(WriteFrontend(f), w.info) && Own(WriteBackend(b), w.info);
    assert HasFrontend(plan, log, lo, st0, f) <==> f in merged.frontends;
    assert HasBackend(plan, log, lo, st0, b) <==> b in merged.backends;
    assert OwnServed(plan, log, lo, w.info) ==> !WriteFailed(plan, log, lo, w.info);
  }

  lemma EffectiveIsMade(plan: nat -> Fate, log: seq<Call>, lo: nat)
    ensures Effective(plan, log, lo) <= Made(log, lo)
  {
  }

  lemma FrontendFinishes(plan: nat -> Fate, lo: nat, log0: seq<Call>, log: seq<Call>, st0: Store, merged: Store,
                         st: Store, active: set<string>, w: Wants, f: string)
    requires Proper(w) && f !in WantedFrontends(w) && Finished(plan, lo, log0, log, st0, merged, st, active, w)
    ensures FrontendOutcome(plan, lo, log, st0, st, f)
  {
    CleanupIsLast(plan, lo, log0, log, DropFrontend(f));
    ListServedAt(plan, lo, log0, log, merged, st, active);
    EffectiveIsMade(plan, log, lo);
    MergedBacked(plan, lo, log0, log, st0, merged, active, w);
    if f in st0.frontends && f != STATS {
      assert FrontendTidy(f, st0.frontends[f]);
      assert Trim(f) !in w;
    }
  }

  lemma BackendStays(plan: nat -> Fate, lo: nat, log0: seq<Call>, st0: Store, merged: Store, active: set<string>,
                     w: Wants, b: string)
    requires Proper(w) && Progress(plan, lo, log0, st0, merged, active, {}, w) && b in st0.backends
    ensures b in merged.backends
  {
    if b in WantedBackends(w) {
      var key :| key in w && b == BackendName(key);
      assert ProperAt(key, w[key]) && KeyProgress(plan, lo, log0, st0, merged, active, {}, key, w[key]);
    }
  }

  lemma BackendFinishes(plan: nat -> Fate, lo: nat, log0: seq<Call>, log: seq<Call>, st0: Store, merged: Store,
                        st: Store, active: set<string>, w: Wants, b: string)
    requires Proper(w) && b !in WantedBackends(w) && Finished(plan, lo, log0, log, st0, merged, st, active, w)
    ensures BackendOutcome(plan, lo, log, st0, st, b)
  {
    CleanupIsLast(plan, lo, log0, log, DropBackend(b));
    ListServedAt(plan, lo, log0, log, merged, st, active);
    if b in st0.backends {
      BackendStays(plan, lo, log0, st0, merged, active, w, b);
      OwnedIsLegacy(st0, merged, active, w, b);
    }
  }

  lemma OwnedIsLegacy(st0: Store, merged: Store, active: set<string>, w: Wants, b: string)
    requires Tidy(st0) && Tidy(merged) && Foreign(st0, merged, w) && active <= w.Keys
    requires b !in WantedBackends(w) && b in merged.backends
    ensures b in DefaultBackends(merged, Legacy(merged, active)) <==> b in Owned(st0)
  {
    if f :| f in Legacy(merged, active) && f in merged.frontends && merged.frontends[f].conf.defaultBackend == b {
      UnwantedFrontend(merged, w, f);
      assert Lookup(merged.frontends, f) == Lookup(st0.frontends, f);
    }
    if b in Owned(st0) {
      var f := OwnerOf(st0, b);
      UnwantedFrontend(st0, w, f);
      assert Lookup(merged.frontends, f) == Lookup(st0.frontends, f);
      assert f in Legacy(merged, active);
    }
  }

  lemma UnwantedFrontend(st: Store, w: Wants, f: string)
    requires Tidy(st) && f in st.frontends && f != STATS && st.frontends[f].conf.defaultBackend !in WantedBackends(w)
    ensures f !in WantedFrontends(w) && Trim(f) !in w
  {
    assert FrontendTidy(f, st.frontends[f]);
    if key :| key in w && f == FrontendName(key) {
      PrefixedInjective(FRONTEND_PREFIX, Trim(f), key);
    }
  }

  /** The outcome of a run for every plan. */
  lemma RunFinishes(plan: nat -> Fate, lo: nat, log0: seq<Call>, log: seq<Call>, st0: Store, merged: Store, st: Store,
                    active: set<string>, w: Wants)
    requires Proper(w) && Finished(plan, lo, log0, log, st0, merged, st, active, w)
    ensures RunOutcome(plan, lo, log, st0, st, w) && active == ActiveKeys(plan, lo, log, w)
  {
    forall key | key in w
      ensures KeyOutcome(plan, lo, log, st0, st, w[key])
      ensures key in active <==> !WriteFailed(plan, log, lo, w[key].info)
    {
      KeyFinishes(plan, lo, log0, log, st0, merged, st, active, w, key);
    }
    forall f | f !in WantedFrontends(w) ensures FrontendOutcome(plan, lo, log, st0, st, f) {
      FrontendFinishes(plan, lo, log0, log, st0, merged, st, active, w, f);
    }
    forall b | b !in WantedBackends(w) ensures BackendOutcome(plan, lo, log, st0, st, b) {
      BackendFinishes(plan, lo, log0, log, st0, merged, st, active, w, b);
    }
  }

  /** The outcome of a run in which every call was served. */
  lemma ServedRun(plan: nat -> Fate, lo: nat, log0: seq<Call>, log: seq<Call>, st0: Store, merged: Store, st: Store,
                  active: set<string>, w: Wants)
    requires lo <= |log0| && AllServed(plan, lo, |log|)
    requires CleanupDone(plan, log0, log, merged, st, active) && ReachedExactly(st0, merged, active, w - {})
    ensures st == Reconciled(st0, w) && active == w.Keys
    ensures Quiet(st0, w) ==> Legacy(merged, active) == {}
  {
    assert w - {} == w;
    ServedCleanup(plan, log0, log, merged, st, active);
  }

  /** A port in place goes when a write of its own failed, the list was read and no deletion was refused. */
  lemma FailedInPlaceGoes(plan: nat -> Fate, lo: nat, log: seq<Call>, st0: Store, st: Store, w: Want)
    requires KeyOutcome(plan, lo, log, st0, st, w) && WriteFailed(plan, log, lo, w.info) && ListServed(plan, log, lo)
    requires w.info.frontend.name in st0.frontends && w.info.backend.name in st0.backends
    requires forall call | IsCleanup(call) && call in Made(log, lo) :: call in Effective(plan, log, lo)
    ensures w.info.frontend.name !in st.frontends && w.info.backend.name !in st.backends
  {
    assert IsCleanup(DropFrontend(w.info.frontend.name)) && IsCleanup(DropBackend(w.info.backend.name));
  }

  lemma TwoFaults(plan: nat -> Fate, lo: nat, log: seq<Call>, st0: Store, info: HaproxyInfo)
    requires info.backend.name in st0.backends && StartsSync(plan, log, lo, st0, info)
    requires plan(lo).Refused? && plan(lo + 1).Refused? && forall n | n > lo + 1 :: plan(n).Served?
    ensures WriteFailed(plan, log, lo, info) && ListServed(plan, log, lo)
    ensures forall call | IsCleanup(call) && call in Made(log, lo) :: call in Effective(plan, log, lo)
  {
    var b := info.backend.name;
    assert log[lo..lo + 2] == [ReadBackend(b), WriteBackend(b)];
    assert log[lo + 1] == log[lo..lo + 2][1];
    assert WriteFailedAt(plan, log[lo + 1], lo + 1, info);
  }

  /** A service port in place is lost when its own backend cannot be read and then not be added, even if it is settled
      and all other calls are served. */
  lemma SettledServiceLost(plan: nat -> Fate, lo: nat, log: seq<Call>, st0: Store, st: Store, w: Wants, key: string)
    requires w.Keys == {key} && RunOutcome(plan, lo, log, st0, st, w)
    requires w[key].info.frontend.name in st0.frontends && w[key].info.backend.name in st0.backends
    requires StartsSync(plan, log, lo, st0, w[key].info)
    requires plan(lo).Refused? && plan(lo + 1).Refused? && forall n | n > lo + 1 :: plan(n).Served?
    ensures w[key].info.frontend.name !in st.frontends && w[key].info.backend.name !in st.backends
  {
    assert KeyOutcome(plan, lo, log, st0, st, w[key]);
    TwoFaults(plan, lo, log, st0, w[key].info);
    FailedInPlaceGoes(plan, lo, log, st0, st, w[key]);
  }

  /** A fresh service port is left half made when the write of its frontend is refused. */
  lemma HalfMade(plan: nat -> Fate, lo: nat, log: seq<Call>, st0: Store, st: Store, w: Wants, key: string)
    requires w.Keys == {key} && ProperAt(key, w[key]) && RunOutcome(plan, lo, log, st0, st, w)
    requires st0.frontends == map[] && st0.backends == map[] && StartsSync(plan, log, lo, st0, w[key].info)
    requires plan(lo + 3).Refused? && forall n | n != lo + 3 :: plan(n).Served?
    ensures st.frontends == map[] && st.backends.Keys == {BackendName(key)}
  {
    assert KeyOutcome(plan, lo, log, st0, st, w[key]);
    HalfMadeKey(plan, lo, log, st0, st, w[key], key);
    EffectiveIsMade(plan, log, lo);
    forall g ensures g !in st.frontends {
      assert g !in WantedFrontends(w) ==> FrontendOutcome(plan, lo, log, st0, st, g);
    }
    forall c ensures c in st.backends <==> c == BackendName(key) {
      assert c !in WantedBackends(w) ==> BackendOutcome(plan, lo, log, st0, st, c);
    }
  }

  lemma HalfMadeKey(plan: nat -> Fate, lo: nat, log: seq<Call>, st0: Store, st: Store, w: Want, key: string)
    requires ProperAt(key, w) && KeyOutcome(plan, lo, log, st0, st, w)
    requires st0.frontends == map[] && st0.backends == map[] && StartsSync(plan, log, lo, st0, w.info)
    requires plan(lo + 3).Refused? && forall n | n != lo + 3 :: plan(n).Served?
    ensures FrontendName(key) !in st.frontends && BackendName(key) in st.backends
  {
    HalfMadeCalls(plan, lo, log, st0, w.info);
    assert WriteFailedAt(plan, log[lo + 3], lo + 3, w.info);
    assert WriteBackend(BackendName(key)) in Effective(plan, log, lo);
    forall n | lo <= n < |log| && log[n] == WriteFrontend(FrontendName(key)) ensures plan(n).Refused? {
      assert Own(log[n], w.info);
    }
    EffectiveIsMade(plan, log, lo);
  }

  lemma HalfMadeCalls(plan: nat -> Fate, lo: nat, log: seq<Call>, st0: Store, info: HaproxyInfo)
    requires st0.frontends == map[] && st0.backends == map[] && StartsSync(plan, log, lo, st0, info)
    requires plan(lo + 1).Served?
    ensures lo + 3 < |log|
    ensures log[lo..lo + 2] == [ReadBackend(info.backend.name), WriteBackend(info.backend.name)]
    ensures log[lo + 2..lo + 4] == [ReadFrontend(info.frontend.name), WriteFrontend(info.frontend.name)]
    ensures log[lo + 1] == WriteBackend(info.backend.name) && log[lo + 3] == WriteFrontend(info.frontend.name)
  {
    assert |BackendCalls(plan, lo, st0, info)| == 2;
    assert |FrontendCalls(plan, lo + 2, st0, info)| == 2;
    assert log[lo + 1] == log[lo..lo + 2][1] && log[lo + 3] == log[lo + 2..lo + 4][1];
  }
}
