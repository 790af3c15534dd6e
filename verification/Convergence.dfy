/** Fault-free reconciliations as functions on stores: the cleanup, its exact outcome, and when a sequence of runs
    reaches exactly the configuration that is called for. */
module Convergence {
  import opened Names
  import opened Haproxy
  import opened Reconciliation

  // ---------- cleanup ----------

  /** The frontends whose decoded name is not among the active keys; none when no backend is listed. */
  function Legacy(st: Store, active: set<string>): set<string> {
    if st.backends == map[] then {} else set f | f in st.frontends && f != STATS && Trim(f) !in active
  }

  function DefaultBackends(st: Store, frontends: set<string>): set<string> {
    set f | f in frontends && f in st.frontends :: st.frontends[f].conf.defaultBackend
  }

  /** The store after a fault-free cleanup. */
  function Cleaned(st: Store, active: set<string>): Store {
    var legacy := Legacy(st, active);
    Store(st.frontends - legacy, st.backends - DefaultBackends(st, legacy))
  }

  /** The store after a fault-free run. */
  function Reconciled(st: Store, w: Wants): Store {
    Cleaned(Merged(st, w), w.Keys)
  }

  // ---------- the stores this program leaves behind ----------

  /** A frontend this program made: named after its key, in front of the backend of that key, with at most its own
      bind. */
  ghost predicate OwnFrontend(f: string, e: FrontendEntry) {
    f == FrontendName(Trim(f)) && e.conf.defaultBackend == BackendName(Trim(f)) && e.binds.Keys <= {BindName(Trim(f))}
  }

  ghost predicate FrontendTidy(f: string, e: FrontendEntry) {
    FrontendNamed(f, e) && (f != STATS ==> OwnFrontend(f, e))
  }

  /** What holds of every store, also after failed calls: all frontends but stats are of this kind. */
  ghost predicate Tidy(st: Store) {
    && (forall f | f in st.frontends :: FrontendTidy(f, st.frontends[f]))
    && (forall b | b in st.backends :: BackendNamed(b, st.backends[b]))
  }

  function Owned(st: Store): set<string> {
    DefaultBackends(st, st.frontends.Keys - {STATS})
  }

  /** Without failed calls, frontends and backends also correspond, and no backend is in mode udp. */
  ghost predicate Spotless(st: Store) {
    Tidy(st) && st.backends.Keys == Owned(st) && NoUdpBackends(st)
  }

  ghost predicate NoUdpBackends(st: Store) {
    forall b | b in st.backends :: st.backends[b].conf.mode != "udp"
  }

  /** Frontends and backends filed under exactly the names of the given keys. */
  ghost predicate FiledByKey(fs: map<string, FrontendEntry>, bs: map<string, BackendEntry>, keys: set<string>) {
    && (forall key :: KeyFiled(fs, bs, keys, key))
    && (forall f | f in fs :: f == FrontendName(Trim(f)) && f != STATS)
  }

  ghost predicate KeyFiled(fs: map<string, FrontendEntry>, bs: map<string, BackendEntry>, keys: set<string>,
                           key: string) {
    (FrontendName(key) in fs <==> key in keys) && (BackendName(key) in bs <==> key in keys)
  }

  /** This is where decoding the frontend names pays. */
  lemma ByKey(st: Store, w: Wants)
    requires Proper(w)
    ensures FiledByKey(FrontendsFor(st, w), BackendsFor(st, w), w.Keys)
  {
    forall key ensures KeyFiled(FrontendsFor(st, w), BackendsFor(st, w), w.Keys, key) {
      ForKey(st, w, key);
    }
    forall f | f in FrontendsFor(st, w) ensures f == FrontendName(Trim(f)) && f != STATS {
      var key := FrontendKey(st, w, f);
      assert ProperAt(key, w[key]) && f[0] == 'F';
    }
  }

  // ---------- the exact outcome of a run ----------

  ghost function StatsOf(st: Store): map<string, FrontendEntry> {
    st.frontends - (st.frontends.Keys - {STATS})
  }

  /** Backends that no frontend leads to: only failed calls leave them behind. */
  ghost function Orphans(st: Store): map<string, BackendEntry> {
    st.backends - Owned(st)
  }

  /** Cleanup lists nothing, and so removes nothing, when there is no backend at all. */
  ghost predicate Listable(st: Store, w: Wants) {
    w != map[] || st.backends != map[]
  }

  lemma LegacyExact(st: Store, fs: map<string, FrontendEntry>, bs: map<string, BackendEntry>, keys: set<string>,
                    f: string)
    requires Tidy(st) && FiledByKey(fs, bs, keys) && st.backends + bs != map[]
    ensures f in Legacy(Store(st.frontends + fs, st.backends + bs), keys) <==>
      f in st.frontends && f !in fs && f != STATS
  {
    if f in fs || (f in st.frontends && f != STATS) {
      assert f in fs || FrontendTidy(f, st.frontends[f]);
      assert KeyFiled(fs, bs, keys, Trim(f));
    }
  }

  lemma OwnedExact(st: Store, fs: map<string, FrontendEntry>, bs: map<string, BackendEntry>, keys: set<string>,
                   b: string)
    requires Tidy(st) && FiledByKey(fs, bs, keys) && st.backends + bs != map[]
    ensures var merged := Store(st.frontends + fs, st.backends + bs);
      b in DefaultBackends(merged, Legacy(merged, keys)) <==> b in Owned(st) && b !in bs
  {
    var merged := Store(st.frontends + fs, st.backends + bs);
    var legacy := Legacy(merged, keys);
    if b in DefaultBackends(merged, legacy) {
      var f :| f in legacy && f in merged.frontends && merged.frontends[f].conf.defaultBackend == b;
      LegacyExact(st, fs, bs, keys, f);
      assert FrontendTidy(f, st.frontends[f]) && KeyFiled(fs, bs, keys, Trim(f));
    }
    if b in Owned(st) && b !in bs {
      var f :| f in st.frontends && f != STATS && st.frontends[f].conf.defaultBackend == b;
      assert FrontendTidy(f, st.frontends[f]) && KeyFiled(fs, bs, keys, Trim(f));
      LegacyExact(st, fs, bs, keys, f);
    }
  }

  lemma CleanedExact(st: Store, fs: map<string, FrontendEntry>, bs: map<string, BackendEntry>, keys: set<string>)
    requires Tidy(st) && FiledByKey(fs, bs, keys) && st.backends + bs != map[]
    ensures Cleaned(Store(st.frontends + fs, st.backends + bs), keys) == Store(StatsOf(st) + fs, Orphans(st) + bs)
  {
    var merged := Store(st.frontends + fs, st.backends + bs);
    var legacy := Legacy(merged, keys);
    var own := st.frontends.Keys - {STATS};
    assert legacy == own - fs.Keys by {
      forall f ensures f in legacy <==> f in own - fs.Keys {
        LegacyExact(st, fs, bs, keys, f);
      }
    }
    CutUnder(st.frontends, fs, own);
    var gone := DefaultBackends(merged, legacy);
    assert gone == Owned(st) - bs.Keys by {
      forall b ensures b in gone <==> b in Owned(st) - bs.Keys {
        OwnedExact(st, fs, bs, keys, b);
      }
    }
    CutUnder(st.backends, bs, Owned(st));
  }

  lemma CutUnder<V>(m: map<string, V>, n: map<string, V>, cut: set<string>)
    ensures (m + n) - (cut - n.Keys) == (m - cut) + n
  {
  }

  /** After a run the frontends are stats and those of the wanted service ports; the backends are those of the wanted
      service ports and the orphans, which are never found. */
  lemma ReconciledExact(st: Store, w: Wants)
    requires Tidy(st) && Proper(w) && Listable(st, w)
    ensures Reconciled(st, w) == Store(StatsOf(st) + FrontendsFor(st, w), Orphans(st) + BackendsFor(st, w))
  {
    ByKey(st, w);
    if w != map[] {
      var key :| key in w;
      ForKey(st, w, key);
      assert BackendName(key) in st.backends + BackendsFor(st, w);
    } else {
      var b :| b in st.backends;
      assert b in st.backends + BackendsFor(st, w);
    }
    CleanedExact(st, FrontendsFor(st, w), BackendsFor(st, w), w.Keys);
  }

  lemma ReconciledAt(st: Store, w: Wants, key: string)
    requires Tidy(st) && Proper(w) && key in w
    ensures var r := Reconciled(st, w);
      && FrontendName(key) in r.frontends && r.frontends[FrontendName(key)] == FrontendAfter(st, w[key].info)
      && BackendName(key) in r.backends && r.backends[BackendName(key)] == BackendAfter(st, w[key])
  {
    ReconciledExact(st, w);
    ForKey(st, w, key);
  }

  lemma MergedTidy(st: Store, w: Wants)
    requires Tidy(st) && Proper(w)
    ensures Tidy(Merged(st, w))
  {
    var merged := Merged(st, w);
    forall f | f in merged.frontends ensures FrontendTidy(f, merged.frontends[f]) {
      if f in FrontendsFor(st, w) {
        var key := FrontendKey(st, w, f);
        assert ProperAt(key, w[key]);
        FrontendAfterTidy(st, w[key].info, key);
      }
    }
    forall b | b in merged.backends ensures BackendNamed(b, merged.backends[b]) {
      if b in BackendsFor(st, w) {
        var key := BackendKey(st, w, b);
        assert ProperAt(key, w[key]);
        BackendAfterNamed(st, w[key], key);
      }
    }
  }

  lemma FrontendAfterTidy(st: Store, info: HaproxyInfo, key: string)
    requires Tidy(st) && NamedFor(key, info)
    ensures FrontendTidy(FrontendName(key), FrontendAfter(st, info))
  {
    var f := FrontendName(key);
    assert f[0] == 'F' && BindName(key)[0] == 'B';
    assert f in st.frontends ==> FrontendTidy(f, st.frontends[f]);
  }

  lemma BackendAfterNamed(st: Store, w: Want, key: string)
    requires Tidy(st) && ProperAt(key, w)
    ensures BackendNamed(BackendName(key), BackendAfter(st, w))
  {
    var b := BackendName(key);
    assert b[0] == 'B';
    assert b in st.backends ==> BackendNamed(b, st.backends[b]);
  }

  lemma CleanedTidy(st: Store, active: set<string>)
    requires Tidy(st)
    ensures Tidy(Cleaned(st, active))
  {
  }

  lemma ReconciledTidy(st: Store, w: Wants)
    requires Tidy(st) && Proper(w)
    ensures Tidy(Reconciled(st, w))
  {
    MergedTidy(st, w);
    CleanedTidy(Merged(st, w), w.Keys);
  }

  // ---------- convergence ----------

  /** Exactly what is called for, beside the stats frontend. */
  function IdealFrontend(info: HaproxyInfo): FrontendEntry {
    FrontendEntry(info.frontend, map[info.bind.name := info.bind])
  }

  function IdealBackend(w: Want): BackendEntry {
    BackendEntry(w.info.backend, w.servers)
  }

  ghost predicate IsIdeal(st0: Store, w: Wants, st: Store) {
    && StatsOf(st) == StatsOf(st0)
    && st.frontends.Keys == StatsOf(st0).Keys + WantedFrontends(w)
    && st.backends.Keys == WantedBackends(w)
    && AllIdeal(st, w)
  }

  ghost predicate AllIdeal(st: Store, w: Wants) {
    forall key | key in w :: IdealAt(st, key, w[key])
  }

  ghost predicate IdealAt(st: Store, key: string, w: Want) {
    && FrontendName(key) in st.frontends && st.frontends[FrontendName(key)] == IdealFrontend(w.info)
    && BackendName(key) in st.backends && st.backends[BackendName(key)] == IdealBackend(w)
  }

  /** An entry in mode udp stands where another mode is called for. The key does not hold the protocol, so this happens
      when a port changes its protocol. */
  predicate Stuck(st: Store, info: HaproxyInfo) {
    || (info.frontend.name in st.frontends && st.frontends[info.frontend.name].conf.mode == "udp" != info.frontend.mode)
    || (info.backend.name in st.backends && st.backends[info.backend.name].conf.mode == "udp")
  }

  predicate HasOrphan(st: Store, w: Wants) {
    exists b :: b in st.backends && b !in Owned(st) && b !in WantedBackends(w)
  }

  lemma FrontendIdeal(st: Store, info: HaproxyInfo, key: string)
    requires Tidy(st) && NamedFor(key, info)
    ensures FrontendAfter(st, info) == IdealFrontend(info)
       <==> !(UdpAt(st, key) && info.frontend.mode != "udp")
  {
    var f := FrontendName(key);
    assert f[0] == 'F';
    if f in st.frontends {
      var e := st.frontends[f];
      assert FrontendTidy(f, e);
      assert e.binds[info.bind.name := info.bind] == map[info.bind.name := info.bind];
    }
  }

  /** What one port's entries become: exact unless a udp entry is in the way or servers clash. */
  lemma PortIdeal(st: Store, w: Wants, key: string)
    requires Tidy(st) && Proper(w) && key in w
    ensures IdealAt(Reconciled(st, w), key, w[key])
       <==> !Stuck(st, w[key].info) && !Clashing(ServersOf(st, BackendName(key)), w[key].servers)
  {
    ReconciledAt(st, w, key);
    assert ProperAt(key, w[key]);
    FrontendIdeal(st, w[key].info, key);
    RoundsConverge(ServersOf(st, BackendName(key)), w[key].servers);
  }

  lemma StatsUnwanted(w: Wants)
    ensures STATS !in WantedFrontends(w)
  {
    assert forall key :: FrontendName(key)[0] == 'F';
  }

  lemma ReconciledKeys(st: Store, w: Wants)
    requires Tidy(st) && Proper(w) && Listable(st, w)
    ensures Reconciled(st, w).frontends.Keys == StatsOf(st).Keys + WantedFrontends(w)
    ensures Reconciled(st, w).backends.Keys == (st.backends.Keys - Owned(st)) + WantedBackends(w)
    ensures StatsOf(Reconciled(st, w)) == StatsOf(st)
  {
    ReconciledExact(st, w);
    StatsUnwanted(w);
    KeysForWanted(st, w);
    StatsOver(StatsOf(st), FrontendsFor(st, w));
    assert StatsOf(Reconciled(st, w)) == StatsOf(Store(StatsOf(st) + FrontendsFor(st, w), map[]));
    assert Orphans(st).Keys == st.backends.Keys - Owned(st);
  }

  lemma StatsOver(m: map<string, FrontendEntry>, fs: map<string, FrontendEntry>)
    requires STATS !in fs && m.Keys <= {STATS}
    ensures StatsOf(Store(m + fs, map[])) == m
  {
  }

  ghost predicate OneRunEnough(st: Store, key: string, w: Want) {
    !Stuck(st, w.info) && !Clashing(ServersOf(st, BackendName(key)), w.servers)
  }

  ghost predicate AllEnough(st: Store, w: Wants) {
    forall key | key in w :: OneRunEnough(st, key, w[key])
  }

  lemma AllIdealExact(st: Store, w: Wants)
    requires Tidy(st) && Proper(w)
    ensures AllIdeal(Reconciled(st, w), w) <==> AllEnough(st, w)
  {
    forall key | key in w ensures IdealAt(Reconciled(st, w), key, w[key]) <==> OneRunEnough(st, key, w[key]) {
      PortIdeal(st, w, key);
    }
  }

  lemma OrphansExact(st: Store, w: Wants)
    ensures (st.backends.Keys - Owned(st)) + WantedBackends(w) == WantedBackends(w) <==> !HasOrphan(st, w)
  {
    var left, wanted := st.backends.Keys - Owned(st), WantedBackends(w);
    if !HasOrphan(st, w) {
      assert left <= wanted;
    } else {
      var b :| b in st.backends && b !in Owned(st) && b !in wanted;
      assert b in left + wanted;
    }
  }

  /** When one run is enough: no orphan, no udp entry in the way, and no clash of servers. */
  lemma OneRunExact(st: Store, w: Wants)
    requires Tidy(st) && Proper(w) && Listable(st, w)
    ensures IsIdeal(st, w, Reconciled(st, w)) <==> !HasOrphan(st, w) && AllEnough(st, w)
  {
    ReconciledKeys(st, w);
    OrphansExact(st, w);
    AllIdealExact(st, w);
  }

  // ---------- the second run ----------

  ghost predicate NoneStuck(st: Store, w: Wants) {
    forall key | key in w :: !Stuck(st, w[key].info)
  }

  /** A run from such a store asks for no change of a frontend, backend or bind. */
  ghost predicate Quiet(st: Store, w: Wants) {
    AllSettled(st, w) && Legacy(Merged(st, w), w.Keys) == {}
  }

  ghost predicate AllSettled(st: Store, w: Wants) {
    forall key | key in w :: Settled(st, w[key].info)
  }

  lemma MergedNothing(st: Store)
    ensures Merged(st, map[]) == st
  {
    assert st.frontends + FrontendsFor(st, map[]) == st.frontends;
    assert st.backends + BackendsFor(st, map[]) == st.backends;
  }

  lemma CleanedNothing(st: Store, active: set<string>)
    requires Legacy(st, active) == {}
    ensures Cleaned(st, active) == st
  {
    assert DefaultBackends(st, {}) == {};
    assert st.frontends - {} == st.frontends && st.backends - {} == st.backends;
  }

  /** A run that finds nothing listed leaves the store alone, legacy frontends included. */
  lemma UnlistableStays(st: Store, w: Wants)
    requires !Listable(st, w)
    ensures Reconciled(st, w) == st
  {
    MergedNothing(st);
    CleanedNothing(st, w.Keys);
  }

  lemma EntriesSettled(st: Store, r: Store, w: Want)
    requires w.info.backend.mode != "udp"
    requires w.info.frontend.name in r.frontends && r.frontends[w.info.frontend.name] == FrontendAfter(st, w.info)
    requires w.info.backend.name in r.backends && r.backends[w.info.backend.name] == BackendAfter(st, w)
    ensures Settled(r, w.info) && (Stuck(r, w.info) <==> Stuck(st, w.info))
    ensures ServersOf(r, w.info.backend.name) == Round(ServersOf(st, w.info.backend.name), w.servers)
  {
    var binds := BindsOf(st, w.info.frontend.name)[w.info.bind.name := w.info.bind];
    assert BindsOf(r, w.info.frontend.name) == binds;
    assert binds[w.info.bind.name := w.info.bind] == binds;
  }

  lemma SettledAfter(st: Store, w: Wants, key: string)
    requires Tidy(st) && Proper(w) && key in w
    ensures var r := Reconciled(st, w);
      && Settled(r, w[key].info)
      && (Stuck(r, w[key].info) <==> Stuck(st, w[key].info))
      && ServersOf(r, BackendName(key)) == Round(ServersOf(st, BackendName(key)), w[key].servers)
  {
    ReconciledAt(st, w, key);
    assert ProperAt(key, w[key]);
    EntriesSettled(st, Reconciled(st, w), w[key]);
  }

  lemma NoLegacyLeft(st: Store, w: Wants)
    requires Tidy(st) && Proper(w)
    ensures Legacy(Merged(Reconciled(st, w), w), w.Keys) == {}
  {
    var r := Reconciled(st, w);
    ReconciledTidy(st, w);
    if !Listable(st, w) {
      UnlistableStays(st, w);
      MergedNothing(st);
    } else if Merged(r, w).backends != map[] {
      ReconciledKeys(st, w);
      ByKey(r, w);
      forall f ensures f !in Legacy(Merged(r, w), w.Keys) {
        LegacyExact(r, FrontendsFor(r, w), BackendsFor(r, w), w.Keys, f);
      }
    }
  }

  /** After a fault-free run from any store, a second one with the same wants asks for no change of a frontend, backend
      or bind. */
  lemma SecondRunQuiet(st: Store, w: Wants)
    requires Tidy(st) && Proper(w)
    ensures Quiet(Reconciled(st, w), w)
  {
    forall key | key in w ensures Settled(Reconciled(st, w), w[key].info) {
      SettledAfter(st, w, key);
    }
    NoLegacyLeft(st, w);
  }

  lemma OwnedAfter(st: Store, w: Wants)
    requires Tidy(st) && Proper(w) && Listable(st, w)
    ensures Owned(Reconciled(st, w)) == WantedBackends(w)
  {
    forall b ensures b in Owned(Reconciled(st, w)) <==> b in WantedBackends(w) {
      OwnedAfterAt(st, w, b);
    }
  }

  lemma OwnedAfterAt(st: Store, w: Wants, b: string)
    requires Tidy(st) && Proper(w) && Listable(st, w)
    ensures b in Owned(Reconciled(st, w)) <==> b in WantedBackends(w)
  {
    if b in Owned(Reconciled(st, w)) {
      var f := OwnerOf(Reconciled(st, w), b);
      var key := FrontendWanted(st, w, f);
      OwnBackend(st, w, key);
    }
    if key :| key in w && b == BackendName(key) {
      OwnBackend(st, w, key);
    }
  }

  lemma OwnerOf(st: Store, b: string) returns (f: string)
    requires b in Owned(st)
    ensures f in st.frontends && f != STATS && st.frontends[f].conf.defaultBackend == b
  {
    f :| f in st.frontends.Keys - {STATS} && st.frontends[f].conf.defaultBackend == b;
  }

  lemma FrontendWanted(st: Store, w: Wants, f: string) returns (key: string)
    requires Tidy(st) && Proper(w) && Listable(st, w) && f in Reconciled(st, w).frontends && f != STATS
    ensures key in w && f == FrontendName(key)
  {
    ReconciledExact(st, w);
    assert f !in StatsOf(st);
    key := FrontendKey(st, w, f);
  }

  lemma OwnBackend(st: Store, w: Wants, key: string)
    requires Tidy(st) && Proper(w) && key in w
    ensures var r, f := Reconciled(st, w), FrontendName(key);
      f in r.frontends && f != STATS && r.frontends[f].conf.defaultBackend == BackendName(key)
  {
    ReconciledAt(st, w, key);
    ReconciledTidy(st, w);
    assert ProperAt(key, w[key]) && FrontendName(key)[0] == 'F';
    assert FrontendTidy(FrontendName(key), Reconciled(st, w).frontends[FrontendName(key)]);
  }

  lemma EnoughAfter(st: Store, w: Wants)
    requires Tidy(st) && Proper(w)
    ensures AllEnough(Reconciled(st, w), w) <==> NoneStuck(st, w)
  {
    var r := Reconciled(st, w);
    forall key | key in w ensures OneRunEnough(r, key, w[key]) <==> !Stuck(st, w[key].info) {
      SettledAfter(st, w, key);
    }
  }

  /** Two runs with the same wants produce exactly the wanted configuration, servers included, if and only if no udp
      entry is in the way and no orphan was there. */
  lemma TwoRunsExact(st: Store, w: Wants)
    requires Tidy(st) && Proper(w) && Listable(st, w)
    ensures Tidy(Reconciled(st, w))
    ensures IsIdeal(st, w, Reconciled(Reconciled(st, w), w)) <==> !HasOrphan(st, w) && NoneStuck(st, w)
  {
    var r := Reconciled(st, w);
    ReconciledTidy(st, w);
    ReconciledKeys(st, w);
    EnoughAfter(st, w);
    if Listable(r, w) {
      OwnedAfter(st, w);
      OneRunExact(r, w);
      assert HasOrphan(r, w) <==> HasOrphan(st, w);
    } else {
      UnlistableStays(r, w);
      OneRunExact(st, w);
    }
  }

  // ---------- sequences of runs ----------

  ghost predicate AllProper(ws: seq<Wants>) {
    forall i | 0 <= i < |ws| :: Proper(ws[i])
  }

  /** The store after one fault-free run for each of the wants. */
  function AfterRuns(st: Store, ws: seq<Wants>): Store {
    if ws == [] then st else Reconciled(AfterRuns(st, ws[..|ws| - 1]), ws[|ws| - 1])
  }

  /** A freshly started HAProxy: at most the stats frontend. */
  ghost predicate AtStart(st: Store) {
    WellNamed(st) && st.backends == map[] && st.frontends.Keys <= {STATS}
  }

  lemma StartSpotless(st: Store)
    requires AtStart(st)
    ensures Spotless(st)
  {
  }

  lemma BackendModesAfter(st: Store, w: Wants)
    requires Tidy(st) && NoUdpBackends(st) && Proper(w) && Listable(st, w)
    ensures NoUdpBackends(Reconciled(st, w))
  {
    ReconciledExact(st, w);
    var bs := Orphans(st) + BackendsFor(st, w);
    forall b | b in bs ensures bs[b].conf.mode != "udp" {
      if b in BackendsFor(st, w) {
        var key := BackendKey(st, w, b);
        assert ProperAt(key, w[key]);
      }
    }
  }

  lemma ReconciledSpotless(st: Store, w: Wants)
    requires Spotless(st) && Proper(w)
    ensures Spotless(Reconciled(st, w)) && StatsOf(Reconciled(st, w)) == StatsOf(st)
  {
    if Listable(st, w) {
      ReconciledTidy(st, w);
      ReconciledKeys(st, w);
      OwnedAfter(st, w);
      BackendModesAfter(st, w);
    } else {
      UnlistableStays(st, w);
    }
  }

  lemma NothingOwned(st: Store)
    requires Owned(st) == {}
    ensures st.frontends.Keys <= {STATS}
  {
    assert forall f | f in st.frontends.Keys - {STATS} :: st.frontends[f].conf.defaultBackend in Owned(st);
  }

  lemma {:induction false} EveryRunSpotless(st: Store, ws: seq<Wants>)
    requires Spotless(st) && AllProper(ws)
    ensures Spotless(AfterRuns(st, ws)) && StatsOf(AfterRuns(st, ws)) == StatsOf(st)
  {
    if ws == [] {
    } else {
      EveryRunSpotless(st, ws[..|ws| - 1]);
      ReconciledSpotless(AfterRuns(st, ws[..|ws| - 1]), ws[|ws| - 1]);
    }
  }

  lemma SpotlessRunsExact(st: Store, w: Wants)
    requires Spotless(st) && Proper(w)
    ensures IsIdeal(st, w, Reconciled(Reconciled(st, w), w)) <==> NoneStuck(st, w)
  {
    if Listable(st, w) {
      TwoRunsExact(st, w);
      SpotlessHasNoOrphan(st, w);
    } else {
      UnlistableStays(st, w);
      NothingOwned(st);
      EmptyIsIdeal(st, w);
    }
  }

  lemma SpotlessHasNoOrphan(st: Store, w: Wants)
    requires st.backends.Keys == Owned(st)
    ensures !HasOrphan(st, w)
  {
  }

  lemma EmptyIsIdeal(st: Store, w: Wants)
    requires w == map[] && st.backends == map[] && st.frontends.Keys <= {STATS}
    ensures IsIdeal(st, w, st) && NoneStuck(st, w)
  {
    assert st.frontends - {} == st.frontends;
    assert WantedFrontends(w) == {} && WantedBackends(w) == {};
  }

  lemma IdealFromSameStats(st0: Store, st1: Store, w: Wants, st: Store)
    requires StatsOf(st0) == StatsOf(st1)
    ensures IsIdeal(st0, w, st) <==> IsIdeal(st1, w, st)
  {
  }

  // ---------- one configuration ----------

  ghost predicate StoreSourced(cfg: Config, st: Store) {
    forall b | b in st.backends :: Sourced(cfg, st.backends[b].servers)
  }

  ghost predicate WantsSourced(cfg: Config, w: Wants) {
    forall key | key in w :: Sourced(cfg, w[key].servers)
  }

  ghost predicate AllSourced(cfg: Config, ws: seq<Wants>) {
    forall i | 0 <= i < |ws| :: WantsSourced(cfg, ws[i])
  }

  lemma ReconciledSourced(cfg: Config, st: Store, w: Wants)
    requires Tidy(st) && Proper(w) && StoreSourced(cfg, st) && WantsSourced(cfg, w)
    ensures StoreSourced(cfg, Reconciled(st, w))
  {
    if Listable(st, w) {
      ReconciledExact(st, w);
      var bs := Orphans(st) + BackendsFor(st, w);
      forall b | b in bs ensures Sourced(cfg, bs[b].servers) {
        if b in BackendsFor(st, w) {
          var key := BackendKey(st, w, b);
          assert Sourced(cfg, w[key].servers);
        }
      }
    } else {
      UnlistableStays(st, w);
    }
  }

  lemma {:induction false} EveryRunSourced(cfg: Config, st: Store, ws: seq<Wants>)
    requires Spotless(st) && AllProper(ws) && StoreSourced(cfg, st) && AllSourced(cfg, ws)
    ensures StoreSourced(cfg, AfterRuns(st, ws))
  {
    if ws == [] {
    } else {
      var early := ws[..|ws| - 1];
      EveryRunSourced(cfg, st, early);
      EveryRunSpotless(st, early);
      ReconciledSourced(cfg, AfterRuns(st, early), ws[|ws| - 1]);
    }
  }

  lemma SourcedRunExact(cfg: Config, st: Store, w: Wants)
    requires Spotless(st) && Proper(w) && StoreSourced(cfg, st) && WantsSourced(cfg, w)
    ensures IsIdeal(st, w, Reconciled(st, w)) <==> NoneStuck(st, w)
  {
    if Listable(st, w) {
      OneRunExact(st, w);
      SpotlessHasNoOrphan(st, w);
      forall key | key in w ensures OneRunEnough(st, key, w[key]) <==> !Stuck(st, w[key].info) {
        NoClashAt(cfg, st, w, key);
      }
    } else {
      UnlistableStays(st, w);
      NothingOwned(st);
      EmptyIsIdeal(st, w);
    }
  }

  lemma NoClashAt(cfg: Config, st: Store, w: Wants, key: string)
    requires StoreSourced(cfg, st) && WantsSourced(cfg, w) && key in w
    ensures !Clashing(ServersOf(st, BackendName(key)), w[key].servers)
  {
    SourcedNeverClash(cfg, ServersOf(st, BackendName(key)), w[key].servers);
  }

  /** From a fresh HAProxy, after any fault-free runs under one configuration, every further run ends in exactly the
      wanted configuration, unless the frontend of a former udp port is in the way of another mode. */
  lemma EveryRunConverges(cfg: Config, st: Store, ws: seq<Wants>, w: Wants)
    requires AtStart(st) && AllProper(ws) && AllSourced(cfg, ws) && Proper(w) && WantsSourced(cfg, w)
    ensures var reached := AfterRuns(st, ws);
      IsIdeal(st, w, Reconciled(reached, w)) <==> NoneStuck(reached, w)
  {
    var reached := AfterRuns(st, ws);
    StartSpotless(st);
    EveryRunSpotless(st, ws);
    EveryRunSourced(cfg, st, ws);
    SourcedRunExact(cfg, reached, w);
    IdealFromSameStats(st, reached, w, Reconciled(reached, w));
  }

  /** Whatever wants came before, for instance under other configurations, two equal runs are enough. */
  lemma EveryTwoRunsConverge(st: Store, ws: seq<Wants>, w: Wants)
    requires AtStart(st) && AllProper(ws) && Proper(w)
    ensures var reached := AfterRuns(st, ws);
      IsIdeal(st, w, Reconciled(Reconciled(reached, w), w)) <==> NoneStuck(reached, w)
  {
    var reached := AfterRuns(st, ws);
    StartSpotless(st);
    EveryRunSpotless(st, ws);
    SpotlessRunsExact(reached, w);
    IdealFromSameStats(st, reached, w, Reconciled(Reconciled(reached, w), w));
  }

  // ---------- frontends in mode udp ----------

  predicate UdpAt(st: Store, key: string) {
    FrontendName(key) in st.frontends && st.frontends[FrontendName(key)].conf.mode == "udp"
  }

  /** A udp frontend survives a run exactly if the run wants its key, in whatever mode. */
  lemma UdpExact(st: Store, w: Wants, key: string)
    requires Tidy(st) && Proper(w) && Listable(st, w) && UdpAt(st, key)
    ensures UdpAt(Reconciled(st, w), key) <==> key in w
    ensures key !in w ==> FrontendName(key) !in Reconciled(st, w).frontends
  {
    if key in w {
      ReconciledAt(st, w, key);
      assert ProperAt(key, w[key]);
    } else {
      ReconciledKeys(st, w);
      StatsUnwanted(w);
      assert FrontendName(key)[0] == 'F';
      if k :| k in w && FrontendName(k) == FrontendName(key) {
        PrefixedInjective(FRONTEND_PREFIX, k, key);
      }
    }
  }

  lemma {:induction false} UdpStays(st: Store, ws: seq<Wants>, key: string)
    requires Tidy(st) && AllProper(ws) && UdpAt(st, key) && forall i | 0 <= i < |ws| :: key in ws[i]
    ensures Tidy(AfterRuns(st, ws)) && UdpAt(AfterRuns(st, ws), key)
  {
    if ws == [] {
    } else {
      var early, last := ws[..|ws| - 1], ws[|ws| - 1];
      UdpStays(st, early, key);
      assert key in last && last != map[];
      ReconciledTidy(AfterRuns(st, early), last);
      UdpExact(AfterRuns(st, early), last, key);
    }
  }

  /** When a udp port gives its name to one with another protocol, its frontend is in the way through every later run,
      for as long as the key is wanted. */
  lemma ProtocolChangeSticks(st: Store, w: Wants, ws: seq<Wants>, w': Wants, key: string)
    requires Tidy(st) && Proper(w) && AllProper(ws) && Proper(w')
    requires key in w && key in w' && forall i | 0 <= i < |ws| :: key in ws[i]
    requires w[key].info.frontend.mode == "udp" != w'[key].info.frontend.mode
    ensures !NoneStuck(AfterRuns(Reconciled(st, w), ws), w')
  {
    ReconciledTidy(st, w);
    ReconciledAt(st, w, key);
    assert ProperAt(key, w[key]) && ProperAt(key, w'[key]);
    UdpStays(Reconciled(st, w), ws, key);
    assert Stuck(AfterRuns(Reconciled(st, w), ws), w'[key].info);
  }
}
