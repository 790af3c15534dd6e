/** When one run whose calls are served restores what is wanted, whatever calls have failed before. */
module Recovery {
  import opened Api
  import opened Names
  import opened Haproxy
  import opened Reconciliation
  import opened Convergence
  import opened SyncSteps
  import opened SyncOutcome

  /** A run with these wants took the store from st to st', under some plan. */
  ghost predicate Happened(st: Store, st': Store, w: Wants) {
    Tidy(st') && exists plan, lo, log :: RunOutcome(plan, lo, log, st, st', w)
  }

  /** What every run keeps, however many of its calls fail. */
  ghost predicate Sound(cfg: Config, st: Store) {
    Tidy(st) && NoUdpBackends(st) && StoreSourced(cfg, st)
  }

  lemma BackendSound(cfg: Config, plan: nat -> Fate, lo: nat, log: seq<Call>, st: Store, st': Store, w: Wants,
                     b: string)
    requires Sound(cfg, st) && Proper(w) && WantsSourced(cfg, w) && RunOutcome(plan, lo, log, st, st', w)
    requires b in st'.backends
    ensures st'.backends[b].conf.mode != "udp" && Sourced(cfg, st'.backends[b].servers)
  {
    if b in WantedBackends(w) {
      var key :| key in w && b == BackendName(key);
      assert ProperAt(key, w[key]) && KeyOutcome(plan, lo, log, st, st', w[key]);
      var before, after := ServersOf(st, b), st'.backends[b].servers;
      forall n | n in after ensures SourcedAt(cfg, n, after[n]) {
        assert n in before && after[n] == before[n] ==> SourcedAt(cfg, n, before[n]);
        assert n in w[key].servers ==> SourcedAt(cfg, n, w[key].servers[n]);
      }
    } else {
      assert BackendOutcome(plan, lo, log, st, st', b);
    }
  }

  lemma StatsKept(plan: nat -> Fate, lo: nat, log: seq<Call>, st: Store, st': Store, w: Wants)
    requires RunOutcome(plan, lo, log, st, st', w)
    ensures StatsOf(st') == StatsOf(st)
  {
    StatsUnwanted(w);
    assert FrontendOutcome(plan, lo, log, st, st', STATS);
    EffectiveIsMade(plan, log, lo);
    assert Lookup(st'.frontends, STATS) == Lookup(st.frontends, STATS);
  }

  /** Every run keeps the store sound and the stats frontend as it is. */
  lemma RunKeepsSound(cfg: Config, st: Store, st': Store, w: Wants)
    requires Sound(cfg, st) && Proper(w) && WantsSourced(cfg, w) && Happened(st, st', w)
    ensures Sound(cfg, st') && StatsOf(st') == StatsOf(st)
  {
    var plan, lo, log :| RunOutcome(plan, lo, log, st, st', w);
    forall b | b in st'.backends ensures st'.backends[b].conf.mode != "udp" && Sourced(cfg, st'.backends[b].servers) {
      BackendSound(cfg, plan, lo, log, st, st', w, b);
    }
    StatsKept(plan, lo, log, st, st', w);
  }

  /** The stores between runs. */
  ghost predicate IsHistory(stores: seq<Store>, ws: seq<Wants>) {
    |stores| == |ws| + 1 && forall i | 0 <= i < |ws| :: Happened(stores[i], stores[i + 1], ws[i])
  }

  lemma {:induction false} EveryStoreSound(cfg: Config, stores: seq<Store>, ws: seq<Wants>, i: nat)
    requires IsHistory(stores, ws) && i < |stores| && Sound(cfg, stores[0])
    requires AllProper(ws) && AllSourced(cfg, ws)
    ensures Sound(cfg, stores[i]) && StatsOf(stores[i]) == StatsOf(stores[0])
  {
    if i == 0 {
    } else {
      var j := i - 1;
      EveryStoreSound(cfg, stores, ws, j);
      assert Happened(stores[j], stores[j + 1], ws[j]);
      RunKeepsSound(cfg, stores[j], stores[j + 1], ws[j]);
    }
  }

  lemma StartSound(cfg: Config, st: Store)
    requires AtStart(st)
    ensures Sound(cfg, st)
  {
  }

  /** When a run whose calls are served restores what is wanted. Without any backend and any wants it lists nothing, and
      so leaves whatever frontends there are. */
  ghost predicate Restorable(st: Store, w: Wants) {
    if Listable(st, w) then !HasOrphan(st, w) && NoneStuck(st, w) else st.frontends.Keys <= {STATS}
  }

  lemma SoundRunExact(cfg: Config, st: Store, w: Wants)
    requires Sound(cfg, st) && Proper(w) && WantsSourced(cfg, w)
    ensures IsIdeal(st, w, Reconciled(st, w)) <==> Restorable(st, w)
  {
    if Listable(st, w) {
      OneRunExact(st, w);
      forall key | key in w ensures OneRunEnough(st, key, w[key]) <==> !Stuck(st, w[key].info) {
        NoClashAt(cfg, st, w, key);
      }
    } else {
      UnlistableStays(st, w);
      OnlyStatsIdeal(st, w);
    }
  }

  lemma OnlyStatsIdeal(st: Store, w: Wants)
    requires w == map[] && st.backends == map[]
    ensures IsIdeal(st, w, st) <==> st.frontends.Keys <= {STATS}
  {
    assert WantedFrontends(w) == {} && WantedBackends(w) == {};
    assert StatsOf(st).Keys == st.frontends.Keys * {STATS};
  }

  /** From a fresh HAProxy, after any runs under one configuration with any failures, a run whose calls are served ends
      in exactly the wanted configuration, unless failed calls have left an orphan or the frontend of a former udp port
      is in the way. */
  lemma EveryHistoryRecovers(cfg: Config, stores: seq<Store>, ws: seq<Wants>, w: Wants)
    requires IsHistory(stores, ws) && AtStart(stores[0])
    requires AllProper(ws) && AllSourced(cfg, ws) && Proper(w) && WantsSourced(cfg, w)
    ensures var st := stores[|ws|];
      IsIdeal(stores[0], w, Reconciled(st, w)) <==> Restorable(st, w)
  {
    var st := stores[|ws|];
    StartSound(cfg, stores[0]);
    EveryStoreSound(cfg, stores, ws, |ws|);
    SoundRunExact(cfg, st, w);
    IdealFromSameStats(stores[0], st, w, Reconciled(st, w));
  }

  // ---------- orphans ----------

  ghost predicate IsOrphan(st: Store, b: string) {
    b in st.backends && b !in Owned(st)
  }

  /** A run whose calls are served never deletes an orphan, and adopts it exactly if it wants its key. */
  lemma OrphanExact(st: Store, w: Wants, b: string)
    requires Tidy(st) && Proper(w) && IsOrphan(st, b)
    ensures b in Reconciled(st, w).backends
    ensures IsOrphan(Reconciled(st, w), b) <==> b !in WantedBackends(w)
  {
    ReconciledKeys(st, w);
    OwnedAfter(st, w);
  }

  lemma {:induction false} OrphanStays(st: Store, ws: seq<Wants>, b: string)
    requires Tidy(st) && AllProper(ws) && IsOrphan(st, b) && forall i | 0 <= i < |ws| :: b !in WantedBackends(ws[i])
    ensures Tidy(AfterRuns(st, ws)) && IsOrphan(AfterRuns(st, ws), b)
  {
    if ws == [] {
    } else {
      var early, last := ws[..|ws| - 1], ws[|ws| - 1];
      OrphanStays(st, early, b);
      ReconciledTidy(AfterRuns(st, early), last);
      OrphanExact(AfterRuns(st, early), last, b);
    }
  }
}
