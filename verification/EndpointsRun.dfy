/** Runs of the endpoint side in Endpoints mode. The tracker's lock makes Update, checkoutChanges and
    checkoutTriggerTimes atomic, but an apply takes the lock twice, and events may come in between and while the
    checked-out changes are merged one by one. */
module EndpointsRun {
  import opened Api
  import opened PortMaps
  import opened ChangeTracking
  import opened Triggers
  import opened Endpoints
  import EndpointTracker

  type Objects = map<NamespacedName, EndpointsObject>

  /** Merging holds the checked-out changes that are not merged yet; the apply ends by taking the trigger times. */
  datatype Phase = Idle | Merging(left: EndpointItems)

  datatype State = State(
    history: seq<Objects>,    // the latest objects after every event so far
    items: EndpointItems,
    times: Times,             // lastChangeTriggerTimes
    entries: EndpointEntries,
    phase: Phase,
    seenAt: nat,              // the entry of history the last checkout started from
    ledger: Ledger)

  const START := State([map[]], map[], map[], map[], Idle, 0, EMPTY_LEDGER)

  function Latest(s: State): Objects
    requires s.history != []
  {
    s.history[|s.history| - 1]
  }

  function Left(s: State): EndpointItems {
    if s.phase.Merging? then s.phase.left else map[]
  }

  function Rendered(node: Node, objects: Objects, nn: NamespacedName): MaybeMap<seq<Endpoint>> {
    EndpointsToMap(node, Lookup(objects, nn))
  }

  /** The endpoints map recomputed from scratch. */
  ghost function FullMap(node: Node, objects: Objects): EndpointEntries {
    Flatten(map nn | nn in objects :: OrEmpty(Rendered(node, objects, nn)))
  }

  ghost predicate Named(objects: Objects) {
    forall nn | nn in objects :: objects[nn].name == nn
  }

  // ---------- steps ----------

  function NotedAt(s: State, nn: NamespacedName, current: Option<EndpointsObject>): seq<Time> {
    if current.Some? then EndpointTracker.EventTimes(current.value.triggerTime, false) else []
  }

  /** An informer event and the Update it causes. */
  ghost predicate Observe(node: Node, s: State, s': State, nn: NamespacedName, current: Option<EndpointsObject>,
                          changed: bool) {
    && s.history != []
    && (current.Some? ==> current.value.name == nn)
    && (current.None? ==> nn in Latest(s))
    && var items := Track(s.items, nn, Rendered(node, Latest(s), nn), EndpointsToMap(node, current));
       var noted := EndpointTracker.Noted(s.times, nn, NotedAt(s, nn, current));
       var ledger := Record(s.ledger, nn, NotedAt(s, nn, current));
    && s' == s.(history := s.history + [Observed(Latest(s), nn, current)],
                items := items,
                times := EndpointTracker.KeptTimes(noted, nn, items),
                ledger := if nn in items then ledger else Drop(ledger, nn, Get(noted, nn)))
    && changed == (items != map[])
  }

  ghost predicate Checkout(s: State, s': State) {
    && s.history != [] && s.phase.Idle?
    && s' == s.(items := map[], phase := Merging(s.items), seenAt := |s.history| - 1)
  }

  ghost predicate MergeOne(s: State, s': State, nn: NamespacedName) {
    && nn in Left(s)
    && s' == s.(entries := Patch(s.entries, OrEmpty(Left(s)[nn].previous), OrEmpty(Left(s)[nn].current)),
                phase := Merging(Left(s) - {nn}))
  }

  ghost predicate TakeTimes(s: State, s': State) {
    && s.phase == Merging(map[])
    && s' == s.(phase := Idle, times := map[], ledger := Deliver(s.ledger, s.times))
  }

  // ---------- the chain ----------

  ghost predicate Chained(node: Node, s: State, nn: NamespacedName)
    requires s.history != [] && s.seenAt < |s.history|
  {
    Chain(Part(s.entries, nn), Left(s), s.items, nn, Rendered(node, s.history[s.seenAt], nn),
          Rendered(node, Latest(s), nn))
  }

  ghost predicate Inv(node: Node, s: State) {
    && s.history != [] && s.seenAt < |s.history|
    && (forall i | 0 <= i < |s.history| :: Named(s.history[i]))
    && (forall nn :: Chained(node, s, nn))
    && Conserved(s.ledger, s.times)
  }

  lemma RenderedKeyed(node: Node, objects: Objects, nn: NamespacedName)
    requires Named(objects)
    ensures Keyed(nn, OrEmpty(Rendered(node, objects, nn)))
  {
    RenderedMapKeyed(node, Lookup(objects, nn));
  }

  lemma StartInv(node: Node)
    ensures Inv(node, START)
  {
    forall nn ensures Chained(node, START, nn) && Balanced(EMPTY_LEDGER, map[], nn) && Truthful(EMPTY_LEDGER, nn) {
      assert Part<seq<Endpoint>>(map[], nn) == map[];
    }
  }

  lemma ObserveKeepsTimes(node: Node, s: State, s': State, nn: NamespacedName, current: Option<EndpointsObject>,
                          changed: bool)
    requires Inv(node, s) && Observe(node, s, s', nn, current, changed)
    ensures Conserved(s'.ledger, s'.times)
  {
    var ts := NotedAt(s, nn, current);
    var noted, ledger := EndpointTracker.Noted(s.times, nn, ts), Record(s.ledger, nn, ts);
    RecordConserves(s.ledger, s.times, nn, ts);
    assert Conserved(ledger, noted) by {
      forall m ensures Get(noted, m) == Get(Append(s.times, nn, ts), m) {
      }
      forall m ensures Balanced(ledger, noted, m) && Truthful(ledger, m) {
        assert Balanced(ledger, Append(s.times, nn, ts), m) && Truthful(ledger, m);
      }
    }
    DropConserves(ledger, noted, nn);
  }

  lemma ObserveKeeps(node: Node, s: State, s': State, nn: NamespacedName, current: Option<EndpointsObject>,
                     changed: bool)
    requires Inv(node, s) && Observe(node, s, s', nn, current, changed)
    ensures Inv(node, s')
  {
    ObserveKeepsTimes(node, s, s', nn, current, changed);
    forall m ensures Chained(node, s', m) {
      ObserveKeepsAt(node, s, s', nn, current, changed, m);
    }
  }

  lemma ObserveKeepsAt(node: Node, s: State, s': State, nn: NamespacedName, current: Option<EndpointsObject>,
                       changed: bool, m: NamespacedName)
    requires Inv(node, s) && Observe(node, s, s', nn, current, changed)
    ensures Chained(node, s', m)
  {
    assert Chained(node, s, m);
    var last := |s.history|;
    assert s'.history[last] == Observed(Latest(s), nn, current) && Latest(s') == s'.history[last];
    assert Rendered(node, Latest(s'), m)
        == if m == nn then EndpointsToMap(node, current) else Rendered(node, Latest(s), m);
    assert s'.history[s'.seenAt] == s.history[s.seenAt];
    TrackKeepsChain(Part(s.entries, m), Left(s), s.items, nn, m, Rendered(node, s.history[s.seenAt], m),
                    Rendered(node, Latest(s), m), Rendered(node, Latest(s), nn), EndpointsToMap(node, current));
  }

  lemma CheckoutKeeps(node: Node, s: State, s': State)
    requires Inv(node, s) && Checkout(s, s')
    ensures Inv(node, s')
  {
    forall nn ensures Chained(node, s', nn) {
      assert Chained(node, s, nn);
    }
  }

  lemma MergeOneKeeps(node: Node, s: State, s': State, nn: NamespacedName)
    requires Inv(node, s) && MergeOne(s, s', nn)
    ensures Inv(node, s')
  {
    assert Chained(node, s, nn);
    RenderedKeyed(node, s.history[s.seenAt], nn);
    PatchPart(s.entries, OrEmpty(Left(s)[nn].previous), OrEmpty(Left(s)[nn].current), nn);
    forall m ensures Chained(node, s', m) {
      assert Chained(node, s, m);
    }
  }

  lemma TakeTimesKeeps(node: Node, s: State, s': State)
    requires Inv(node, s) && TakeTimes(s, s')
    ensures Inv(node, s')
  {
    DeliverConserves(s.ledger, s.times);
    forall nn ensures Chained(node, s', nn) {
      assert Chained(node, s, nn);
    }
  }

  // ---------- what the chain gives ----------

  /** Once its changes are merged, an apply has brought the map to the one recomputed from the objects as of its
      checkout, whatever events came since; with nothing pending either, that is the map of the latest objects. */
  lemma MapIsRecomputed(node: Node, s: State)
    requires Inv(node, s) && Left(s) == map[]
    ensures s.entries == FullMap(node, s.history[s.seenAt])
    ensures s.items == map[] ==> s.entries == FullMap(node, Latest(s))
  {
    forall nn ensures Base(s.items, nn, Rendered(node, Latest(s), nn)) == Rendered(node, s.history[s.seenAt], nn) {
      assert Chained(node, s, nn);
    }
    SnapshotIsFull(node, s, s.history[s.seenAt]);
    if s.items == map[] {
      SnapshotIsFull(node, s, Latest(s));
    }
  }

  lemma SnapshotIsFull(node: Node, s: State, objects: Objects)
    requires Inv(node, s) && Left(s) == map[] && objects in s.history
    requires forall nn :: Base(s.items, nn, Rendered(node, Latest(s), nn)) == Rendered(node, objects, nn)
    ensures s.entries == FullMap(node, objects)
  {
    var parts := map nn | nn in objects :: OrEmpty(Rendered(node, objects, nn));
    forall nn | nn in parts ensures Keyed(nn, parts[nn]) {
      RenderedKeyed(node, objects, nn);
    }
    forall nn ensures Part(s.entries, nn) == Part(FullMap(node, objects), nn) {
      assert Chained(node, s, nn);
      FlattenPart(parts, nn);
    }
    EqualByParts(s.entries, FullMap(node, objects));
  }

  /** The changes an apply checks out fit the map it patches, so stale connections are detected exactly. */
  lemma ItemsFitMap(node: Node, s: State)
    requires Inv(node, s) && s.phase.Idle?
    ensures ItemsFit(s.entries, s.items) && ItemsKeyed(s.items)
  {
    forall nn | nn in s.items
      ensures OrEmpty(s.items[nn].previous) == Part(s.entries, nn)
      ensures Keyed(nn, OrEmpty(s.items[nn].previous)) && Keyed(nn, OrEmpty(s.items[nn].current))
    {
      assert Chained(node, s, nn);
      RenderedKeyed(node, Latest(s), nn);
    }
  }
}
