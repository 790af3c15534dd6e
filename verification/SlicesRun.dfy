/** Runs of the endpoint side in EndpointSlice mode, with the two locked sections per apply of Endpoints mode. */
module SlicesRun {
  import opened Api
  import opened PortMaps
  import opened Triggers
  import opened Endpoints
  import opened EndpointSlices
  import opened Rendering
  import opened Sorting
  import opened SliceCache
  import EndpointTracker

  type ServiceSlices = map<string, Slice>

  type Objects = map<NamespacedName, ServiceSlices>

  /** Merging holds the checked-out changes that are not merged yet and the trackers that the checkout found. */
  datatype Phase = Idle | Merging(left: EndpointItems, found: Trackers)

  datatype State = State(
    history: seq<Objects>,    // the latest slices of every service after every event so far
    trackers: Trackers,
    times: Times,
    entries: EndpointEntries,
    phase: Phase,
    seenAt: nat,
    ledger: Ledger)

  const START := State([map[]], map[], map[], map[], Idle, 0, EMPTY_LEDGER)

  function Latest(s: State): Objects
    requires s.history != []
  {
    s.history[|s.history| - 1]
  }

  function Left(s: State): EndpointItems {
    if s.phase.Merging? then s.phase.left else map[]
  }

  function SlicesAt(objects: Objects, nn: NamespacedName): ServiceSlices {
    if nn in objects then objects[nn] else map[]
  }

  function ObservedSlice(objects: Objects, nn: NamespacedName, slice: Slice, remove: bool): Objects {
    objects[nn := Observed(SlicesAt(objects, nn), slice.name, if remove then None else Some(slice))]
  }

  ghost predicate Dirty(trackers: Trackers) {
    exists nn | nn in trackers :: trackers[nn].pending != map[]
  }

  // ---------- steps ----------

  /** An informer event and the EndpointSliceUpdate it causes; info is the normal form the sorts produced. */
  ghost predicate Observe(s: State, s': State, slice: Slice, remove: bool, info: SliceInfo, changed: bool) {
    && s.history != []
    && PortsSortable(slice) && IsNormal(slice, remove, info)
    && EndpointTracker.SliceTarget(slice).Some?
    && var nn := EndpointTracker.SliceTarget(slice).value;
       var t := TrackerAt(s.trackers, nn);
       var ts := if changed then EndpointTracker.EventTimes(slice.triggerTime, remove) else [];
    && changed == InfoChanged(t, slice.name, info)
    && s' == s.(history := s.history + [ObservedSlice(Latest(s), nn, slice, remove)],
                trackers := s.trackers[nn := Pend(t, slice.name, info)],
                times := EndpointTracker.Noted(s.times, nn, ts),
                ledger := Record(s.ledger, nn, ts))
  }

  ghost predicate Checkout(node: Node, s: State, s': State, flight: EndpointItems) {
    && s.history != [] && s.phase.Idle?
    && IsCheckout(node, s.trackers, flight)
    && s' == s.(trackers := CheckedOut(s.trackers), phase := Merging(flight, s.trackers), seenAt := |s.history| - 1)
  }

  ghost predicate MergeOne(s: State, s': State, nn: NamespacedName) {
    && nn in Left(s)
    && s' == s.(entries := Patch(s.entries, OrEmpty(Left(s)[nn].previous), OrEmpty(Left(s)[nn].current)),
                phase := Merging(Left(s) - {nn}, s.phase.found))
  }

  ghost predicate TakeTimes(s: State, s': State) {
    && s.phase.Merging? && s.phase.left == map[]
    && s' == s.(phase := Idle, times := map[], ledger := Deliver(s.ledger, s.times))
  }

  // ---------- invariants ----------

  ghost predicate NormalAt(slices: ServiceSlices, infos: SliceInfos, k: string) {
    k in slices && k in infos ==> IsNormal(slices[k], false, infos[k])
  }

  /** The infos are normal forms of exactly these slices. */
  ghost predicate NormalOf(slices: ServiceSlices, infos: SliceInfos) {
    slices.Keys == infos.Keys && forall k :: NormalAt(slices, infos, k)
  }

  /** Pending laid over applied is the latest slices, and applied is the slices the last checkout saw. */
  ghost predicate Cached(t: SliceTracker, seen: ServiceSlices, latest: ServiceSlices) {
    AppliedLive(t) && NormalOf(latest, Overlay(t)) && NormalOf(seen, t.applied)
  }

  /** The part of the map is a rendering of the applied slices, or of those applied before a change that is checked
      out but not merged yet and that leads to a rendering of the applied ones. */
  ghost predicate Patched(node: Node, nn: NamespacedName, t: SliceTracker, left: EndpointItems, found: Trackers,
                          part: EndpointEntries) {
    if nn in left then
      && IsFlight(node, nn, TrackerAt(found, nn), left[nn])
      && Overlay(TrackerAt(found, nn)) == t.applied
      && IsRendering(node, nn, TrackerAt(found, nn).applied, part)
    else
      IsRendering(node, nn, t.applied, part)
  }

  function Found(s: State): Trackers {
    if s.phase.Merging? then s.phase.found else map[]
  }

  ghost predicate Chained(node: Node, s: State, nn: NamespacedName)
    requires s.history != [] && s.seenAt < |s.history|
  {
    && Cached(TrackerAt(s.trackers, nn), SlicesAt(s.history[s.seenAt], nn), SlicesAt(Latest(s), nn))
    && Patched(node, nn, TrackerAt(s.trackers, nn), Left(s), Found(s), Part(s.entries, nn))
  }

  ghost predicate Inv(node: Node, s: State) {
    && s.history != [] && s.seenAt < |s.history|
    && (forall nn :: Chained(node, s, nn))
    && Conserved(s.ledger, s.times) && NoneDropped(s.ledger)
  }

  lemma StartInv(node: Node)
    ensures Inv(node, START)
  {
    forall nn ensures Chained(node, START, nn) && Balanced(EMPTY_LEDGER, map[], nn) && Truthful(EMPTY_LEDGER, nn) {
      EmptyRendering(node, nn);
      assert Part<seq<Endpoint>>(map[], nn) == map[];
    }
  }

  lemma PendKeepsCached(t: SliceTracker, seen: ServiceSlices, latest: ServiceSlices, slice: Slice, remove: bool,
                        info: SliceInfo)
    requires Cached(t, seen, latest) && IsNormal(slice, remove, info)
    ensures Cached(Pend(t, slice.name, info), seen, Observed(latest, slice.name, if remove then None else Some(slice)))
  {
    PendOverlay(t, slice.name, info);
    var infos, current := Set(Overlay(t), slice.name, info), if remove then None else Some(slice);
    forall k ensures NormalAt(Observed(latest, slice.name, current), infos, k) {
      assert NormalAt(latest, Overlay(t), k);
    }
  }

  lemma ObserveKeepsTimes(s: State, s': State, slice: Slice, remove: bool, info: SliceInfo, changed: bool)
    requires Observe(s, s', slice, remove, info, changed) && Conserved(s.ledger, s.times) && NoneDropped(s.ledger)
    ensures Conserved(s'.ledger, s'.times) && NoneDropped(s'.ledger)
  {
    var nn := EndpointTracker.SliceTarget(slice).value;
    var ts := if changed then EndpointTracker.EventTimes(slice.triggerTime, remove) else [];
    RecordConserves(s.ledger, s.times, nn, ts);
    forall m ensures Balanced(s'.ledger, s'.times, m) && Truthful(s'.ledger, m) {
      assert Balanced(s'.ledger, Append(s.times, nn, ts), m) && Truthful(s'.ledger, m);
      assert Get(s'.times, m) == Get(Append(s.times, nn, ts), m);
    }
  }

  lemma PatchedFrame(node: Node, nn: NamespacedName, t: SliceTracker, t': SliceTracker, left: EndpointItems,
                     found: Trackers, part: EndpointEntries)
    requires Patched(node, nn, t, left, found, part) && t'.applied == t.applied
    ensures Patched(node, nn, t', left, found, part)
  {
  }

  lemma ObserveKeepsAt(node: Node, s: State, s': State, slice: Slice, remove: bool, info: SliceInfo, changed: bool,
                       m: NamespacedName)
    requires s.history != [] && s.seenAt < |s.history|
    requires Chained(node, s, m) && Observe(s, s', slice, remove, info, changed)
    ensures Chained(node, s', m)
  {
    var t, t' := TrackerAt(s.trackers, m), TrackerAt(s'.trackers, m);
    if Some(m) == EndpointTracker.SliceTarget(slice) {
      PendKeepsCached(t, SlicesAt(s.history[s.seenAt], m), SlicesAt(Latest(s), m), slice, remove, info);
    } else {
      assert t' == t && SlicesAt(Latest(s'), m) == SlicesAt(Latest(s), m);
    }
    PatchedFrame(node, m, t, t', Left(s), Found(s), Part(s.entries, m));
  }

  lemma ObserveKeeps(node: Node, s: State, s': State, slice: Slice, remove: bool, info: SliceInfo, changed: bool)
    requires Inv(node, s) && Observe(s, s', slice, remove, info, changed)
    ensures Inv(node, s')
  {
    ObserveKeepsTimes(s, s', slice, remove, info, changed);
    forall m ensures Chained(node, s', m) {
      assert Chained(node, s, m);
      ObserveKeepsAt(node, s, s', slice, remove, info, changed, m);
    }
  }

  /** An event that leaves something pending either reports a change or found something pending already. */
  lemma ObserveReports(s: State, s': State, slice: Slice, remove: bool, info: SliceInfo, changed: bool)
    requires Observe(s, s', slice, remove, info, changed) && Dirty(s'.trackers)
    ensures changed || Dirty(s.trackers)
  {
    var nn :| nn in s'.trackers && s'.trackers[nn].pending != map[];
    if !changed {
      assert nn in s.trackers && s.trackers[nn].pending != map[];
    }
  }

  lemma OverlayOfClean(t: SliceTracker)
    requires t.pending == map[]
    ensures Overlay(t) == t.applied
  {
  }

  lemma CheckoutKeepsAt(node: Node, s: State, s': State, flight: EndpointItems, nn: NamespacedName)
    requires s.history != [] && s.seenAt < |s.history| && Chained(node, s, nn) && Checkout(node, s, s', flight)
    ensures Chained(node, s', nn)
  {
    var t, t' := TrackerAt(s.trackers, nn), TrackerAt(s'.trackers, nn);
    OverlayOfClean(t');
    if t.pending == map[] {
      OverlayOfClean(t);
    }
    assert t'.applied == Overlay(t);
  }

  lemma CheckoutKeeps(node: Node, s: State, s': State, flight: EndpointItems)
    requires Inv(node, s) && Checkout(node, s, s', flight)
    ensures Inv(node, s') && !Dirty(s'.trackers)
  {
    forall nn ensures Chained(node, s', nn) {
      assert Chained(node, s, nn);
      CheckoutKeepsAt(node, s, s', flight, nn);
    }
  }

  /** unmerge deletes exactly the keys merged last time, although previous was rendered afresh, possibly in another
      order than the rendering in the map. */
  lemma UnmergeIsExact(node: Node, s: State, nn: NamespacedName)
    requires Inv(node, s) && nn in Left(s)
    ensures OrEmpty(Left(s)[nn].previous).Keys == Part(s.entries, nn).Keys
  {
    assert Chained(node, s, nn);
    RenderingsAgree(node, nn, TrackerAt(Found(s), nn).applied, Left(s)[nn].previous.value, Part(s.entries, nn));
  }

  lemma MergeOneKeeps(node: Node, s: State, s': State, nn: NamespacedName)
    requires Inv(node, s) && MergeOne(s, s', nn)
    ensures Inv(node, s')
  {
    assert Chained(node, s, nn);
    var previous, current := OrEmpty(Left(s)[nn].previous), OrEmpty(Left(s)[nn].current);
    UnmergeIsExact(node, s, nn);
    RenderingKeyed(node, nn, Overlay(TrackerAt(Found(s), nn)), current);
    PatchPart(s.entries, previous, current, nn);
    forall m ensures Chained(node, s', m) {
      assert Chained(node, s, m);
    }
  }

  lemma TakeTimesKeeps(node: Node, s: State, s': State)
    requires Inv(node, s) && TakeTimes(s, s')
    ensures Inv(node, s')
  {
    DeliverConserves(s.ledger, s.times);
    forall nn ensures Chained(node, s', nn) {
      assert Chained(node, s, nn);
    }
  }

  // ---------- what the invariants give ----------

  ghost predicate RendersSlices(node: Node, nn: NamespacedName, slices: ServiceSlices, part: EndpointEntries) {
    exists infos :: NormalOf(slices, infos) && IsRendering(node, nn, infos, part)
  }

  /** Every part of the map is a rendering of the slices of its service. */
  ghost predicate RendersAll(node: Node, objects: Objects, entries: EndpointEntries) {
    forall nn :: RendersSlices(node, nn, SlicesAt(objects, nn), Part(entries, nn))
  }

  /** Once its changes are merged, an apply has brought every part of the map to a rendering of the slices as of its
      checkout, whatever events came since; with nothing pending either, of the latest slices. */
  lemma MapIsRendered(node: Node, s: State)
    requires Inv(node, s) && Left(s) == map[]
    ensures RendersAll(node, s.history[s.seenAt], s.entries)
    ensures !Dirty(s.trackers) ==> RendersAll(node, Latest(s), s.entries)
  {
    forall nn
      ensures RendersSlices(node, nn, SlicesAt(s.history[s.seenAt], nn), Part(s.entries, nn))
      ensures !Dirty(s.trackers) ==> RendersSlices(node, nn, SlicesAt(Latest(s), nn), Part(s.entries, nn))
    {
      assert Chained(node, s, nn);
      var t := TrackerAt(s.trackers, nn);
      if !Dirty(s.trackers) {
        OverlayOfClean(t);
      }
    }
  }

  /** Where ports and addresses of each slice are distinct and contributions agree, the part is determined. */
  lemma RenderedPartUnique(node: Node, nn: NamespacedName, slices: ServiceSlices, infos: SliceInfos,
                           part: EndpointEntries, part': EndpointEntries)
    requires DistinctlyKeyed(slices) && NormalOf(slices, infos) && Agreeing(node, nn, infos)
    requires RendersSlices(node, nn, slices, part) && RendersSlices(node, nn, slices, part')
    ensures part == part'
  {
    var infos1 :| NormalOf(slices, infos1) && IsRendering(node, nn, infos1, part);
    var infos2 :| NormalOf(slices, infos2) && IsRendering(node, nn, infos2, part');
    NormalOfUnique(slices, infos, infos1);
    NormalOfUnique(slices, infos, infos2);
    RenderingUnique(node, nn, infos, part, part');
  }

  ghost predicate DistinctlyKeyed(slices: ServiceSlices) {
    forall k | k in slices ::
      DistinctKeys(PortLe, slices[k].ports) && DistinctKeys(AddressLe, ReadyEndpoints(slices[k].endpoints))
  }

  lemma NormalOfUnique(slices: ServiceSlices, infos: SliceInfos, infos': SliceInfos)
    requires DistinctlyKeyed(slices) && NormalOf(slices, infos) && NormalOf(slices, infos')
    ensures infos == infos'
  {
    forall k | k in slices ensures infos[k] == infos'[k] {
      assert NormalAt(slices, infos, k) && NormalAt(slices, infos', k);
      NormalFormUnique(slices[k], slices[k], false, infos[k], infos'[k]);
    }
  }
}
