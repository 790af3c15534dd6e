/** EndpointSliceCache: the cache of slices per service and the rendering of the slices it holds. */
module SliceCache {
  import opened Api
  import opened ChangeTracking
  import opened Endpoints
  import opened EndpointSlices
  import opened Rendering
  import opened Sorting

  type Trackers = map<NamespacedName, SliceTracker>

  function TrackerAt(trackers: Trackers, nn: NamespacedName): SliceTracker {
    if nn in trackers then trackers[nn] else EMPTY_TRACKER
  }

  function CheckedOut(trackers: Trackers): Trackers {
    map nn | nn in trackers :: SliceTracker(Overlay(trackers[nn]), map[])
  }

  /** The keys of a slice, or None where endpointSliceCacheKeys reports an error. */
  function CacheKey(slice: Slice): Option<NamespacedName> {
    if slice.service.None? || slice.service.value == "" || slice.namespace == "" || slice.name == "" then None
    else Some(NamespacedName(slice.namespace, slice.service.value))
  }

  /** The changes of a checkout: one for each service with pending slices, from a rendering of the slices applied so
      far to a rendering of the overlay. */
  ghost predicate IsCheckout(node: Node, trackers: Trackers, flight: EndpointItems) {
    && (forall nn :: nn in flight <==> nn in trackers && trackers[nn].pending != map[])
    && (forall nn | nn in flight :: IsFlight(node, nn, trackers[nn], flight[nn]))
  }

  ghost predicate IsFlight(node: Node, nn: NamespacedName, t: SliceTracker, change: Change<seq<Endpoint>>) {
    && change.previous.Some? && IsRendering(node, nn, t.applied, change.previous.value)
    && change.current.Some? && IsRendering(node, nn, Overlay(t), change.current.value)
  }

  // ---------- rendering ----------

  type Grouped = map<ServicePortName, ByIP>

  function ByIPAt(g: Grouped, spn: ServicePortName): ByIP {
    if spn in g then g[spn] else map[]
  }

  method AddEndpointsByIP(node: Node, portNum: nat, endpointsByIP: ByIP, infos: seq<EndpointInfo>) returns (r: ByIP)
    ensures r == PutAll(endpointsByIP, EndpointsOnPort(node, portNum, infos))
  {
    r := endpointsByIP;
    for i := 0 to |infos|
      invariant r == PutAll(endpointsByIP, EndpointsOnPort(node, portNum, infos[..i]))
    {
      var info := infos[i];
      ghost var es := EndpointsOnPort(node, portNum, infos[..i]);
      assert infos[..i + 1][..i] == infos[..i] && es + [] == es;
      if |info.addresses| == 0 {
        continue;
      }
      if node.WrongFamily(info.addresses[0]) {
        continue;
      }
      var isLocal := IsLocal(node, info.topology);
      var e := Endpoint(info.addresses[0], portNum, isLocal, info.topology);
      assert (es + [e])[..|es|] == es;
      if e.ip !in r || isLocal {
        r := r[e.ip := e];
      }
    }
    assert infos[..|infos|] == infos;
  }

  lemma PortStep(node: Node, nn: NamespacedName, info: SliceInfo, j: nat, spn: ServicePortName, start: ByIP,
                 before: ByIP)
    requires j < |info.ports| && before == PutAll(start, FromSlicePorts(node, nn, info.ports[..j], info.endpoints, spn))
    ensures var port := info.ports[j];
      PutAll(start, FromSlicePorts(node, nn, info.ports[..j + 1], info.endpoints, spn))
        == if !PortIgnored(port) && spn == SliceKey(nn, port)
           then PutAll(before, EndpointsOnPort(node, port.port.value, info.endpoints)) else before
  {
    var port, es := info.ports[j], FromSlicePorts(node, nn, info.ports[..j], info.endpoints, spn);
    assert info.ports[..j + 1][..j] == info.ports[..j];
    if !PortIgnored(port) && spn == SliceKey(nn, port) {
      PutAllAppend(start, es, EndpointsOnPort(node, port.port.value, info.endpoints));
    } else {
      assert es + [] == es;
    }
  }

  // The inner loop of endpointInfoByServicePort, over the ports of one slice.
  method AddSlice(node: Node, nn: NamespacedName, grouped: Grouped, info: SliceInfo) returns (r: Grouped)
    ensures forall spn :: ByIPAt(r, spn) == PutAll(ByIPAt(grouped, spn), FromSlice(node, nn, info, spn))
  {
    r := grouped;
    for j := 0 to |info.ports|
      invariant forall spn ::
        ByIPAt(r, spn) == PutAll(ByIPAt(grouped, spn), FromSlicePorts(node, nn, info.ports[..j], info.endpoints, spn))
    {
      var port := info.ports[j];
      ghost var before := r;
      if !PortIgnored(port) {
        var spn := SliceKey(nn, port);
        var byIP := AddEndpointsByIP(node, port.port.value, ByIPAt(r, spn), info.endpoints);
        r := r[spn := byIP];
      }
      forall spn
        ensures ByIPAt(r, spn)
             == PutAll(ByIPAt(grouped, spn), FromSlicePorts(node, nn, info.ports[..j + 1], info.endpoints, spn))
      {
        PortStep(node, nn, info, j, spn, ByIPAt(grouped, spn), ByIPAt(before, spn));
      }
    }
    assert info.ports[..|info.ports|] == info.ports;
  }

  method EndpointInfoByServicePort(node: Node, nn: NamespacedName, slices: SliceInfos)
    returns (grouped: Grouped, ghost order: seq<string>)
    ensures Visits(order, slices.Keys)
    ensures forall spn :: ByIPAt(grouped, spn) == PutAll(map[], FromSlices(node, nn, slices, order, spn))
  {
    grouped, order := map[], [];
    var todo := slices.Keys;
    while todo != {}
      invariant todo <= slices.Keys
      invariant Visits(order, slices.Keys - todo)
      invariant forall spn :: ByIPAt(grouped, spn) == PutAll(map[], FromSlices(node, nn, slices, order, spn))
    {
      var name :| name in todo;
      ghost var before := grouped;
      grouped := AddSlice(node, nn, grouped, slices[name]);
      forall spn
        ensures ByIPAt(grouped, spn) == PutAll(map[], FromSlices(node, nn, slices, order + [name], spn))
      {
        assert (order + [name])[..|order|] == order;
        assert ByIPAt(before, spn) == PutAll(map[], FromSlices(node, nn, slices, order, spn));
        PutAllAppend(map[], FromSlices(node, nn, slices, order, spn), FromSlice(node, nn, slices[name], spn));
      }
      order := order + [name];
      todo := todo - {name};
    }
  }

  ghost predicate OwnIPs(byIP: ByIP) {
    forall ip | ip in byIP :: byIP[ip].ip == ip
  }

  method SortedList(byIP: ByIP) returns (list: seq<Endpoint>)
    requires OwnIPs(byIP)
    ensures ListsByIP(byIP, list) && InOrder(list)
  {
    var collected: seq<Endpoint> := [];
    var todo := byIP.Keys;
    while todo != {}
      invariant todo <= byIP.Keys
      invariant Distinct(collected)
      invariant forall e | e in collected :: e.ip in byIP && e.ip !in todo && byIP[e.ip] == e
      invariant forall ip | ip in byIP && ip !in todo :: byIP[ip] in collected
    {
      var ip :| ip in todo;
      collected := collected + [byIP[ip]];
      todo := todo - {ip};
    }
    SortOrders();
    list := Sort(EndpointLe, collected);
    SortKeepsElements(collected, list);
  }

  method EndpointsMapFromEndpointInfo(grouped: Grouped) returns (r: EndpointEntries)
    requires forall spn | spn in grouped :: OwnIPs(grouped[spn])
    ensures forall spn :: spn in r <==> ByIPAt(grouped, spn) != map[]
    ensures forall spn | spn in r :: ListsByIP(ByIPAt(grouped, spn), r[spn]) && InOrder(r[spn])
  {
    r := map[];
    var todo := grouped.Keys;
    while todo != {}
      invariant todo <= grouped.Keys
      invariant forall spn :: spn in r <==> spn !in todo && ByIPAt(grouped, spn) != map[]
      invariant forall spn | spn in r :: ListsByIP(ByIPAt(grouped, spn), r[spn]) && InOrder(r[spn])
    {
      var spn :| spn in todo;
      if |grouped[spn]| > 0 {
        var list := SortedList(grouped[spn]);
        r := r[spn := list];
      }
      todo := todo - {spn};
    }
  }

  lemma EmptyGroup(es: seq<Endpoint>)
    ensures PutAll(map[], es) == map[] <==> es == []
    ensures OwnIPs(PutAll(map[], es))
  {
    PutAllDedups(es);
    if es != [] {
      assert es[0] in es;
    }
  }

  method GetEndpointsMap(node: Node, nn: NamespacedName, slices: SliceInfos) returns (r: EndpointEntries)
    ensures IsRendering(node, nn, slices, r) && ShowsSlices(node, nn, slices, r)
  {
    var grouped, order := EndpointInfoByServicePort(node, nn, slices);
    forall spn | spn in grouped ensures OwnIPs(grouped[spn]) {
      EmptyGroup(FromSlices(node, nn, slices, order, spn));
      assert ByIPAt(grouped, spn) == grouped[spn];
    }
    r := EndpointsMapFromEndpointInfo(grouped);
    forall spn ensures RendersPort(FromSlices(node, nn, slices, order, spn), r, spn) {
      EmptyGroup(FromSlices(node, nn, slices, order, spn));
      assert spn in r ==> ByIPAt(grouped, spn) == grouped[spn];
    }
    RenderingShowsSlices(node, nn, slices, r);
  }

  class EndpointSliceCache {
    const node: Node
    var trackers: Trackers

    constructor (node: Node)
      ensures this.node == node && trackers == map[]
    {
      this.node := node;
      trackers := map[];
    }

    method UpdatePending(slice: Slice, remove: bool) returns (changed: bool, ghost info: SliceInfo)
      requires CacheKey(slice).Some? ==> PortsSortable(slice)
      modifies this
      ensures CacheKey(slice).None? ==> trackers == old(trackers) && !changed
      ensures CacheKey(slice).Some? ==>
        && IsNormal(slice, remove, info)
        && trackers == old(trackers)[CacheKey(slice).value :=
             Pend(TrackerAt(old(trackers), CacheKey(slice).value), slice.name, info)]
        && changed == InfoChanged(TrackerAt(old(trackers), CacheKey(slice).value), slice.name, info)
    {
      var key := CacheKey(slice);
      if key.None? {
        return false, SliceInfo([], [], remove);
      }
      var esInfo := NewEndpointSliceInfo(slice, remove);
      info := esInfo;
      var nn := key.value;
      if nn !in trackers {
        trackers := trackers[nn := EMPTY_TRACKER];
      }
      changed := InfoChanged(trackers[nn], slice.name, esInfo);
      if changed {
        var t := trackers[nn];
        trackers := trackers[nn := t.(pending := t.pending[slice.name := esInfo])];
      }
    }

    /** Moves every pending slice to applied, in whatever order the maps are visited. */
    method CheckoutChanges()
      returns (changes: seq<Change<seq<Endpoint>>>, ghost flight: EndpointItems, ghost names: seq<NamespacedName>)
      modifies this
      ensures trackers == CheckedOut(old(trackers))
      ensures IsCheckout(node, old(trackers), flight) && Lists(flight, names, changes)
    {
      changes, flight, names := [], map[], [];
      ghost var start := trackers;
      var todo := trackers.Keys;
      while todo != {}
        invariant todo <= start.Keys
        invariant SomeCheckedOut(start, todo, trackers)
        invariant IsCheckout(node, start - todo, flight)
        invariant Lists(flight, names, changes)
      {
        var nn :| nn in todo;
        var t, change := CheckoutTracker(node, nn, trackers[nn]);
        trackers := trackers[nn := t];
        CheckoutStep(node, start, todo, flight, nn, change);
        if change.Some? {
          ListsSnoc(flight, names, changes, nn, change.value);
          changes, flight, names := changes + [change.value], flight[nn := change.value], names + [nn];
        }
        todo := todo - {nn};
      }
      assert start - todo == start;
    }
  }

  lemma CheckoutStep(node: Node, start: Trackers, todo: set<NamespacedName>, flight: EndpointItems, nn: NamespacedName,
                     change: Option<Change<seq<Endpoint>>>)
    requires todo <= start.Keys && nn in todo && IsCheckout(node, start - todo, flight)
    requires change.None? <==> start[nn].pending == map[]
    requires change.Some? ==> IsFlight(node, nn, start[nn], change.value)
    ensures nn !in flight
    ensures IsCheckout(node, start - (todo - {nn}), if change.Some? then flight[nn := change.value] else flight)
  {
    var done, flight' := start - (todo - {nn}), if change.Some? then flight[nn := change.value] else flight;
    forall m ensures m in flight' <==> m in done && done[m].pending != map[] {
      assert m in flight <==> m in start - todo && (start - todo)[m].pending != map[];
    }
    forall m | m in flight' ensures IsFlight(node, m, done[m], flight'[m]) {
      assert m in flight ==> IsFlight(node, m, (start - todo)[m], flight[m]);
    }
  }

  ghost predicate SomeCheckedOut(start: Trackers, todo: set<NamespacedName>, trackers: Trackers) {
    && trackers.Keys == start.Keys
    && forall nn | nn in start ::
         trackers[nn] == if nn in todo then start[nn] else SliceTracker(Overlay(start[nn]), map[])
  }

  method CheckoutTracker(node: Node, nn: NamespacedName, t: SliceTracker)
    returns (t': SliceTracker, change: Option<Change<seq<Endpoint>>>)
    ensures t' == SliceTracker(Overlay(t), map[])
    ensures change.None? <==> t.pending == map[]
    ensures change.Some? ==> IsFlight(node, nn, t, change.value)
  {
    if |t.pending| == 0 {
      assert Overlay(t) == t.applied;
      return t, None;
    }
    var before := GetEndpointsMap(node, nn, t.applied);
    var applied := ApplyPending(t);
    var after := GetEndpointsMap(node, nn, applied);
    return SliceTracker(applied, map[]), Some(Change(Some(before), Some(after)));
  }

  // The loop over the pending slices of one service.
  method ApplyPending(t: SliceTracker) returns (applied: SliceInfos)
    ensures applied == Overlay(t)
  {
    applied := t.applied;
    var todo := t.pending.Keys;
    while todo != {}
      invariant todo <= t.pending.Keys
      invariant forall k :: Lookup(applied, k) == Lookup(if k in todo then t.applied else Overlay(t), k)
    {
      var name :| name in todo;
      if t.pending[name].remove {
        applied := applied - {name};
      } else {
        applied := applied[name := t.pending[name]];
      }
      todo := todo - {name};
    }
    SameLookups(applied, Overlay(t));
  }

  lemma SameLookups<K, V>(m: map<K, V>, m': map<K, V>)
    requires forall k :: Lookup(m, k) == Lookup(m', k)
    ensures m == m'
  {
    forall k ensures k in m <==> k in m' {
      assert Lookup(m, k) == Lookup(m', k);
    }
    forall k | k in m ensures m[k] == m'[k] {
      assert Lookup(m, k) == Lookup(m', k);
    }
  }
}
