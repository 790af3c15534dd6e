/** EndpointChangeTracker, in Endpoints mode (items) and in EndpointSlice mode (endpointSliceCache), and the update of
    the endpoints map from it. */
module EndpointTracker {
  import opened Api
  import opened PortMaps
  import opened ChangeTracking
  import opened Triggers
  import opened Endpoints
  import opened EndpointSlices
  import opened Rendering
  import opened SliceCache

  const SUPPORTED_ADDRESS_TYPES: set<string> := {"IP", "IPv4", "IPv6"}

  /** The trigger time an event records: none for a deletion, whose annotation is that of an earlier update. */
  function EventTimes(triggerTime: Option<Time>, deleted: bool): seq<Time> {
    if triggerTime.Some? && !deleted then [triggerTime.value] else []
  }

  function Noted(times: Times, nn: NamespacedName, ts: seq<Time>): Times {
    if ts == [] then times else Append(times, nn, ts)
  }

  /** Events that cancelled each other out leave no trigger times behind. */
  function KeptTimes(times: Times, nn: NamespacedName, items: EndpointItems): Times {
    if nn in items then times else times - {nn}
  }

  /** The slice has a supported address type, names of its own, and the label of this service. */
  predicate BelongsTo(slice: Slice, nn: NamespacedName) {
    && (slice.addressType == "IP" || slice.addressType == "IPv4" || slice.addressType == "IPv6")
    && slice.namespace != "" && slice.name != "" && nn.name != ""
    && slice.namespace == nn.namespace && slice.service == Some(nn.name)
  }

  /** The service a slice event is filed under, or None when the event is ignored. */
  function SliceTarget(slice: Slice): (r: Option<NamespacedName>)
    ensures forall nn :: r == Some(nn) <==> BelongsTo(slice, nn)
  {
    if slice.addressType in SUPPORTED_ADDRESS_TYPES then CacheKey(slice) else None
  }

  /** Times are added at the end for this object, or all of its times are dropped; others are left alone. */
  ghost predicate TimesFollow(times: Times, times': Times, nn: NamespacedName, added: seq<Time>, dropped: bool) {
    && (forall m | m != nn :: Get(times', m) == Get(times, m))
    && Get(times', nn) == (if dropped then [] else Get(times, nn) + added)
  }

  class EndpointChangeTracker {
    const node: Node
    var items: EndpointItems
    var lastChangeTriggerTimes: Times
    const endpointSliceCache: EndpointSliceCache?

    constructor (node: Node, endpointSlicesEnabled: bool)
      ensures this.node == node && items == map[] && lastChangeTriggerTimes == map[]
      ensures endpointSlicesEnabled <==> endpointSliceCache != null
      ensures endpointSlicesEnabled ==>
        fresh(endpointSliceCache) && endpointSliceCache.node == node && endpointSliceCache.trackers == map[]
    {
      this.node := node;
      items := map[];
      lastChangeTriggerTimes := map[];
      if endpointSlicesEnabled {
        var cache := new EndpointSliceCache(node);
        endpointSliceCache := cache;
      } else {
        endpointSliceCache := null;
      }
    }

    method Update(previous: Option<EndpointsObject>, current: Option<EndpointsObject>) returns (changed: bool)
      modifies this
      ensures previous.None? && current.None? ==>
        items == old(items) && lastChangeTriggerTimes == old(lastChangeTriggerTimes) && !changed
      ensures previous.Some? || current.Some? ==>
        var o := (if current.Some? then current else previous).value;
        && items == Track(old(items), o.name, EndpointsToMap(node, previous), EndpointsToMap(node, current))
        && lastChangeTriggerTimes
             == KeptTimes(Noted(old(lastChangeTriggerTimes), o.name, EventTimes(o.triggerTime, current.None?)),
                          o.name, items)
        && changed == (items != map[])
      ensures previous.Some? || current.Some? ==>
        var o := (if current.Some? then current else previous).value;
        TimesFollow(old(lastChangeTriggerTimes), lastChangeTriggerTimes, o.name,
                    if current.Some? && current.value.triggerTime.Some? then [current.value.triggerTime.value] else [],
                    o.name !in items)
    {
      var endpoints := current;
      if endpoints.None? {
        endpoints := previous;
      }
      if endpoints.None? {
        return false;
      }
      var nn := endpoints.value.name;
      items := Accumulate(items, nn, previous, current);
      if endpoints.value.triggerTime.Some? && current.Some? {
        lastChangeTriggerTimes := Append(lastChangeTriggerTimes, nn, [endpoints.value.triggerTime.value]);
      }
      if nn !in items {
        lastChangeTriggerTimes := lastChangeTriggerTimes - {nn};
      }
      changed := items != map[];  // len(items) > 0
    }

    // The steps of Update that concern the pair of previous and current state.
    method Accumulate(pending: EndpointItems, nn: NamespacedName, previous: Option<EndpointsObject>,
                      current: Option<EndpointsObject>)
      returns (pending': EndpointItems)
      ensures pending' == Track(pending, nn, EndpointsToMap(node, previous), EndpointsToMap(node, current))
    {
      pending' := pending;
      if nn !in pending' {
        var before := EndpointsToEndpointsMap(node, previous);
        pending' := pending'[nn := Change(before, None)];
      }
      var after := EndpointsToEndpointsMap(node, current);
      pending' := pending'[nn := pending'[nn].(current := after)];
      if pending'[nn].previous == pending'[nn].current {
        pending' := pending' - {nn};
      }
    }

    method EndpointSliceUpdate(slice: Slice, removeSlice: bool) returns (changed: bool, ghost info: SliceInfo)
      requires endpointSliceCache != null && (SliceTarget(slice).Some? ==> PortsSortable(slice))
      modifies this, endpointSliceCache
      ensures items == old(items)
      ensures SliceTarget(slice).None? ==>
        && !changed
        && lastChangeTriggerTimes == old(lastChangeTriggerTimes)
        && endpointSliceCache.trackers == old(endpointSliceCache.trackers)
      ensures SliceTarget(slice).Some? ==>
        var nn := SliceTarget(slice).value;
        var t := TrackerAt(old(endpointSliceCache.trackers), nn);
        && IsNormal(slice, removeSlice, info)
        && endpointSliceCache.trackers == old(endpointSliceCache.trackers)[nn := Pend(t, slice.name, info)]
        && changed == InfoChanged(t, slice.name, info)
        && lastChangeTriggerTimes
             == Noted(old(lastChangeTriggerTimes), nn,
                      if changed then EventTimes(slice.triggerTime, removeSlice) else [])
        && TimesFollow(old(lastChangeTriggerTimes), lastChangeTriggerTimes, nn,
                       if changed && !removeSlice && slice.triggerTime.Some? then [slice.triggerTime.value] else [],
                       false)
    {
      info := SliceInfo([], [], removeSlice);
      if slice.addressType !in SUPPORTED_ADDRESS_TYPES {
        return false, info;
      }
      var key := CacheKey(slice);
      if key.None? {
        return false, info;
      }
      changed, info := endpointSliceCache.UpdatePending(slice, removeSlice);
      if changed {
        if slice.triggerTime.Some? && !removeSlice {
          lastChangeTriggerTimes := Append(lastChangeTriggerTimes, key.value, [slice.triggerTime.value]);
        }
      }
    }

    method CheckoutChanges()
      returns (changes: seq<Change<seq<Endpoint>>>, ghost flight: EndpointItems, ghost names: seq<NamespacedName>)
      modifies this, endpointSliceCache
      ensures Lists(flight, names, changes)
      ensures lastChangeTriggerTimes == old(lastChangeTriggerTimes)
      ensures endpointSliceCache == null ==> flight == old(items) && items == map[]
      ensures endpointSliceCache != null ==>
        && items == old(items)
        && endpointSliceCache.trackers == CheckedOut(old(endpointSliceCache.trackers))
        && IsCheckout(endpointSliceCache.node, old(endpointSliceCache.trackers), flight)
    {
      if endpointSliceCache != null {
        changes, flight, names := endpointSliceCache.CheckoutChanges();
        return;
      }
      changes, flight, names := [], map[], [];
      var all := items;
      var todo := all.Keys;
      while todo != {}
        invariant todo <= all.Keys
        invariant flight == all - todo && Lists(flight, names, changes)
        invariant lastChangeTriggerTimes == old(lastChangeTriggerTimes)
      {
        var nn :| nn in todo;
        ListsSnoc(flight, names, changes, nn, all[nn]);
        changes, flight, names := changes + [all[nn]], flight[nn := all[nn]], names + [nn];
        todo := todo - {nn};
      }
      items := map[];
    }

    method CheckoutTriggerTimes(into: Times) returns (out: Times)
      modifies this
      ensures out == Handed(into, old(lastChangeTriggerTimes))
      ensures lastChangeTriggerTimes == map[] && items == old(items)
    {
      out := into;
      var held := lastChangeTriggerTimes;
      var todo := held.Keys;
      while todo != {}
        invariant todo <= held.Keys
        invariant out.Keys == into.Keys + (held.Keys - todo)
        invariant forall nn | nn in out :: out[nn] == Get(into, nn) + if nn in todo then [] else Get(held, nn)
      {
        var nn :| nn in todo;
        if nn !in out {
          out := out[nn := held[nn]];
        } else {
          out := out[nn := out[nn] + held[nn]];
        }
        todo := todo - {nn};
      }
      lastChangeTriggerTimes := map[];
    }
  }

  /** EndpointsMap.Update when no event comes between its two locked sections; EndpointsRun and SlicesRun treat the
      interleaved case. */
  method UpdateEndpointsMap(em: EndpointsMap, ect: EndpointChangeTracker)
    returns (staleEndpoints: seq<ServiceEndpoint>, staleServices: seq<ServicePortName>, times: Times,
             localIPSizes: map<NamespacedName, nat>, ghost flight: EndpointItems)
    requires ect.endpointSliceCache == null ==> Endpoints.ItemsKeyed(ect.items)
    modifies em, ect, ect.endpointSliceCache
    ensures ect.endpointSliceCache == null ==> flight == old(ect.items) && ect.items == map[]
    ensures ect.endpointSliceCache != null ==>
      && ect.endpointSliceCache.trackers == CheckedOut(old(ect.endpointSliceCache.trackers))
      && IsCheckout(ect.endpointSliceCache.node, old(ect.endpointSliceCache.trackers), flight)
    ensures PatchedBy(old(em.entries), flight, em.entries)
    ensures ItemsFit(old(em.entries), flight) ==>
      forall x :: x in staleEndpoints <==> StaleEndpoint(old(em.entries), em.entries, x)
    ensures ItemsFit(old(em.entries), flight) ==>
      forall spn :: spn in staleServices <==> StaleService(old(em.entries), em.entries, spn)
    ensures times == old(ect.lastChangeTriggerTimes) && ect.lastChangeTriggerTimes == map[]
    ensures forall nn | nn in localIPSizes :: localIPSizes[nn] == |LocalAddresses(em.entries, nn)| > 0
    ensures forall nn | nn !in localIPSizes :: LocalAddresses(em.entries, nn) == {}
  {
    var changes;
    ghost var names;
    changes, flight, names := ect.CheckoutChanges();
    if ect.endpointSliceCache != null {
      FlightKeyed(ect.endpointSliceCache.node, old(ect.endpointSliceCache.trackers), flight);
    }
    staleEndpoints, staleServices := em.ApplyChanges(changes, flight, names);
    times := ect.CheckoutTriggerTimes(map[]);
    HandedIntoEmpty(old(ect.lastChangeTriggerTimes));
    localIPSizes := LocalIPSizes(em);
  }

  method LocalIPSizes(em: EndpointsMap) returns (sizes: map<NamespacedName, nat>)
    ensures forall nn | nn in sizes :: sizes[nn] == |LocalAddresses(em.entries, nn)| > 0
    ensures forall nn | nn !in sizes :: LocalAddresses(em.entries, nn) == {}
  {
    var localIPs := em.GetLocalEndpointIPs();
    sizes := map nn | nn in localIPs :: |localIPs[nn]|;
    forall nn
      ensures nn in localIPs ==> localIPs[nn] == LocalAddresses(em.entries, nn)
      ensures nn !in localIPs ==> LocalAddresses(em.entries, nn) == {}
    {
      assert AddressesOf(localIPs, nn) == LocalAddresses(em.entries, nn);
    }
  }

  lemma FlightKeyed(node: Node, trackers: Trackers, flight: EndpointItems)
    requires IsCheckout(node, trackers, flight)
    ensures Endpoints.ItemsKeyed(flight)
  {
    forall nn | nn in flight
      ensures Keyed(nn, OrEmpty(flight[nn].previous)) && Keyed(nn, OrEmpty(flight[nn].current))
    {
      RenderingKeyed(node, nn, trackers[nn].applied, flight[nn].previous.value);
      RenderingKeyed(node, nn, Overlay(trackers[nn]), flight[nn].current.value);
    }
  }
}
