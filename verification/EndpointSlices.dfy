/** controller/endpointsslice.go: the cache of applied and pending slices, and the rendering of the slices of a service
    into an endpoints map. */
module EndpointSlices {
  import opened Api
  import opened Endpoints
  import opened Sorting
  import opened Triggers

  datatype SlicePort = SlicePort(name: Option<string>, port: Option<nat>, protocol: Protocol)

  type Topology = Option<map<string, string>>

  datatype SliceEndpoint = SliceEndpoint(addresses: seq<string>, topology: Topology, ready: Option<bool>)

  /** An EndpointSlice object; service is its service-name label. */
  datatype Slice = Slice(namespace: string, name: string, service: Option<string>, addressType: string,
                         ports: seq<SlicePort>, endpoints: seq<SliceEndpoint>, triggerTime: Option<Time>)

  datatype EndpointInfo = EndpointInfo(addresses: seq<string>, topology: Topology)

  datatype SliceInfo = SliceInfo(ports: seq<SlicePort>, endpoints: seq<EndpointInfo>, remove: bool)

  type SliceInfos = map<string, SliceInfo>

  const HOSTNAME_LABEL := "kubernetes.io/hostname"

  // ---------- the normal form of a slice ----------

  function PortNumber(p: SlicePort): nat {
    if p.port.Some? then p.port.value else 0
  }

  // The order byPort: not Less(q, p).
  predicate PortLe(p: SlicePort, q: SlicePort) {
    PortNumber(p) <= PortNumber(q)
  }

  // strings.Join(addresses, ",")
  function Joined(addresses: seq<string>): string {
    if |addresses| == 0 then ""
    else if |addresses| == 1 then addresses[0]
    else addresses[0] + "," + Joined(addresses[1..])
  }

  // The order byAddress.
  predicate AddressLe(e: EndpointInfo, f: EndpointInfo) {
    !StringLess(Joined(f.addresses), Joined(e.addresses))
  }

  // The order byIP, which compares endpoint strings.
  predicate EndpointLe(e: Endpoint, f: Endpoint) {
    !StringLess(f.String(), e.String())
  }

  lemma SortOrders()
    ensures TotalPreorder(PortLe) && TotalPreorder(AddressLe) && TotalPreorder(EndpointLe)
  {
    forall e, f ensures AddressLe(e, f) || AddressLe(f, e) {
      StringLessTotal(Joined(e.addresses), Joined(f.addresses));
    }
    forall e, f, g | AddressLe(e, f) && AddressLe(f, g) ensures AddressLe(e, g) {
      StringLessTransitive(Joined(e.addresses), Joined(f.addresses), Joined(g.addresses));
    }
    forall e, f ensures EndpointLe(e, f) || EndpointLe(f, e) {
      StringLessTotal(e.String(), f.String());
    }
    forall e, f, g | EndpointLe(e, f) && EndpointLe(f, g) ensures EndpointLe(e, g) {
      StringLessTransitive(e.String(), f.String(), g.String());
    }
  }

  function ReadyEndpoints(endpoints: seq<SliceEndpoint>): seq<EndpointInfo> {
    if endpoints == [] then []
    else
      var last := endpoints[|endpoints| - 1];
      ReadyEndpoints(endpoints[..|endpoints| - 1])
      + if last.ready == Some(false) then [] else [EndpointInfo(last.addresses, last.topology)]
  }

  /** sort.Sort is not stable, so slices with equal keys may have several normal forms. */
  ghost predicate IsNormal(slice: Slice, remove: bool, info: SliceInfo) {
    && info.remove == remove
    && IsSortOf(PortLe, slice.ports, info.ports)
    && IsSortOf(AddressLe, if remove then [] else ReadyEndpoints(slice.endpoints), info.endpoints)
  }

  /** Sorting two or more ports dereferences their numbers. */
  predicate PortsSortable(slice: Slice) {
    |slice.ports| <= 1 || forall p | p in slice.ports :: p.port.Some?
  }

  /** Slices that are permutations of each other have one normal form, provided equal port numbers and equal joined
      addresses belong to equal ports and equal endpoints. */
  lemma NormalFormUnique(s: Slice, s': Slice, remove: bool, info: SliceInfo, info': SliceInfo)
    requires IsNormal(s, remove, info) && IsNormal(s', remove, info')
    requires multiset(s.ports) == multiset(s'.ports) && DistinctKeys(PortLe, s.ports)
    requires !remove ==> multiset(ReadyEndpoints(s.endpoints)) == multiset(ReadyEndpoints(s'.endpoints))
    requires !remove ==> DistinctKeys(AddressLe, ReadyEndpoints(s.endpoints))
    ensures info == info'
  {
    SameElements(s.ports, info.ports);
    SortIsUnique(PortLe, info.ports, info'.ports);
    if !remove {
      SameElements(ReadyEndpoints(s.endpoints), info.endpoints);
    }
    SortIsUnique(AddressLe, info.endpoints, info'.endpoints);
  }

  // ---------- the normal form in terms of the slice ----------

  /** The i-th endpoint of the slice is ready, or of unknown readiness, and is kept as x. */
  predicate KeptAs(slice: Slice, i: nat, x: EndpointInfo)
    requires i < |slice.endpoints|
  {
    var e := slice.endpoints[i];
    (e.ready.None? || e.ready.value) && e.addresses == x.addresses && e.topology == x.topology
  }

  ghost function Keeping(slice: Slice, n: nat, x: EndpointInfo): set<nat>
    requires n <= |slice.endpoints|
  {
    set i: nat | i < n && KeptAs(slice, i, x)
  }

  /** The ports are those of the slice, by number; the endpoints are those not known to be unready, as often as they
      occur, by their joined addresses. A removal has none. */
  ghost predicate ShowsSlice(slice: Slice, remove: bool, info: SliceInfo) {
    && info.remove == remove && multiset(info.ports) == multiset(slice.ports)
    && (forall i, j | 0 <= i < j < |info.ports| && info.ports[i].port.Some? && info.ports[j].port.Some? ::
          info.ports[i].port.value <= info.ports[j].port.value)
    && (forall x :: multiset(info.endpoints)[x] == if remove then 0 else |Keeping(slice, |slice.endpoints|, x)|)
    && (forall i, j | 0 <= i < j < |info.endpoints| ::
          !StringLess(Joined(info.endpoints[j].addresses), Joined(info.endpoints[i].addresses)))
  }

  lemma KeepingStep(slice: Slice, n: nat, x: EndpointInfo)
    requires n < |slice.endpoints|
    ensures |Keeping(slice, n + 1, x)| == |Keeping(slice, n, x)| + if KeptAs(slice, n, x) then 1 else 0
  {
    assert Keeping(slice, n + 1, x) == Keeping(slice, n, x) + if KeptAs(slice, n, x) then {n} else {};
  }

  lemma ReadyStep(slice: Slice, n: nat, x: EndpointInfo)
    requires n < |slice.endpoints|
    ensures multiset(ReadyEndpoints(slice.endpoints[..n + 1]))[x]
         == multiset(ReadyEndpoints(slice.endpoints[..n]))[x] + if KeptAs(slice, n, x) then 1 else 0
  {
    var e := slice.endpoints[n];
    assert slice.endpoints[..n + 1][..n] == slice.endpoints[..n];
    assert e.ready == Some(false) <==> e.ready.Some? && !e.ready.value;
  }

  lemma {:induction false} ReadyMultiplicity(slice: Slice, n: nat, x: EndpointInfo)
    requires n <= |slice.endpoints|
    ensures multiset(ReadyEndpoints(slice.endpoints[..n]))[x] == |Keeping(slice, n, x)|
  {
    if n == 0 {
      assert Keeping(slice, 0, x) == {};
    } else {
      var m := n - 1;
      ReadyMultiplicity(slice, m, x);
      KeepingStep(slice, m, x);
      ReadyStep(slice, m, x);
    }
  }

  lemma NormalShowsSlice(slice: Slice, remove: bool, info: SliceInfo)
    requires IsNormal(slice, remove, info)
    ensures ShowsSlice(slice, remove, info)
  {
    forall i, j | 0 <= i < j < |info.ports| ensures PortLe(info.ports[i], info.ports[j]) {
      assert Ordered(PortLe, info.ports, i, j);
    }
    forall i, j | 0 <= i < j < |info.endpoints| ensures AddressLe(info.endpoints[i], info.endpoints[j]) {
      assert Ordered(AddressLe, info.endpoints, i, j);
    }
    assert slice.endpoints[..|slice.endpoints|] == slice.endpoints;
    forall x ensures multiset(info.endpoints)[x] == if remove then 0 else |Keeping(slice, |slice.endpoints|, x)| {
      ReadyMultiplicity(slice, |slice.endpoints|, x);
    }
  }

  lemma {:induction false} JoinedSnoc(xs: seq<string>, x: string)
    ensures Joined(xs + [x]) == if xs == [] then x else Joined(xs) + "," + x
  {
    if |xs| <= 1 {
    } else {
      assert (xs + [x])[1..] == xs[1..] + [x];
      JoinedSnoc(xs[1..], x);
    }
  }

  method NewEndpointSliceInfo(slice: Slice, remove: bool) returns (info: SliceInfo)
    requires PortsSortable(slice)
    ensures IsNormal(slice, remove, info) && ShowsSlice(slice, remove, info)
  {
    SortOrders();
    var ports := Sort(PortLe, slice.ports);
    var endpoints: seq<EndpointInfo> := [];
    if !remove {
      for i := 0 to |slice.endpoints|
        invariant endpoints == ReadyEndpoints(slice.endpoints[..i])
      {
        var endpoint := slice.endpoints[i];
        assert slice.endpoints[..i + 1][..i] == slice.endpoints[..i];
        if endpoint.ready.None? || endpoint.ready.value {
          endpoints := endpoints + [EndpointInfo(endpoint.addresses, endpoint.topology)];
        }
      }
      assert slice.endpoints[..|slice.endpoints|] == slice.endpoints;
      endpoints := Sort(AddressLe, endpoints);
    }
    info := SliceInfo(ports, endpoints, remove);
    NormalShowsSlice(slice, remove, info);
  }

  // ---------- applied and pending slices of one service ----------

  datatype SliceTracker = SliceTracker(applied: SliceInfos, pending: SliceInfos)

  const EMPTY_TRACKER := SliceTracker(map[], map[])

  predicate InfoChanged(t: SliceTracker, key: string, info: SliceInfo) {
    if key in t.pending then info != t.pending[key]
    else if key in t.applied then info != t.applied[key]
    else !info.remove
  }

  function Pend(t: SliceTracker, key: string, info: SliceInfo): SliceTracker {
    if InfoChanged(t, key, info) then t.(pending := t.pending[key := info]) else t
  }

  /** The slices as they will be once pending is applied, a pending removal meaning absence. */
  function Overlay(t: SliceTracker): SliceInfos {
    map k | k in t.applied.Keys + t.pending.Keys && !(k in t.pending && t.pending[k].remove) ::
      if k in t.pending then t.pending[k] else t.applied[k]
  }

  ghost predicate AppliedLive(t: SliceTracker) {
    forall k | k in t.applied :: !t.applied[k].remove
  }

  function Set(infos: SliceInfos, key: string, info: SliceInfo): SliceInfos {
    if info.remove then infos - {key} else infos[key := info]
  }

  /** An update moves the overlay to the new slice. It reports a change exactly when the overlay moved, or when a
      slice pending removal is removed once more in a different form. */
  lemma PendOverlay(t: SliceTracker, key: string, info: SliceInfo)
    requires AppliedLive(t)
    ensures Overlay(Pend(t, key, info)) == Set(Overlay(t), key, info)
    ensures InfoChanged(t, key, info) <==>
      Overlay(Pend(t, key, info)) != Overlay(t)
      || (key in t.pending && t.pending[key].remove && info.remove && info != t.pending[key])
  {
    var o, o' := Overlay(t), Overlay(Pend(t, key, info));
    assert o'.Keys == Set(o, key, info).Keys;
    if InfoChanged(t, key, info) {
      assert key in o <==> (if key in t.pending then !t.pending[key].remove else key in t.applied);
      assert key in o' <==> !info.remove;
    }
  }

  /** Re-delivering a slice in permuted form reports no change. */
  lemma RedeliveryUnchanged(t: SliceTracker, s: Slice, s': Slice, info: SliceInfo, info': SliceInfo)
    requires IsNormal(s, false, info) && IsNormal(s', false, info') && s.name == s'.name
    requires multiset(s.ports) == multiset(s'.ports) && DistinctKeys(PortLe, s.ports)
    requires multiset(ReadyEndpoints(s.endpoints)) == multiset(ReadyEndpoints(s'.endpoints))
    requires DistinctKeys(AddressLe, ReadyEndpoints(s.endpoints))
    ensures !InfoChanged(Pend(t, s.name, info), s'.name, info')
  {
    NormalFormUnique(s, s', false, info, info');
  }
}
