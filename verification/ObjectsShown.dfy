/** What the two maps show of the API objects they are made from, object by object. */
module ObjectsShown {
  import opened Api
  import opened PortMaps
  import opened Services
  import opened EndpointSide
  import Endpoints
  import EndpointSlices
  import Rendering
  import Sorting
  import V = ServicesRun
  import E = EndpointsRun
  import S = SlicesRun

  type EndpointEntries = Endpoints.EndpointEntries

  // ---------- services ----------

  /** The ports of the services that are not skipped, of either IP family; the last one with a name and protocol
      counts. */
  ghost predicate ServicesShown(objects: V.Objects, services: PortMap<ServiceInfo>) {
    && (forall k | k in services :: k.nn in objects && !objects[k.nn].skip && HasPort(objects[k.nn], k))
    && (forall nn, i | nn in objects && !objects[nn].skip :: PortIn(objects[nn], i, services))
  }

  lemma FullPart(node: Node, objects: V.Objects, nn: NamespacedName)
    requires V.Named(objects)
    ensures Part(V.FullMap(node, objects), nn) == OrEmpty(V.Rendered(node, objects, nn))
  {
    var parts := map n | n in objects :: OrEmpty(V.Rendered(node, objects, n));
    forall n | n in parts ensures Keyed(n, parts[n]) {
      V.RenderedKeyed(node, objects, n);
    }
    FlattenPart(parts, nn);
  }

  lemma ServicesAreShown(node: Node, objects: V.Objects)
    requires V.Named(objects)
    ensures ServicesShown(objects, V.FullMap(node, objects))
  {
    var services := V.FullMap(node, objects);
    forall k | k in services ensures k.nn in objects && !objects[k.nn].skip && HasPort(objects[k.nn], k) {
      FullPart(node, objects, k.nn);
      assert k in Part(services, k.nn);
      RenderingShowsService(node.AnyFamily(), Lookup(objects, k.nn));
    }
    forall nn, i | nn in objects && !objects[nn].skip ensures PortIn(objects[nn], i, services) {
      FullPart(node, objects, nn);
      RenderingShowsService(node.AnyFamily(), Some(objects[nn]));
      assert PortIn(objects[nn], i, Part(services, nn));
    }
  }

  // ---------- Endpoints objects ----------

  /** The lists have exactly the endpoints that the Endpoints object of the service gives. */
  ghost predicate PlainShown(node: Node, objects: E.Objects, entries: EndpointEntries) {
    forall spn, e :: PlainAt(node, objects, entries, spn, e)
  }

  ghost predicate PlainAt(node: Node, objects: E.Objects, entries: EndpointEntries, spn: ServicePortName,
                          e: Endpoints.Endpoint) {
    e in Endpoints.Listed(entries, spn) <==> spn.nn in objects && Endpoints.Given(node, objects[spn.nn], spn, e)
  }

  lemma FullEndpoints(node: Node, objects: E.Objects, nn: NamespacedName)
    requires E.Named(objects)
    ensures Part(E.FullMap(node, objects), nn) == OrEmpty(E.Rendered(node, objects, nn))
  {
    var parts := map n | n in objects :: OrEmpty(E.Rendered(node, objects, n));
    forall n | n in parts ensures Keyed(n, parts[n]) {
      E.RenderedKeyed(node, objects, n);
    }
    FlattenPart(parts, nn);
  }

  lemma PlainIsShown(node: Node, objects: E.Objects)
    requires E.Named(objects)
    ensures PlainShown(node, objects, E.FullMap(node, objects))
  {
    var entries := E.FullMap(node, objects);
    forall spn, e ensures PlainAt(node, objects, entries, spn, e) {
      FullEndpoints(node, objects, spn.nn);
      Endpoints.ListedPart(entries, spn);
      Endpoints.RenderingShowsEndpoints(node, Lookup(objects, spn.nn));
      if spn.nn in objects {
        assert Endpoints.ShowsEndpoint(node, objects[spn.nn], Part(entries, spn.nn), spn, e);
      }
    }
  }

  // ---------- slices ----------

  /** A port and an endpoint of the slice that is not known to be unready make e an endpoint of spn. */
  ghost predicate SliceGives(node: Node, slice: EndpointSlices.Slice, spn: ServicePortName, e: Endpoints.Endpoint) {
    exists i, j :: 0 <= i < |slice.ports| && PairOf(node, slice, slice.ports[i], j, spn, e)
  }

  ghost predicate PairOf(node: Node, slice: EndpointSlices.Slice, port: EndpointSlices.SlicePort, j: int,
                         spn: ServicePortName, e: Endpoints.Endpoint) {
    && 0 <= j < |slice.endpoints| && (slice.endpoints[j].ready.None? || slice.endpoints[j].ready.value)
    && var info := EndpointSlices.EndpointInfo(slice.endpoints[j].addresses, slice.endpoints[j].topology);
       Rendering.PairGives(node, spn.nn, port, info, spn, e)
  }

  ghost predicate SomeSliceGives(node: Node, slices: S.ServiceSlices, spn: ServicePortName, e: Endpoints.Endpoint) {
    exists k :: k in slices && SliceGives(node, slices[k], spn, e)
  }

  /** Each listed endpoint comes from a slice of the service, and what a slice gives is listed under its address, once,
      and local if any slice makes it so. */
  ghost predicate SlicedShown(node: Node, objects: S.Objects, entries: EndpointEntries) {
    forall spn: ServicePortName :: SlicedAt(node, S.SlicesAt(objects, spn.nn), Endpoints.Listed(entries, spn), spn)
  }

  ghost predicate SlicedAt(node: Node, slices: S.ServiceSlices, list: seq<Endpoints.Endpoint>, spn: ServicePortName) {
    && (forall e | e in list :: SomeSliceGives(node, slices, spn, e))
    && (forall e | SomeSliceGives(node, slices, spn, e) :: Rendering.IsListed(list, e))
    && Rendering.OnceEach(list)
  }

  lemma MemberOfNormal(slice: EndpointSlices.Slice, info: EndpointSlices.SliceInfo, x: EndpointSlices.EndpointInfo)
    requires EndpointSlices.IsNormal(slice, false, info)
    ensures x in info.endpoints <==> exists j: nat :: j < |slice.endpoints| && EndpointSlices.KeptAs(slice, j, x)
  {
    EndpointSlices.NormalShowsSlice(slice, false, info);
    var kept := EndpointSlices.Keeping(slice, |slice.endpoints|, x);
    assert x in info.endpoints <==> multiset(info.endpoints)[x] > 0;
    if j: nat :| j < |slice.endpoints| && EndpointSlices.KeptAs(slice, j, x) {
      assert j in kept;
    }
    if |kept| > 0 {
      var j :| j in kept;
    }
  }

  lemma NormalGives(node: Node, slice: EndpointSlices.Slice, info: EndpointSlices.SliceInfo, spn: ServicePortName,
                    e: Endpoints.Endpoint)
    requires EndpointSlices.IsNormal(slice, false, info)
    ensures SliceGives(node, slice, spn, e) <==> Rendering.SliceGives(node, spn.nn, info.ports, info.endpoints, spn, e)
  {
    Sorting.SameElements(slice.ports, info.ports);
    if i, j :| 0 <= i < |slice.ports| && PairOf(node, slice, slice.ports[i], j, spn, e) {
      var x := EndpointSlices.EndpointInfo(slice.endpoints[j].addresses, slice.endpoints[j].topology);
      assert EndpointSlices.KeptAs(slice, j, x);
      MemberOfNormal(slice, info, x);
      var k :| 0 <= k < |info.endpoints| && info.endpoints[k] == x;
      assert slice.ports[i] in info.ports;
      var n :| 0 <= n < |info.ports| && info.ports[n] == slice.ports[i];
      assert Rendering.PairGives(node, spn.nn, info.ports[n], info.endpoints[k], spn, e);
      assert Rendering.PortGives(node, spn.nn, info.ports[n], info.endpoints, spn, e);
    }
    if n :| 0 <= n < |info.ports| && Rendering.PortGives(node, spn.nn, info.ports[n], info.endpoints, spn, e) {
      var k :| 0 <= k < |info.endpoints| && Rendering.PairGives(node, spn.nn, info.ports[n], info.endpoints[k], spn, e);
      MemberOfNormal(slice, info, info.endpoints[k]);
      var j: nat :| j < |slice.endpoints| && EndpointSlices.KeptAs(slice, j, info.endpoints[k]);
      assert info.ports[n] in slice.ports;
      var i :| 0 <= i < |slice.ports| && slice.ports[i] == info.ports[n];
      assert PairOf(node, slice, slice.ports[i], j, spn, e);
    }
  }

  lemma SomeNormalGives(node: Node, slices: S.ServiceSlices, infos: EndpointSlices.SliceInfos, spn: ServicePortName,
                        e: Endpoints.Endpoint)
    requires S.NormalOf(slices, infos)
    ensures SomeSliceGives(node, slices, spn, e) <==> Rendering.SlicesGive(node, spn.nn, infos, spn, e)
  {
    forall k | k in slices
      ensures k in infos
      ensures SliceGives(node, slices[k], spn, e)
        <==> Rendering.SliceGives(node, spn.nn, infos[k].ports, infos[k].endpoints, spn, e)
    {
      assert S.NormalAt(slices, infos, k);
      NormalGives(node, slices[k], infos[k], spn, e);
    }
  }

  lemma SlicedIsShown(node: Node, objects: S.Objects, entries: EndpointEntries)
    requires S.RendersAll(node, objects, entries)
    ensures SlicedShown(node, objects, entries)
  {
    forall spn: ServicePortName
      ensures SlicedAt(node, S.SlicesAt(objects, spn.nn), Endpoints.Listed(entries, spn), spn)
    {
      var slices := S.SlicesAt(objects, spn.nn);
      var part := Part(entries, spn.nn);
      assert S.RendersSlices(node, spn.nn, slices, part);
      var infos :| S.NormalOf(slices, infos) && Rendering.IsRendering(node, spn.nn, infos, part);
      Rendering.RenderingShowsSlices(node, spn.nn, infos, part);
      Endpoints.ListedPart(entries, spn);
      forall e ensures SomeSliceGives(node, slices, spn, e) <==> Rendering.SlicesGive(node, spn.nn, infos, spn, e) {
        SomeNormalGives(node, slices, infos, spn, e);
      }
    }
  }

  // ---------- either mode ----------

  ghost predicate EndpointsShown(node: Node, side: Side, i: int, entries: EndpointEntries) {
    match side
    case Plain(a) => 0 <= i < |a.history| && PlainShown(node, a.history[i], entries)
    case Sliced(b) => 0 <= i < |b.history| && SlicedShown(node, b.history[i], entries)
  }

  lemma EndpointsAreShown(node: Node, side: Side, i: nat, entries: EndpointEntries)
    requires SideInv(node, side) && CalledFor(node, side, i, entries)
    ensures EndpointsShown(node, side, i, entries)
  {
    match side
    case Plain(a) => PlainIsShown(node, a.history[i]);
    case Sliced(b) => SlicedIsShown(node, b.history[i], entries);
  }
}
