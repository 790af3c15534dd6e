/** The rendering of the slices of a service (getEndpointsMap): slices are visited in any order, endpoints are grouped
    by service port and deduplicated by address, and each group is listed in sorted order. */
module Rendering {
  import opened Api
  import opened HostPorts
  import opened PortMaps
  import opened Endpoints
  import opened EndpointSlices
  import opened Sorting

  function HostnameIn(topology: Topology): string {
    if topology.Some? && HOSTNAME_LABEL in topology.value then topology.value[HOSTNAME_LABEL] else ""
  }

  predicate IsLocal(node: Node, topology: Topology) {
    |node.hostname| > 0 && HostnameIn(topology) == node.hostname
  }

  function SliceKey(nn: NamespacedName, port: SlicePort): ServicePortName
    requires port.name.Some?
  {
    ServicePortName(nn, port.name.value, port.protocol)
  }

  // ---------- contributions in visiting order ----------

  predicate Usable(node: Node, info: EndpointInfo) {
    info.addresses != [] && !node.WrongFamily(info.addresses[0])
  }

  function NewSliceEndpoint(node: Node, portNum: nat, info: EndpointInfo): Endpoint
    requires info.addresses != []
  {
    Endpoint(info.addresses[0], portNum, IsLocal(node, info.topology), info.topology)
  }

  function EndpointsOnPort(node: Node, portNum: nat, infos: seq<EndpointInfo>): seq<Endpoint> {
    if infos == [] then []
    else
      var last := infos[|infos| - 1];
      EndpointsOnPort(node, portNum, infos[..|infos| - 1])
      + if Usable(node, last) then [NewSliceEndpoint(node, portNum, last)] else []
  }

  predicate PortIgnored(port: SlicePort) {
    port.name.None? || port.port.None? || port.port.value == 0
  }

  /** What the ports of one slice contribute to a service port. */
  function FromSlicePorts(node: Node, nn: NamespacedName, ports: seq<SlicePort>, infos: seq<EndpointInfo>,
                          spn: ServicePortName): seq<Endpoint> {
    if ports == [] then []
    else
      var last := ports[|ports| - 1];
      FromSlicePorts(node, nn, ports[..|ports| - 1], infos, spn)
      + if !PortIgnored(last) && SliceKey(nn, last) == spn then EndpointsOnPort(node, last.port.value, infos) else []
  }

  function FromSlice(node: Node, nn: NamespacedName, info: SliceInfo, spn: ServicePortName): seq<Endpoint> {
    FromSlicePorts(node, nn, info.ports, info.endpoints, spn)
  }

  function FromSlices(node: Node, nn: NamespacedName, slices: SliceInfos, order: seq<string>,
                      spn: ServicePortName): seq<Endpoint>
    requires forall k | k in order :: k in slices
  {
    if order == [] then []
    else
      FromSlices(node, nn, slices, order[..|order| - 1], spn) + FromSlice(node, nn, slices[order[|order| - 1]], spn)
  }

  // ---------- deduplication by address ----------

  type ByIP = map<string, Endpoint>

  /** The first endpoint with an address is kept, except that a local one replaces it. */
  function Put(byIP: ByIP, e: Endpoint): ByIP {
    if e.ip !in byIP || e.isLocal then byIP[e.ip := e] else byIP
  }

  function PutAll(byIP: ByIP, es: seq<Endpoint>): ByIP {
    if es == [] then byIP else Put(PutAll(byIP, es[..|es| - 1]), es[|es| - 1])
  }

  lemma {:induction false} PutAllAppend(byIP: ByIP, es: seq<Endpoint>, es': seq<Endpoint>)
    ensures PutAll(byIP, es + es') == PutAll(PutAll(byIP, es), es')
  {
    if es' == [] {
      assert es + es' == es;
    } else {
      assert (es + es')[..|es + es'| - 1] == es + es'[..|es'| - 1];
      PutAllAppend(byIP, es, es'[..|es'| - 1]);
    }
  }

  /** Deduplication keeps one contribution per address, local if any contribution for the address is. */
  ghost predicate Dedup(es: seq<Endpoint>, byIP: ByIP) {
    && (forall e | e in es :: e.ip in byIP && (e.isLocal ==> byIP[e.ip].isLocal))
    && (forall ip | ip in byIP :: byIP[ip] in es && byIP[ip].ip == ip)
  }

  lemma {:induction false} PutAllDedups(es: seq<Endpoint>)
    ensures Dedup(es, PutAll(map[], es))
  {
    if es == [] {
    } else {
      var init, last := es[..|es| - 1], es[|es| - 1];
      assert es == init + [last];
      PutAllDedups(init);
    }
  }

  ghost predicate InOrder(list: seq<Endpoint>) {
    Sorted(EndpointLe, list) && Distinct(list)
  }

  /** The endpoints of a group. */
  ghost predicate ListsByIP(byIP: ByIP, list: seq<Endpoint>) {
    && (forall e | e in list :: e.ip in byIP && byIP[e.ip] == e)
    && (forall ip | ip in byIP :: byIP[ip] in list)
  }

  ghost predicate Visits(order: seq<string>, keys: set<string>) {
    Distinct(order) && forall k :: k in order <==> k in keys
  }

  /** A service port is listed when anything contributes to it, with its deduplicated contributions in sorted order. */
  ghost predicate RendersPort(es: seq<Endpoint>, r: EndpointEntries, spn: ServicePortName) {
    && (spn in r <==> es != [])
    && (spn in r ==> ListsByIP(PutAll(map[], es), r[spn]) && InOrder(r[spn]))
  }

  ghost predicate RendersInOrder(node: Node, nn: NamespacedName, slices: SliceInfos, order: seq<string>,
                                 r: EndpointEntries)
    requires forall k | k in order :: k in slices
  {
    forall spn :: RendersPort(FromSlices(node, nn, slices, order, spn), r, spn)
  }

  /** r is what getEndpointsMap produces for some visiting order of the slices. */
  ghost predicate IsRendering(node: Node, nn: NamespacedName, slices: SliceInfos, r: EndpointEntries) {
    exists order :: Visits(order, slices.Keys) && RendersInOrder(node, nn, slices, order, r)
  }

  // ---------- what does not depend on the order ----------

  lemma {:induction false} FromSlicesMembers(node: Node, nn: NamespacedName, slices: SliceInfos, order: seq<string>,
                                             spn: ServicePortName, e: Endpoint)
    requires forall k | k in order :: k in slices
    ensures e in FromSlices(node, nn, slices, order, spn)
      <==> exists k | k in order :: e in FromSlice(node, nn, slices[k], spn)
  {
    if order == [] {
    } else {
      var init := order[..|order| - 1];
      assert order == init + [order[|order| - 1]];
      FromSlicesMembers(node, nn, slices, init, spn, e);
    }
  }

  /** Some slice contributes e to spn. */
  ghost predicate Contributes(node: Node, nn: NamespacedName, slices: SliceInfos, spn: ServicePortName, e: Endpoint) {
    exists k | k in slices :: e in FromSlice(node, nn, slices[k], spn)
  }

  ghost predicate Contributed(node: Node, nn: NamespacedName, slices: SliceInfos, spn: ServicePortName) {
    exists e :: Contributes(node, nn, slices, spn, e)
  }

  /** The endpoint of a list with a given address. */
  function Find(list: seq<Endpoint>, ip: string): Option<Endpoint> {
    if list == [] then None
    else if list[0].ip == ip then Some(list[0])
    else Find(list[1..], ip)
  }

  lemma {:induction false} FindMember(list: seq<Endpoint>, ip: string)
    ensures Find(list, ip).Some? ==> Find(list, ip).value in list && Find(list, ip).value.ip == ip
    ensures Find(list, ip).None? ==> forall e | e in list :: e.ip != ip
  {
    if list == [] {
    } else {
      FindMember(list[1..], ip);
    }
  }

  /** The list has exactly the contributing addresses, once each, and an endpoint of the list is local exactly when
      some contribution for its address is. None of this mentions a visiting order. */
  ghost predicate ListExact(node: Node, nn: NamespacedName, slices: SliceInfos, spn: ServicePortName,
                            list: seq<Endpoint>) {
    && (forall e | e in list :: Contributes(node, nn, slices, spn, e) && Find(list, e.ip) == Some(e))
    && (forall e | Contributes(node, nn, slices, spn, e) ::
          Find(list, e.ip).Some? && (e.isLocal ==> Find(list, e.ip).value.isLocal))
  }

  lemma RenderingExact(node: Node, nn: NamespacedName, slices: SliceInfos, r: EndpointEntries, spn: ServicePortName)
    requires IsRendering(node, nn, slices, r)
    ensures spn in r <==> Contributed(node, nn, slices, spn)
    ensures spn in r ==> ListExact(node, nn, slices, spn, r[spn]) && InOrder(r[spn])
  {
    var order :| Visits(order, slices.Keys) && RendersInOrder(node, nn, slices, order, r);
    SameMembers(node, nn, slices, order, spn);
    assert RendersPort(FromSlices(node, nn, slices, order, spn), r, spn);
    PortExact(node, nn, slices, FromSlices(node, nn, slices, order, spn), r, spn);
  }

  lemma PortExact(node: Node, nn: NamespacedName, slices: SliceInfos, es: seq<Endpoint>, r: EndpointEntries,
                  spn: ServicePortName)
    requires RendersPort(es, r, spn)
    requires forall e :: e in es <==> Contributes(node, nn, slices, spn, e)
    requires es != [] <==> Contributed(node, nn, slices, spn)
    ensures spn in r <==> Contributed(node, nn, slices, spn)
    ensures spn in r ==> ListExact(node, nn, slices, spn, r[spn]) && InOrder(r[spn])
  {
    if spn in r {
      DedupListed(es, PutAll(map[], es), r[spn]);
    }
  }

  lemma SameMembers(node: Node, nn: NamespacedName, slices: SliceInfos, order: seq<string>, spn: ServicePortName)
    requires Visits(order, slices.Keys)
    ensures forall e :: e in FromSlices(node, nn, slices, order, spn) <==> Contributes(node, nn, slices, spn, e)
    ensures FromSlices(node, nn, slices, order, spn) != [] <==> Contributed(node, nn, slices, spn)
  {
    var es := FromSlices(node, nn, slices, order, spn);
    forall e ensures e in es <==> Contributes(node, nn, slices, spn, e) {
      FromSlicesMembers(node, nn, slices, order, spn, e);
    }
    if es != [] {
      assert es[0] in es;
    }
  }

  lemma DedupListed(es: seq<Endpoint>, byIP: ByIP, list: seq<Endpoint>)
    requires byIP == PutAll(map[], es) && ListsByIP(byIP, list)
    ensures forall e | e in list :: e in es && Find(list, e.ip) == Some(e)
    ensures forall e | e in es :: Find(list, e.ip).Some? && (e.isLocal ==> Find(list, e.ip).value.isLocal)
  {
    PutAllDedups(es);
    forall ip | ip in byIP ensures Find(list, ip) == Some(byIP[ip]) {
      FindMember(list, ip);
    }
  }

  /** Both lists have the address or neither does, and then with the same locality. */
  predicate AgreeOn(list: seq<Endpoint>, list': seq<Endpoint>, ip: string) {
    match (Find(list, ip), Find(list', ip))
    case (Some(e), Some(f)) => e.isLocal == f.isLocal
    case (None, None) => true
    case _ => false
  }

  /** Any two visiting orders give the same service ports, the same addresses and the same locality. */
  lemma RenderingsAgree(node: Node, nn: NamespacedName, slices: SliceInfos, r: EndpointEntries, r': EndpointEntries)
    requires IsRendering(node, nn, slices, r) && IsRendering(node, nn, slices, r')
    ensures r.Keys == r'.Keys
    ensures forall spn, ip | spn in r :: AgreeOn(r[spn], r'[spn], ip)
  {
    forall spn ensures spn in r <==> spn in r' {
      RenderingExact(node, nn, slices, r, spn);
      RenderingExact(node, nn, slices, r', spn);
    }
    forall spn, ip | spn in r ensures AgreeOn(r[spn], r'[spn], ip) {
      RenderingExact(node, nn, slices, r, spn);
      RenderingExact(node, nn, slices, r', spn);
      ListsAgree(node, nn, slices, spn, r[spn], r'[spn], ip);
    }
  }

  lemma ListsAgree(node: Node, nn: NamespacedName, slices: SliceInfos, spn: ServicePortName,
                   list: seq<Endpoint>, list': seq<Endpoint>, ip: string)
    requires ListExact(node, nn, slices, spn, list) && ListExact(node, nn, slices, spn, list')
    ensures AgreeOn(list, list', ip)
  {
    FindMember(list, ip);
    FindMember(list', ip);
  }

  /** Contributions to one address of a service port agree on port number and topology. */
  ghost predicate Agreeing(node: Node, nn: NamespacedName, slices: SliceInfos) {
    forall spn, e, f | Contributes(node, nn, slices, spn, e) && Contributes(node, nn, slices, spn, f) && e.ip == f.ip ::
      e.port == f.port && e.topology == f.topology
  }

  lemma LocalityFromTopology(node: Node, nn: NamespacedName, slices: SliceInfos, spn: ServicePortName, e: Endpoint)
    requires Contributes(node, nn, slices, spn, e)
    ensures e.isLocal == IsLocal(node, e.topology)
  {
    var k :| k in slices && e in FromSlice(node, nn, slices[k], spn);
    PortsLocality(node, nn, slices[k].ports, slices[k].endpoints, spn);
  }

  lemma PortsLocality(node: Node, nn: NamespacedName, ports: seq<SlicePort>, infos: seq<EndpointInfo>,
                      spn: ServicePortName)
    ensures forall e | e in FromSlicePorts(node, nn, ports, infos, spn) :: e.isLocal == IsLocal(node, e.topology)
  {
    if ports == [] {
    } else {
      PortsLocality(node, nn, ports[..|ports| - 1], infos, spn);
      if !PortIgnored(ports[|ports| - 1]) {
        OnPortLocality(node, ports[|ports| - 1].port.value, infos);
      }
    }
  }

  lemma OnPortLocality(node: Node, portNum: nat, infos: seq<EndpointInfo>)
    ensures forall e | e in EndpointsOnPort(node, portNum, infos) :: e.isLocal == IsLocal(node, e.topology)
  {
  }

  /** Where contributions agree, every visiting order gives the very same map, although the sort is not stable. */
  lemma RenderingUnique(node: Node, nn: NamespacedName, slices: SliceInfos, r: EndpointEntries, r': EndpointEntries)
    requires IsRendering(node, nn, slices, r) && IsRendering(node, nn, slices, r') && Agreeing(node, nn, slices)
    ensures r == r'
  {
    RenderingsAgree(node, nn, slices, r, r');
    forall spn | spn in r ensures r[spn] == r'[spn] {
      RenderingExact(node, nn, slices, r, spn);
      RenderingExact(node, nn, slices, r', spn);
      ListUnique(node, nn, slices, spn, r[spn], r'[spn]);
    }
  }

  lemma ListUnique(node: Node, nn: NamespacedName, slices: SliceInfos, spn: ServicePortName,
                   list: seq<Endpoint>, list': seq<Endpoint>)
    requires Agreeing(node, nn, slices) && InOrder(list) && InOrder(list')
    requires ListExact(node, nn, slices, spn, list) && ListExact(node, nn, slices, spn, list')
    ensures list == list'
  {
    SublistOf(node, nn, slices, spn, list, list');
    SublistOf(node, nn, slices, spn, list', list);
    DistinctPermutation(list, list');
    StringsDistinct(list);
    SortIsUnique(EndpointLe, list, list');
  }

  lemma StringsDistinct(list: seq<Endpoint>)
    requires forall e | e in list :: Find(list, e.ip) == Some(e)
    ensures DistinctKeys(EndpointLe, list)
  {
    forall e, f | e in list && f in list && EndpointLe(e, f) && EndpointLe(f, e) ensures e == f {
      StringLessTotal(e.String(), f.String());
      JoinHostPortInjective(e.ip, e.port, f.ip, f.port);
    }
  }

  lemma SublistOf(node: Node, nn: NamespacedName, slices: SliceInfos, spn: ServicePortName, list: seq<Endpoint>,
                  list': seq<Endpoint>)
    requires Agreeing(node, nn, slices)
    requires ListExact(node, nn, slices, spn, list) && ListExact(node, nn, slices, spn, list')
    ensures forall e | e in list :: e in list'
  {
    forall e | e in list ensures e in list' {
      ListsAgree(node, nn, slices, spn, list, list', e.ip);
      FindMember(list', e.ip);
      var f := Find(list', e.ip).value;
      LocalityFromTopology(node, nn, slices, spn, e);
      LocalityFromTopology(node, nn, slices, spn, f);
      assert e == f;
    }
  }

  lemma RenderingKeyed(node: Node, nn: NamespacedName, slices: SliceInfos, r: EndpointEntries)
    requires IsRendering(node, nn, slices, r)
    ensures Keyed(nn, r)
  {
    forall spn | spn in r ensures spn.nn == nn {
      RenderingExact(node, nn, slices, r, spn);
      var e :| Contributes(node, nn, slices, spn, e);
      var k :| k in slices && e in FromSlice(node, nn, slices[k], spn);
      SlicePortsKeyed(node, nn, slices[k].ports, slices[k].endpoints, spn);
    }
  }

  lemma {:induction false} SlicePortsKeyed(node: Node, nn: NamespacedName, ports: seq<SlicePort>,
                                           infos: seq<EndpointInfo>, spn: ServicePortName)
    ensures FromSlicePorts(node, nn, ports, infos, spn) != [] ==> spn.nn == nn
  {
    if ports == [] {
    } else {
      SlicePortsKeyed(node, nn, ports[..|ports| - 1], infos, spn);
    }
  }

  lemma EmptyRendering(node: Node, nn: NamespacedName)
    ensures IsRendering(node, nn, map[], map[])
  {
    assert RendersInOrder(node, nn, map[], [], map[]);
    assert Visits([], {});
  }

  // ---------- the rendering in terms of the slices ----------

  /** A port and an endpoint of a slice make e an endpoint of spn. */
  ghost predicate PairGives(node: Node, nn: NamespacedName, port: SlicePort, info: EndpointInfo, spn: ServicePortName,
                            e: Endpoint) {
    && port.name.Some? && port.port.Some? && port.port.value != 0
    && spn.nn == nn && spn.port == port.name.value && spn.protocol == port.protocol && e.port == port.port.value
    && InfoGives(node, info, e)
  }

  ghost predicate InfoGives(node: Node, info: EndpointInfo, e: Endpoint) {
    && |info.addresses| > 0 && e.ip == info.addresses[0] && e.topology == info.topology
    && (node.ipv6Mode == None || node.isIPv6(e.ip) == node.ipv6Mode.value)
    && (e.isLocal <==>
          node.hostname != "" && info.topology.Some? && "kubernetes.io/hostname" in info.topology.value
          && info.topology.value["kubernetes.io/hostname"] == node.hostname)
  }

  ghost predicate PortGives(node: Node, nn: NamespacedName, port: SlicePort, infos: seq<EndpointInfo>,
                            spn: ServicePortName, e: Endpoint) {
    exists k :: 0 <= k < |infos| && PairGives(node, nn, port, infos[k], spn, e)
  }

  ghost predicate SliceGives(node: Node, nn: NamespacedName, ports: seq<SlicePort>, infos: seq<EndpointInfo>,
                             spn: ServicePortName, e: Endpoint) {
    exists j :: 0 <= j < |ports| && PortGives(node, nn, ports[j], infos, spn, e)
  }

  ghost predicate SlicesGive(node: Node, nn: NamespacedName, slices: SliceInfos, spn: ServicePortName, e: Endpoint) {
    exists k :: k in slices && SliceGives(node, nn, slices[k].ports, slices[k].endpoints, spn, e)
  }

  /** Each listed endpoint comes from some pair, whatever a pair gives is listed under its address, local if any pair
      makes it so, and a list has each address once, in the order of the endpoint strings. */
  ghost predicate ShowsSlices(node: Node, nn: NamespacedName, slices: SliceInfos, r: EndpointEntries) {
    && (forall spn, e | e in Listed(r, spn) :: SlicesGive(node, nn, slices, spn, e))
    && (forall spn, e | SlicesGive(node, nn, slices, spn, e) :: IsListed(Listed(r, spn), e))
    && (forall spn | spn in r :: r[spn] != [] && OnceEach(r[spn]))
  }

  ghost predicate IsListed(list: seq<Endpoint>, e: Endpoint) {
    exists f :: f in list && f.ip == e.ip && (e.isLocal ==> f.isLocal)
  }

  ghost predicate OnceEach(list: seq<Endpoint>) {
    forall i, j | 0 <= i < j < |list| ::
      list[i].ip != list[j].ip
      && !StringLess(JoinHostPort(list[j].ip, list[j].port), JoinHostPort(list[i].ip, list[i].port))
  }

  lemma {:induction false} OnPortGives(node: Node, portNum: nat, infos: seq<EndpointInfo>, e: Endpoint)
    ensures e in EndpointsOnPort(node, portNum, infos)
      <==> e.port == portNum && exists k :: 0 <= k < |infos| && InfoGives(node, infos[k], e)
  {
    if infos == [] {
    } else {
      var n := |infos| - 1;
      var init, last := infos[..n], infos[n];
      OnPortGives(node, portNum, init, e);
      assert forall k | 0 <= k < n :: init[k] == infos[k];
      assert InfoGives(node, last, e) && e.port == portNum
        <==> Usable(node, last) && e == NewSliceEndpoint(node, portNum, last);
      if e in EndpointsOnPort(node, portNum, init) {
        var k :| 0 <= k < |init| && InfoGives(node, init[k], e);
        assert InfoGives(node, infos[k], e);
      }
    }
  }

  lemma OnePortGives(node: Node, nn: NamespacedName, port: SlicePort, infos: seq<EndpointInfo>, spn: ServicePortName,
                     e: Endpoint)
    ensures PortGives(node, nn, port, infos, spn, e)
      <==> !PortIgnored(port) && SliceKey(nn, port) == spn && e in EndpointsOnPort(node, port.port.value, infos)
  {
    if PortGives(node, nn, port, infos, spn, e) {
      var k :| 0 <= k < |infos| && PairGives(node, nn, port, infos[k], spn, e);
      OnPortGives(node, port.port.value, infos, e);
    }
    if !PortIgnored(port) && SliceKey(nn, port) == spn && e in EndpointsOnPort(node, port.port.value, infos) {
      OnPortGives(node, port.port.value, infos, e);
      var k :| 0 <= k < |infos| && InfoGives(node, infos[k], e);
      assert PairGives(node, nn, port, infos[k], spn, e);
    }
  }

  lemma OneMorePort(node: Node, nn: NamespacedName, ports: seq<SlicePort>, port: SlicePort, infos: seq<EndpointInfo>,
                    spn: ServicePortName, e: Endpoint)
    ensures SliceGives(node, nn, ports + [port], infos, spn, e)
      <==> SliceGives(node, nn, ports, infos, spn, e) || PortGives(node, nn, port, infos, spn, e)
  {
    var more := ports + [port];
    if SliceGives(node, nn, ports, infos, spn, e) {
      var j :| 0 <= j < |ports| && PortGives(node, nn, ports[j], infos, spn, e);
      assert PortGives(node, nn, more[j], infos, spn, e);
    }
    assert more[|ports|] == port;
  }

  lemma {:induction false} OneSliceGives(node: Node, nn: NamespacedName, ports: seq<SlicePort>,
                                         infos: seq<EndpointInfo>, spn: ServicePortName, e: Endpoint)
    ensures e in FromSlicePorts(node, nn, ports, infos, spn) <==> SliceGives(node, nn, ports, infos, spn, e)
  {
    if ports == [] {
    } else {
      var init, port := ports[..|ports| - 1], ports[|ports| - 1];
      assert ports == init + [port];
      OneSliceGives(node, nn, init, infos, spn, e);
      OnePortGives(node, nn, port, infos, spn, e);
      OneMorePort(node, nn, init, port, infos, spn, e);
    }
  }

  lemma ContributesExact(node: Node, nn: NamespacedName, slices: SliceInfos, spn: ServicePortName, e: Endpoint)
    ensures Contributes(node, nn, slices, spn, e) <==> SlicesGive(node, nn, slices, spn, e)
  {
    forall k | k in slices
      ensures e in FromSlice(node, nn, slices[k], spn)
        <==> SliceGives(node, nn, slices[k].ports, slices[k].endpoints, spn, e)
    {
      OneSliceGives(node, nn, slices[k].ports, slices[k].endpoints, spn, e);
    }
  }

  lemma ListedOnce(list: seq<Endpoint>)
    requires InOrder(list) && forall e | e in list :: Find(list, e.ip) == Some(e)
    ensures OnceEach(list)
  {
    forall i, j | 0 <= i < j < |list|
      ensures list[i].ip != list[j].ip
      ensures !StringLess(JoinHostPort(list[j].ip, list[j].port), JoinHostPort(list[i].ip, list[i].port))
    {
      assert Find(list, list[i].ip) == Some(list[i]) && Find(list, list[j].ip) == Some(list[j]);
      assert Ordered(EndpointLe, list, i, j);
    }
  }

  lemma RenderingShowsSlices(node: Node, nn: NamespacedName, slices: SliceInfos, r: EndpointEntries)
    requires IsRendering(node, nn, slices, r)
    ensures ShowsSlices(node, nn, slices, r)
  {
    forall spn, e | e in Listed(r, spn) ensures SlicesGive(node, nn, slices, spn, e) {
      RenderingExact(node, nn, slices, r, spn);
      ContributesExact(node, nn, slices, spn, e);
    }
    forall spn, e | SlicesGive(node, nn, slices, spn, e) ensures IsListed(Listed(r, spn), e) {
      RenderingExact(node, nn, slices, r, spn);
      ContributesExact(node, nn, slices, spn, e);
      FindMember(r[spn], e.ip);
    }
    forall spn | spn in r ensures r[spn] != [] && OnceEach(r[spn]) {
      RenderingExact(node, nn, slices, r, spn);
      var e :| Contributes(node, nn, slices, spn, e);
      ListedOnce(r[spn]);
    }
  }
}
