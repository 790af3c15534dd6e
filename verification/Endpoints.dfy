/** controller/endpoints.go: the rendering of Endpoints objects, the incrementally patched endpoints map and the
    detection of stale UDP connections. */
module Endpoints {
  import opened Api
  import opened HostPorts
  import opened PortMaps
  import opened ChangeTracking
  import opened Triggers

  datatype Endpoint = Endpoint(ip: string, port: nat, isLocal: bool, topology: Option<map<string, string>>) {
    function String(): string {
      JoinHostPort(ip, port)
    }

    // endpointsInfo.Equal. Its third conjunct compares a protocol field that is never set.
    predicate Equal(other: Endpoint) {
      String() == other.String() && isLocal == other.isLocal
    }
  }

  type EndpointEntries = PortMap<seq<Endpoint>>

  type EndpointItems = Items<seq<Endpoint>>

  datatype Address = Address(ip: string, nodeName: Option<string>)

  datatype EndpointPort = EndpointPort(name: string, port: nat, protocol: Protocol)

  datatype Subset = Subset(addresses: seq<Address>, ports: seq<EndpointPort>)

  /** An Endpoints object; triggerTime is None when the annotation is absent, malformed or the zero time. */
  datatype EndpointsObject = EndpointsObject(name: NamespacedName, subsets: seq<Subset>, triggerTime: Option<Time>)

  // ---------- what an Endpoints object renders to ----------

  datatype Contribution = Contribution(spn: ServicePortName, endpoint: Endpoint)

  predicate Eligible(node: Node, addr: Address) {
    addr.ip != "" && !node.WrongFamily(addr.ip)
  }

  function NewEndpoint(node: Node, port: EndpointPort, addr: Address): Endpoint {
    Endpoint(addr.ip, port.port, addr.nodeName == Some(node.hostname), None)
  }

  function EndpointKey(name: NamespacedName, port: EndpointPort): ServicePortName {
    ServicePortName(name, port.name, port.protocol)
  }

  function FromAddresses(node: Node, name: NamespacedName, port: EndpointPort, addrs: seq<Address>): seq<Contribution> {
    if addrs == [] then []
    else
      var addr := addrs[|addrs| - 1];
      FromAddresses(node, name, port, addrs[..|addrs| - 1])
      + if Eligible(node, addr) then [Contribution(EndpointKey(name, port), NewEndpoint(node, port, addr))] else []
  }

  function FromPorts(node: Node, name: NamespacedName, ports: seq<EndpointPort>,
                     addrs: seq<Address>): seq<Contribution> {
    if ports == [] then []
    else
      var port := ports[|ports| - 1];
      FromPorts(node, name, ports[..|ports| - 1], addrs)
      + if port.port == 0 then [] else FromAddresses(node, name, port, addrs)
  }

  function FromSubsets(node: Node, name: NamespacedName, subsets: seq<Subset>): seq<Contribution> {
    if subsets == [] then []
    else
      var ss := subsets[|subsets| - 1];
      FromSubsets(node, name, subsets[..|subsets| - 1]) + FromPorts(node, name, ss.ports, ss.addresses)
  }

  function Select(cs: seq<Contribution>, spn: ServicePortName): seq<Endpoint> {
    if cs == [] then []
    else
      var last := cs[|cs| - 1];
      Select(cs[..|cs| - 1], spn) + if last.spn == spn then [last.endpoint] else []
  }

  /** One list per service port that has a contribution, in the order of the object. */
  function Group(cs: seq<Contribution>): EndpointEntries {
    map spn | spn in (set c | c in cs :: c.spn) :: Select(cs, spn)
  }

  function EndpointsToMap(node: Node, endpoints: Option<EndpointsObject>): MaybeMap<seq<Endpoint>> {
    match endpoints
    case None => None
    case Some(o) => Some(Group(FromSubsets(node, o.name, o.subsets)))
  }

  function Listed(m: EndpointEntries, spn: ServicePortName): seq<Endpoint> {
    if spn in m then m[spn] else []
  }

  lemma GroupSnoc(cs: seq<Contribution>, c: Contribution)
    ensures Group(cs + [c]) == Group(cs)[c.spn := Listed(Group(cs), c.spn) + [c.endpoint]]
  {
    var before, after := Group(cs), Group(cs + [c]);
    assert (cs + [c])[..|cs|] == cs;
    SelectNothing(cs, c.spn);
    assert after.Keys == before.Keys + {c.spn} by {
      assert forall d :: d in cs + [c] <==> d in cs || d == c;
    }
    forall spn | spn in after ensures after[spn] == before[c.spn := Listed(before, c.spn) + [c.endpoint]][spn] {
      assert after[spn] == Select(cs, spn) + if c.spn == spn then [c.endpoint] else [];
    }
  }

  lemma {:induction false} SelectNothing(cs: seq<Contribution>, spn: ServicePortName)
    ensures (forall c | c in cs :: c.spn != spn) <==> Select(cs, spn) == []
  {
    if cs == [] {
    } else {
      SelectNothing(cs[..|cs| - 1], spn);
      assert cs == cs[..|cs| - 1] + [cs[|cs| - 1]];
    }
  }

  lemma {:induction false} ContributionsKeyed(node: Node, name: NamespacedName, subsets: seq<Subset>)
    ensures forall c | c in FromSubsets(node, name, subsets) :: c.spn.nn == name
  {
    if subsets == [] {
    } else {
      ContributionsKeyed(node, name, subsets[..|subsets| - 1]);
      PortsKeyed(node, name, subsets[|subsets| - 1].ports, subsets[|subsets| - 1].addresses);
    }
  }

  lemma PortsKeyed(node: Node, name: NamespacedName, ports: seq<EndpointPort>, addrs: seq<Address>)
    ensures forall c | c in FromPorts(node, name, ports, addrs) :: c.spn.nn == name
  {
    if ports == [] {
    } else {
      PortsKeyed(node, name, ports[..|ports| - 1], addrs);
      AddressesKeyed(node, name, ports[|ports| - 1], addrs);
    }
  }

  lemma AddressesKeyed(node: Node, name: NamespacedName, port: EndpointPort, addrs: seq<Address>)
    ensures forall c | c in FromAddresses(node, name, port, addrs) :: c.spn.nn == name
  {
  }

  lemma RenderedMapKeyed(node: Node, endpoints: Option<EndpointsObject>)
    ensures endpoints.Some? ==> Keyed(endpoints.value.name, OrEmpty(EndpointsToMap(node, endpoints)))
  {
    if endpoints.Some? {
      ContributionsKeyed(node, endpoints.value.name, endpoints.value.subsets);
    }
  }

  // ---------- the rendering in terms of the object ----------

  /** The j-th port and the k-th address of the i-th subset make e an endpoint of spn. */
  ghost predicate Gives(node: Node, o: EndpointsObject, i: int, j: int, k: int, spn: ServicePortName, e: Endpoint) {
    && 0 <= i < |o.subsets| && 0 <= j < |o.subsets[i].ports| && 0 <= k < |o.subsets[i].addresses|
    && GivesAt(node, o.name, o.subsets[i].ports[j], o.subsets[i].addresses[k], spn, e)
  }

  ghost predicate GivesAt(node: Node, name: NamespacedName, port: EndpointPort, addr: Address, spn: ServicePortName,
                          e: Endpoint) {
    && port.port != 0 && addr.ip != "" && (node.ipv6Mode == None || node.isIPv6(addr.ip) == node.ipv6Mode.value)
    && spn.nn == name && spn.port == port.name && spn.protocol == port.protocol
    && e.ip == addr.ip && e.port == port.port && e.topology == None
    && (e.isLocal <==> addr.nodeName == Some(node.hostname))
  }

  ghost predicate Given(node: Node, o: EndpointsObject, spn: ServicePortName, e: Endpoint) {
    exists i, j, k :: Gives(node, o, i, j, k, spn, e)
  }

  /** The lists have exactly the endpoints that a subset gives, and there is no empty one. */
  ghost predicate ShowsObject(node: Node, o: EndpointsObject, entries: EndpointEntries) {
    && (forall spn, e :: ShowsEndpoint(node, o, entries, spn, e))
    && (forall spn | spn in entries :: entries[spn] != [])
  }

  ghost predicate ShowsEndpoint(node: Node, o: EndpointsObject, entries: EndpointEntries, spn: ServicePortName,
                                e: Endpoint) {
    e in Listed(entries, spn) <==> Given(node, o, spn, e)
  }

  ghost predicate ShowsEndpoints(node: Node, endpoints: Option<EndpointsObject>, r: MaybeMap<seq<Endpoint>>) {
    (r.None? <==> endpoints.None?) && (r.Some? ==> ShowsObject(node, endpoints.value, r.value))
  }

  lemma {:induction false} SelectMembers(cs: seq<Contribution>, spn: ServicePortName, e: Endpoint)
    ensures e in Select(cs, spn) <==> Contribution(spn, e) in cs
  {
    if cs == [] {
    } else {
      var init, last := cs[..|cs| - 1], cs[|cs| - 1];
      assert cs == init + [last];
      SelectMembers(init, spn, e);
      assert last.spn == spn && last.endpoint == e <==> last == Contribution(spn, e);
    }
  }

  lemma {:induction false} AddressesGive(node: Node, name: NamespacedName, port: EndpointPort, addrs: seq<Address>,
                                         c: Contribution)
    requires port.port != 0
    ensures c in FromAddresses(node, name, port, addrs)
      <==> exists k :: 0 <= k < |addrs| && GivesAt(node, name, port, addrs[k], c.spn, c.endpoint)
  {
    if addrs == [] {
    } else {
      var n := |addrs| - 1;
      var init, addr := addrs[..n], addrs[n];
      AddressesGive(node, name, port, init, c);
      assert forall k | 0 <= k < n :: init[k] == addrs[k];
      assert GivesAt(node, name, port, addr, c.spn, c.endpoint) <==>
        Eligible(node, addr) && c == Contribution(EndpointKey(name, port), NewEndpoint(node, port, addr));
      if c in FromAddresses(node, name, port, init) {
        var k :| 0 <= k < |init| && GivesAt(node, name, port, init[k], c.spn, c.endpoint);
        assert GivesAt(node, name, port, addrs[k], c.spn, c.endpoint);
      }
    }
  }

  ghost predicate PortGives(node: Node, name: NamespacedName, port: EndpointPort, addrs: seq<Address>,
                            c: Contribution) {
    exists k :: 0 <= k < |addrs| && GivesAt(node, name, port, addrs[k], c.spn, c.endpoint)
  }

  lemma {:induction false} PortsGive(node: Node, name: NamespacedName, ports: seq<EndpointPort>, addrs: seq<Address>,
                                     c: Contribution)
    ensures c in FromPorts(node, name, ports, addrs)
      <==> exists j :: 0 <= j < |ports| && PortGives(node, name, ports[j], addrs, c)
  {
    if ports == [] {
    } else {
      var n := |ports| - 1;
      var init, port := ports[..n], ports[n];
      PortsGive(node, name, init, addrs, c);
      if port.port != 0 {
        AddressesGive(node, name, port, addrs, c);
      }
      if c in FromPorts(node, name, init, addrs) {
        var j :| 0 <= j < |init| && PortGives(node, name, init[j], addrs, c);
        assert PortGives(node, name, ports[j], addrs, c);
      }
      assert forall j | 0 <= j < n :: init[j] == ports[j];
    }
  }

  ghost predicate SubsetGives(node: Node, name: NamespacedName, ss: Subset, c: Contribution) {
    exists j :: 0 <= j < |ss.ports| && PortGives(node, name, ss.ports[j], ss.addresses, c)
  }

  ghost predicate SubsetsGiven(node: Node, name: NamespacedName, subsets: seq<Subset>, c: Contribution) {
    exists i :: 0 <= i < |subsets| && SubsetGives(node, name, subsets[i], c)
  }

  lemma OneMoreSubset(node: Node, name: NamespacedName, subsets: seq<Subset>, ss: Subset, c: Contribution)
    ensures SubsetsGiven(node, name, subsets + [ss], c)
      <==> SubsetsGiven(node, name, subsets, c) || SubsetGives(node, name, ss, c)
  {
    var more := subsets + [ss];
    if SubsetsGiven(node, name, subsets, c) {
      var i :| 0 <= i < |subsets| && SubsetGives(node, name, subsets[i], c);
      assert SubsetGives(node, name, more[i], c);
    }
    assert more[|subsets|] == ss;
  }

  lemma {:induction false} SubsetsGive(node: Node, name: NamespacedName, subsets: seq<Subset>, c: Contribution)
    ensures c in FromSubsets(node, name, subsets) <==> SubsetsGiven(node, name, subsets, c)
  {
    if subsets == [] {
    } else {
      var init, ss := subsets[..|subsets| - 1], subsets[|subsets| - 1];
      assert subsets == init + [ss];
      SubsetsGive(node, name, init, c);
      PortsGive(node, name, ss.ports, ss.addresses, c);
      OneMoreSubset(node, name, init, ss, c);
    }
  }

  lemma GivenExact(node: Node, o: EndpointsObject, spn: ServicePortName, e: Endpoint)
    ensures Given(node, o, spn, e) <==> SubsetsGiven(node, o.name, o.subsets, Contribution(spn, e))
  {
    var c := Contribution(spn, e);
    if Given(node, o, spn, e) {
      var i, j, k :| Gives(node, o, i, j, k, spn, e);
      var ss := o.subsets[i];
      assert GivesAt(node, o.name, ss.ports[j], ss.addresses[k], c.spn, c.endpoint);
      assert PortGives(node, o.name, ss.ports[j], ss.addresses, c);
      assert SubsetGives(node, o.name, o.subsets[i], c);
    }
    if i :| 0 <= i < |o.subsets| && SubsetGives(node, o.name, o.subsets[i], c) {
      var ss := o.subsets[i];
      var j :| 0 <= j < |ss.ports| && PortGives(node, o.name, ss.ports[j], ss.addresses, c);
      var k :| 0 <= k < |ss.addresses| && GivesAt(node, o.name, ss.ports[j], ss.addresses[k], c.spn, c.endpoint);
      assert Gives(node, o, i, j, k, spn, e);
    }
  }

  lemma RenderingShowsEndpoints(node: Node, endpoints: Option<EndpointsObject>)
    ensures ShowsEndpoints(node, endpoints, EndpointsToMap(node, endpoints))
  {
    if endpoints.Some? {
      var o := endpoints.value;
      var cs := FromSubsets(node, o.name, o.subsets);
      forall spn, e ensures ShowsEndpoint(node, o, Group(cs), spn, e) {
        SelectMembers(cs, spn, e);
        SubsetsGive(node, o.name, o.subsets, Contribution(spn, e));
        GivenExact(node, o, spn, e);
      }
      forall spn | spn in Group(cs) ensures Group(cs)[spn] != [] {
        SelectNothing(cs, spn);
      }
    }
  }

  method EndpointsToEndpointsMap(node: Node, endpoints: Option<EndpointsObject>) returns (r: MaybeMap<seq<Endpoint>>)
    ensures r == EndpointsToMap(node, endpoints) && ShowsEndpoints(node, endpoints, r)
  {
    RenderingShowsEndpoints(node, endpoints);
    if endpoints.None? {
      return None;
    }
    var EndpointsObject(name, subsets, _) := endpoints.value;
    var endpointsMap: EndpointEntries := map[];
    for i := 0 to |subsets|
      invariant endpointsMap == Group(FromSubsets(node, name, subsets[..i]))
    {
      endpointsMap := AddSubset(node, name, endpointsMap, FromSubsets(node, name, subsets[..i]), subsets[i]);
      assert subsets[..i + 1][..i] == subsets[..i];
    }
    assert subsets[..|subsets|] == subsets;
    return Some(endpointsMap);
  }

  lemma FromPortsSnoc(node: Node, name: NamespacedName, ss: Subset, j: nat, done: seq<Contribution>)
    requires j < |ss.ports|
    ensures done + FromPorts(node, name, ss.ports[..j + 1], ss.addresses)
         == done + FromPorts(node, name, ss.ports[..j], ss.addresses)
            + if ss.ports[j].port == 0 then [] else FromAddresses(node, name, ss.ports[j], ss.addresses)
  {
    assert ss.ports[..j + 1][..j] == ss.ports[..j];
  }

  // The loops over the ports of a subset and over its addresses; done is what was contributed before.
  method AddSubset(node: Node, name: NamespacedName, endpointsMap: EndpointEntries, ghost done: seq<Contribution>,
                   ss: Subset)
    returns (r: EndpointEntries)
    requires endpointsMap == Group(done)
    ensures r == Group(done + FromPorts(node, name, ss.ports, ss.addresses))
  {
    r := endpointsMap;
    assert done + [] == done;
    for j := 0 to |ss.ports|
      invariant r == Group(done + FromPorts(node, name, ss.ports[..j], ss.addresses))
    {
      var port := ss.ports[j];
      ghost var before := done + FromPorts(node, name, ss.ports[..j], ss.addresses);
      FromPortsSnoc(node, name, ss, j, done);
      assert before + [] == before;
      if port.port != 0 {
        r := AddPort(node, name, r, before, port, ss.addresses);
      }
    }
    assert ss.ports[..|ss.ports|] == ss.ports;
  }

  method AddPort(node: Node, name: NamespacedName, endpointsMap: EndpointEntries, ghost done: seq<Contribution>,
                 port: EndpointPort, addrs: seq<Address>)
    returns (r: EndpointEntries)
    requires endpointsMap == Group(done)
    ensures r == Group(done + FromAddresses(node, name, port, addrs))
  {
    r := endpointsMap;
    assert done + [] == done;
    for k := 0 to |addrs|
      invariant r == Group(done + FromAddresses(node, name, port, addrs[..k]))
    {
      var addr := addrs[k];
      assert addrs[..k + 1][..k] == addrs[..k];
      ghost var sofar := done + FromAddresses(node, name, port, addrs[..k]);
      if Eligible(node, addr) {
        var spn, ep := EndpointKey(name, port), NewEndpoint(node, port, addr);
        GroupSnoc(sofar, Contribution(spn, ep));
        assert done + FromAddresses(node, name, port, addrs[..k + 1]) == sofar + [Contribution(spn, ep)];
        r := r[spn := Listed(r, spn) + [ep]];
      } else {
        assert done + FromAddresses(node, name, port, addrs[..k + 1]) == sofar;
      }
    }
    assert addrs[..|addrs|] == addrs;
  }

  // ---------- stale connections ----------

  datatype ServiceEndpoint = ServiceEndpoint(endpoint: string, spn: ServicePortName)

  /** Some endpoint of the list, known by its string, is not among the newer endpoints, or no longer as local as it
      was. */
  ghost predicate StaleAmong(eps: seq<Endpoint>, newer: seq<Endpoint>, endpoint: string) {
    exists e | e in eps ::
      endpoint == JoinHostPort(e.ip, e.port) && GoneFrom(newer, e)
  }

  ghost predicate GoneFrom(newer: seq<Endpoint>, e: Endpoint) {
    forall f | f in newer :: f.ip != e.ip || f.port != e.port || f.isLocal != e.isLocal
  }

  /** Endpoints are compared by their strings, which determine address and port. */
  lemma EqualExact(f: Endpoint, e: Endpoint)
    ensures f.Equal(e) <==> f.ip == e.ip && f.port == e.port && f.isLocal == e.isLocal
  {
    JoinHostPortInjective(f.ip, f.port, e.ip, e.port);
  }

  ghost predicate StaleEndpoint(m: EndpointEntries, m': EndpointEntries, x: ServiceEndpoint) {
    x.spn.protocol == UDP && StaleAmong(Listed(m, x.spn), Listed(m', x.spn), x.endpoint)
  }

  ghost predicate StaleService(m: EndpointEntries, m': EndpointEntries, spn: ServicePortName) {
    spn.protocol == UDP && Listed(m, spn) == [] && Listed(m', spn) != []
  }

  lemma StaleAmongSnoc(eps: seq<Endpoint>, e: Endpoint, newer: seq<Endpoint>, endpoint: string)
    ensures StaleAmong(eps + [e], newer, endpoint)
        <==> StaleAmong(eps, newer, endpoint) || (endpoint == e.String() && forall f | f in newer :: !f.Equal(e))
  {
    forall f | f in newer ensures f.Equal(e) <==> f.ip == e.ip && f.port == e.port && f.isLocal == e.isLocal {
      EqualExact(f, e);
    }
    assert forall x :: x in eps + [e] <==> x in eps || x == e;
  }

  method HasEqual(newer: seq<Endpoint>, e: Endpoint) returns (found: bool)
    ensures found <==> exists f | f in newer :: f.Equal(e)
  {
    for i := 0 to |newer|
      invariant forall f | f in newer[..i] :: !f.Equal(e)
    {
      if newer[i].Equal(e) {
        return true;
      }
    }
    return false;
  }

  method DetectStaleConnections(previous: EndpointEntries, current: EndpointEntries,
                                staleEndpoints: seq<ServiceEndpoint>, staleServices: seq<ServicePortName>)
    returns (staleEndpoints': seq<ServiceEndpoint>, staleServices': seq<ServicePortName>)
    ensures forall x :: x in staleEndpoints' <==> x in staleEndpoints || StaleEndpoint(previous, current, x)
    ensures forall spn :: spn in staleServices' <==> spn in staleServices || StaleService(previous, current, spn)
  {
    staleEndpoints' := staleEndpoints;
    var todo := previous.Keys;
    while todo != {}
      invariant todo <= previous.Keys
      invariant forall x ::
        x in staleEndpoints' <==> x in staleEndpoints || (x.spn !in todo && StaleEndpoint(previous, current, x))
    {
      var spn :| spn in todo;
      if spn.protocol == UDP {
        ghost var before := staleEndpoints';
        var eps := previous[spn];
        for i := 0 to |eps|
          invariant forall x ::
            x in staleEndpoints' <==>
              x in before || (x.spn == spn && StaleAmong(eps[..i], Listed(current, spn), x.endpoint))
        {
          var kept := HasEqual(Listed(current, spn), eps[i]);
          assert eps[..i + 1] == eps[..i] + [eps[i]];
          forall endpoint: string {
            StaleAmongSnoc(eps[..i], eps[i], Listed(current, spn), endpoint);
          }
          if !kept {
            staleEndpoints' := staleEndpoints' + [ServiceEndpoint(eps[i].String(), spn)];
          }
        }
        assert eps[..|eps|] == eps;
      }
      todo := todo - {spn};
    }
    staleServices' := staleServices;
    todo := current.Keys;
    while todo != {}
      invariant todo <= current.Keys
      invariant forall spn ::
        spn in staleServices' <==> spn in staleServices || (spn !in todo && StaleService(previous, current, spn))
    {
      var spn :| spn in todo;
      if spn.protocol == UDP {
        if |current[spn]| > 0 && |Listed(previous, spn)| == 0 {
          staleServices' := staleServices' + [spn];
        }
      }
      todo := todo - {spn};
    }
  }

  // ---------- the endpoints map ----------

  ghost predicate ItemsKeyed(items: EndpointItems) {
    forall nn | nn in items :: Keyed(nn, OrEmpty(items[nn].previous)) && Keyed(nn, OrEmpty(items[nn].current))
  }

  lemma TrackKeyed(items: EndpointItems, nn: NamespacedName, before: MaybeMap<seq<Endpoint>>,
                   after: MaybeMap<seq<Endpoint>>)
    requires ItemsKeyed(items) && Keyed(nn, OrEmpty(before)) && Keyed(nn, OrEmpty(after))
    ensures ItemsKeyed(Track(items, nn, before, after))
  {
  }

  /** Every pending change starts from what the map holds for its object. */
  ghost predicate ItemsFit(m: EndpointEntries, items: EndpointItems) {
    forall nn | nn in items :: OrEmpty(items[nn].previous) == Part(m, nn)
  }

  ghost predicate SomeStaleEndpoint(items: EndpointItems, x: ServiceEndpoint) {
    exists nn | nn in items :: StaleEndpoint(OrEmpty(items[nn].previous), OrEmpty(items[nn].current), x)
  }

  ghost predicate SomeStaleService(items: EndpointItems, spn: ServicePortName) {
    exists nn | nn in items :: StaleService(OrEmpty(items[nn].previous), OrEmpty(items[nn].current), spn)
  }

  lemma SomeStaleStep(items: EndpointItems, nn: NamespacedName, change: Change<seq<Endpoint>>)
    requires nn !in items
    ensures forall x ::
      SomeStaleEndpoint(items[nn := change], x)
      <==> SomeStaleEndpoint(items, x) || StaleEndpoint(OrEmpty(change.previous), OrEmpty(change.current), x)
    ensures forall spn ::
      SomeStaleService(items[nn := change], spn)
      <==> SomeStaleService(items, spn) || StaleService(OrEmpty(change.previous), OrEmpty(change.current), spn)
  {
    var items' := items[nn := change];
    assert forall m | m in items :: m in items' && items'[m] == items[m];
    assert nn in items' && items'[nn] == change;
  }

  /** Detection change by change finds exactly what went stale between the whole maps before and after. */
  lemma StaleExact(m: EndpointEntries, items: EndpointItems, m': EndpointEntries)
    requires ItemsKeyed(items) && ItemsFit(m, items) && PatchedBy(m, items, m')
    ensures forall x ::
      SomeStaleEndpoint(items, x) <==> StaleEndpoint(m, m', x)
    ensures forall spn ::
      SomeStaleService(items, spn) <==> StaleService(m, m', spn)
  {
    forall nn, spn: ServicePortName | nn in items
      ensures spn.nn == nn ==> Listed(OrEmpty(items[nn].previous), spn) == Listed(m, spn)
      ensures spn.nn == nn ==> Listed(OrEmpty(items[nn].current), spn) == Listed(m', spn)
      ensures spn.nn != nn ==> Listed(OrEmpty(items[nn].previous), spn) == [] == Listed(OrEmpty(items[nn].current), spn)
    {
      PatchFits(m, items, m', nn);
      ListedPart(m, spn);
      ListedPart(m', spn);
    }
    forall spn: ServicePortName | spn.nn !in items ensures Listed(m, spn) == Listed(m', spn) {
      assert Part(m', spn.nn) == PatchedPart(m, items, spn.nn);
      ListedPart(m, spn);
      ListedPart(m', spn);
    }
  }

  lemma PatchFits(m: EndpointEntries, items: EndpointItems, m': EndpointEntries, nn: NamespacedName)
    requires PatchedBy(m, items, m') && nn in items && OrEmpty(items[nn].previous) == Part(m, nn)
    ensures OrEmpty(items[nn].current) == Part(m', nn)
  {
    assert Part(m', nn) == PatchedPart(m, items, nn);
  }

  lemma ListedPart(m: EndpointEntries, spn: ServicePortName)
    ensures Listed(Part(m, spn.nn), spn) == Listed(m, spn)
  {
  }

  predicate HasLocal(eps: seq<Endpoint>, ip: string) {
    exists e :: e in eps && e.isLocal && e.ip == ip
  }

  function LocalIPs(eps: seq<Endpoint>): (r: set<string>)
    ensures forall ip :: ip in r <==> HasLocal(eps, ip)
  {
    set e | e in eps && e.isLocal :: e.ip
  }

  function AddressesOf(localIPs: map<NamespacedName, set<string>>, nn: NamespacedName): set<string> {
    if nn in localIPs then localIPs[nn] else {}
  }

  /** The addresses of the local endpoints of an object, over all its ports. */
  function LocalAddresses(m: EndpointEntries, nn: NamespacedName): set<string> {
    set spn, ip | spn in m && spn.nn == nn && ip in LocalIPs(m[spn]) :: ip
  }

  class EndpointsMap {
    var entries: EndpointEntries

    constructor ()
      ensures entries == map[]
    {
      entries := map[];
    }

    method Merge(other: EndpointEntries)
      modifies this
      ensures entries == old(entries) + other
    {
      var todo := other.Keys;
      while todo != {}
        invariant todo <= other.Keys
        invariant entries == old(entries) + (other - todo)
      {
        var spn :| spn in todo;
        entries := entries[spn := other[spn]];
        todo := todo - {spn};
      }
    }

    method Unmerge(other: EndpointEntries)
      modifies this
      ensures entries == old(entries) - other.Keys
    {
      var todo := other.Keys;
      while todo != {}
        invariant todo <= other.Keys
        invariant entries == old(entries) - (other.Keys - todo)
      {
        var spn :| spn in todo;
        entries := entries - {spn};
        todo := todo - {spn};
      }
    }

    /** The loop of apply over checked-out changes, listed in any order. Where the changes fit the map, the stale
        endpoints and services are exactly those between the map before and after. */
    method ApplyChanges(changes: seq<Change<seq<Endpoint>>>, ghost items: EndpointItems,
                        ghost names: seq<NamespacedName>)
      returns (staleEndpoints: seq<ServiceEndpoint>, staleServices: seq<ServicePortName>)
      requires ItemsKeyed(items) && Lists(items, names, changes)
      modifies this
      ensures PatchedBy(old(entries), items, entries)
      ensures ItemsFit(old(entries), items) ==>
        forall x :: x in staleEndpoints <==> StaleEndpoint(old(entries), entries, x)
      ensures ItemsFit(old(entries), items) ==>
        forall spn :: spn in staleServices <==> StaleService(old(entries), entries, spn)
    {
      staleEndpoints, staleServices := [], [];
      ghost var done: EndpointItems := map[];
      for i := 0 to |changes|
        invariant done.Keys == (set j | 0 <= j < i :: names[j])
        invariant forall nn | nn in done :: nn in items && done[nn] == items[nn]
        invariant PatchedBy(old(entries), done, entries)
        invariant forall x :: x in staleEndpoints <==> SomeStaleEndpoint(done, x)
        invariant forall spn :: spn in staleServices <==> SomeStaleService(done, spn)
      {
        ghost var nn, before := names[i], entries;
        var previous, current := OrEmpty(changes[i].previous), OrEmpty(changes[i].current);
        Unmerge(previous);
        Merge(current);
        staleEndpoints, staleServices := DetectStaleConnections(previous, current, staleEndpoints, staleServices);
        PatchStep(old(entries), done, before, nn, changes[i]);
        SomeStaleStep(done, nn, changes[i]);
        done := done[nn := changes[i]];
      }
      assert done == items;
      if ItemsFit(old(entries), items) {
        StaleExact(old(entries), items, entries);
      }
    }

    /** The local addresses of each object that has any. */
    method GetLocalEndpointIPs() returns (localIPs: map<NamespacedName, set<string>>)
      ensures forall nn :: AddressesOf(localIPs, nn) == LocalAddresses(entries, nn)
      ensures forall nn | nn in localIPs :: localIPs[nn] != {}
    {
      localIPs := map[];
      var todo := entries.Keys;
      while todo != {}
        invariant todo <= entries.Keys
        invariant forall nn :: AddressesOf(localIPs, nn) == LocalAddresses(entries - todo, nn)
        invariant forall nn | nn in localIPs :: localIPs[nn] != {}
      {
        var spn :| spn in todo;
        localIPs := AddLocalIPs(localIPs, spn.nn, entries[spn]);
        LocalStep(entries, todo, spn);
        todo := todo - {spn};
      }
      assert entries - todo == entries;
    }
  }

  method AddLocalIPs(localIPs: map<NamespacedName, set<string>>, nn: NamespacedName, eps: seq<Endpoint>)
    returns (r: map<NamespacedName, set<string>>)
    requires forall m | m in localIPs :: localIPs[m] != {}
    ensures forall m ::
      AddressesOf(r, m) == AddressesOf(localIPs, m) + if m == nn then LocalIPs(eps) else {}
    ensures forall m | m in r :: r[m] != {}
  {
    r := localIPs;
    for i := 0 to |eps|
      invariant AddressesOf(r, nn) == AddressesOf(localIPs, nn) + LocalIPs(eps[..i])
      invariant forall m | m != nn :: AddressesOf(r, m) == AddressesOf(localIPs, m)
      invariant forall m | m in r :: r[m] != {}
    {
      assert eps[..i + 1] == eps[..i] + [eps[i]];
      assert LocalIPs(eps[..i + 1]) == LocalIPs(eps[..i]) + if eps[i].isLocal then {eps[i].ip} else {};
      if eps[i].isLocal {
        r := r[nn := AddressesOf(r, nn) + {eps[i].ip}];
      }
    }
    assert eps[..|eps|] == eps;
  }

  lemma LocalStep(m: EndpointEntries, todo: set<ServicePortName>, spn: ServicePortName)
    requires spn in todo && todo <= m.Keys
    ensures forall nn ::
      LocalAddresses(m - (todo - {spn}), nn)
          == LocalAddresses(m - todo, nn) + if nn == spn.nn then LocalIPs(m[spn]) else {}
  {
    var m0, m1 := m - todo, m - (todo - {spn});
    assert forall k | k in m0 :: k in m1 && m1[k] == m0[k];
    assert forall k | k in m1 :: k == spn || (k in m0 && m1[k] == m0[k]);
    forall nn ensures LocalAddresses(m1, nn) == LocalAddresses(m0, nn) + if nn == spn.nn then LocalIPs(m[spn]) else {} {
      forall ip | ip in LocalAddresses(m0, nn) ensures ip in LocalAddresses(m1, nn) {
        var k :| k in m0 && k.nn == nn && ip in LocalIPs(m0[k]);
        assert k in m1;
      }
      forall ip | nn == spn.nn && ip in LocalIPs(m[spn]) ensures ip in LocalAddresses(m1, nn) {
        assert spn in m1 && m1[spn] == m[spn];
      }
      forall ip | ip in LocalAddresses(m1, nn)
        ensures ip in LocalAddresses(m0, nn) || (nn == spn.nn && ip in LocalIPs(m[spn]))
      {
        var k :| k in m1 && k.nn == nn && ip in LocalIPs(m1[k]);
        if k != spn {
          assert k in m0;
        }
      }
    }
  }

  lemma PatchStep(start: EndpointEntries, done: EndpointItems, before: EndpointEntries, nn: NamespacedName,
                  change: Change<seq<Endpoint>>)
    requires PatchedBy(start, done, before) && nn !in done
    requires Keyed(nn, OrEmpty(change.previous)) && Keyed(nn, OrEmpty(change.current))
    ensures PatchedBy(start, done[nn := change], Patch(before, OrEmpty(change.previous), OrEmpty(change.current)))
  {
    var after := Patch(before, OrEmpty(change.previous), OrEmpty(change.current));
    PatchLocal(before, nn, OrEmpty(change.previous), OrEmpty(change.current));
    forall m ensures Part(after, m) == PatchedPart(start, done[nn := change], m) {
      assert Part(before, m) == PatchedPart(start, done, m);
    }
  }
}
