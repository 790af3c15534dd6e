/** controller/service.go: the service change tracker and the incrementally patched service map. */
module Services {
  import opened Api
  import opened PortMaps
  import opened ChangeTracking

  datatype ServicePort = ServicePort(name: string, port: int, protocol: Protocol, rest: string)

  /** A Service object. skip is the verdict of utilproxy.ShouldSkipService, healthCheckNodePort is 0 when the service
      needs no health check, and rest stands for the fields that are only carried along. */
  datatype Service = Service(name: NamespacedName, skip: bool, clusterIP: string, ports: seq<ServicePort>,
                             healthCheckNodePort: int, rest: string)

  datatype ServiceInfo = ServiceInfo(clusterIP: string, port: int, protocol: Protocol, healthCheckNodePort: int,
                                     nameString: string, rest: (string, string))

  type ServiceItems = Items<ServiceInfo>

  function PortKey(service: Service, port: ServicePort): ServicePortName {
    ServicePortName(service.name, port.name, port.protocol)
  }

  function NewServiceInfo(service: Service, port: ServicePort): ServiceInfo {
    ServiceInfo(service.clusterIP, port.port, port.protocol, service.healthCheckNodePort,
                PortKey(service, port).String(), (service.rest, port.rest))
  }

  /** The entries of a list of ports, in which the last port with a key wins. */
  function PortEntries(service: Service, ports: seq<ServicePort>): PortMap<ServiceInfo> {
    if ports == [] then map[]
    else
      var last := ports[|ports| - 1];
      PortEntries(service, ports[..|ports| - 1])[PortKey(service, last) := NewServiceInfo(service, last)]
  }

  function ServiceToMap(node: Node, service: Option<Service>): MaybeMap<ServiceInfo> {
    if service.None? || service.value.skip then None
    else if service.value.clusterIP != "" && node.WrongFamily(service.value.clusterIP) then None
    else Some(PortEntries(service.value, service.value.ports))
  }

  /** A service renders to the keys of its ports, and where ports share a key the last one wins. */
  lemma {:induction false} LastPortWins(service: Service, ports: seq<ServicePort>, i: nat)
    requires i < |ports| && forall j | i < j < |ports| :: PortKey(service, ports[j]) != PortKey(service, ports[i])
    ensures PortKey(service, ports[i]) in PortEntries(service, ports)
    ensures PortEntries(service, ports)[PortKey(service, ports[i])] == NewServiceInfo(service, ports[i])
  {
    if i == |ports| - 1 {
    } else {
      LastPortWins(service, ports[..|ports| - 1], i);
    }
  }

  lemma {:induction false} OnlyPortKeys(service: Service, ports: seq<ServicePort>, k: ServicePortName)
    requires k in PortEntries(service, ports)
    ensures exists i :: 0 <= i < |ports| && k == PortKey(service, ports[i])
  {
    var n := |ports| - 1;
    if k == PortKey(service, ports[n]) {
    } else {
      OnlyPortKeys(service, ports[..n], k);
      var i :| 0 <= i < n && k == PortKey(service, ports[..n][i]);
      assert k == PortKey(service, ports[i]);
    }
  }

  lemma {:induction false} PortEntriesUniform(service: Service, ports: seq<ServicePort>)
    ensures Keyed(service.name, PortEntries(service, ports))
    ensures forall k | k in PortEntries(service, ports) ::
      var info := PortEntries(service, ports)[k];
      info.clusterIP == service.clusterIP && info.protocol == k.protocol
      && info.healthCheckNodePort == service.healthCheckNodePort
  {
    if ports == [] {
    } else {
      PortEntriesUniform(service, ports[..|ports| - 1]);
    }
  }

  // ---------- the rendering in terms of the object ----------

  /** No later port has the name and protocol of the i-th. */
  ghost predicate LastOfItsKey(service: Service, i: nat)
    requires i < |service.ports|
  {
    forall j | i < j < |service.ports| ::
      service.ports[j].name != service.ports[i].name || service.ports[j].protocol != service.ports[i].protocol
  }

  ghost predicate ShowsPort(service: Service, port: ServicePort, info: ServiceInfo) {
    && info.port == port.port && info.protocol == port.protocol && info.clusterIP == service.clusterIP
    && info.healthCheckNodePort == service.healthCheckNodePort && info.rest == (service.rest, port.rest)
    && info.nameString
         == service.name.namespace + "/" + service.name.name + (if port.name == "" then "" else ":" + port.name)
  }

  /** The entries are those of the ports, and each one is that of the last port with its name and protocol. */
  ghost predicate ShowsPorts(service: Service, entries: PortMap<ServiceInfo>) {
    (forall k :: k in entries ==> HasPort(service, k)) && (forall i :: PortIn(service, i, entries))
  }

  ghost predicate HasPort(service: Service, k: ServicePortName) {
    && k.nn == service.name
    && exists i :: 0 <= i < |service.ports|
                   && service.ports[i].name == k.port && service.ports[i].protocol == k.protocol
  }

  ghost predicate PortIn(service: Service, i: int, entries: PortMap<ServiceInfo>) {
    0 <= i < |service.ports| && LastOfItsKey(service, i) ==>
      var k := ServicePortName(service.name, service.ports[i].name, service.ports[i].protocol);
      k in entries && ShowsPort(service, service.ports[i], entries[k])
  }

  /** A service is left out if it is skipped, or has an address of the other IP family. */
  ghost predicate LeftOut(node: Node, service: Service) {
    service.skip
    || (service.clusterIP != "" && node.ipv6Mode.Some? && node.isIPv6(service.clusterIP) != node.ipv6Mode.value)
  }

  ghost predicate ShowsService(node: Node, service: Option<Service>, r: MaybeMap<ServiceInfo>) {
    && (r.None? <==> service.None? || LeftOut(node, service.value))
    && (r.Some? ==> ShowsPorts(service.value, r.value))
  }

  lemma RenderingShowsService(node: Node, service: Option<Service>)
    ensures ShowsService(node, service, ServiceToMap(node, service))
  {
    if service.Some? && !LeftOut(node, service.value) {
      var s, entries := service.value, PortEntries(service.value, service.value.ports);
      forall k | k in entries ensures HasPort(s, k) {
        OnlyPortKeys(s, s.ports, k);
      }
      forall i ensures PortIn(s, i, entries) {
        if 0 <= i < |s.ports| && LastOfItsKey(s, i) {
          LastPortWins(s, s.ports, i);
        }
      }
    }
  }

  method ServiceToServiceMap(node: Node, service: Option<Service>) returns (r: MaybeMap<ServiceInfo>)
    ensures r == ServiceToMap(node, service) && ShowsService(node, service, r)
  {
    RenderingShowsService(node, service);
    if service.None? {
      return None;
    }
    var svc := service.value;
    if svc.skip {
      return None;
    }
    if svc.clusterIP != "" {
      if node.WrongFamily(svc.clusterIP) {
        return None;
      }
    }
    var serviceMap: PortMap<ServiceInfo> := map[];
    for i := 0 to |svc.ports|
      invariant serviceMap == PortEntries(svc, svc.ports[..i])
    {
      assert svc.ports[..i + 1][..i] == svc.ports[..i];
      serviceMap := serviceMap[PortKey(svc, svc.ports[i]) := NewServiceInfo(svc, svc.ports[i])];
    }
    assert svc.ports[..|svc.ports|] == svc.ports;
    return Some(serviceMap);
  }

  class ServiceChangeTracker {
    const node: Node
    var items: ServiceItems

    constructor (node: Node)
      ensures this.node == node && items == map[]
    {
      this.node := node;
      items := map[];
    }

    /** True exactly when some change is pending afterwards. */
    method Update(previous: Option<Service>, current: Option<Service>) returns (changed: bool)
      modifies this
      ensures previous.None? && current.None? ==> items == old(items) && !changed
      ensures previous.Some? || current.Some? ==>
        && items == Track(old(items), (if current.Some? then current else previous).value.name,
                          ServiceToMap(node, previous), ServiceToMap(node, current))
        && changed == (items != map[])
    {
      var svc := current;
      if svc.None? {
        svc := previous;
      }
      if svc.None? {
        return false;
      }
      items := Accumulate(items, svc.value.name, previous, current);
      changed := |items| > 0;
    }

    // The steps of Update that concern the pair of previous and current state.
    method Accumulate(pending: ServiceItems, nn: NamespacedName, previous: Option<Service>, current: Option<Service>)
      returns (pending': ServiceItems)
      ensures pending' == Track(pending, nn, ServiceToMap(node, previous), ServiceToMap(node, current))
    {
      pending' := pending;
      if nn !in pending' {
        var before := ServiceToServiceMap(node, previous);
        pending' := pending'[nn := Change(before, None)];
      }
      var after := ServiceToServiceMap(node, current);
      pending' := pending'[nn := pending'[nn].(current := after)];
      if pending'[nn].previous == pending'[nn].current {
        pending' := pending' - {nn};
      }
    }
  }

  // ---------- the service map ----------

  ghost predicate ItemsKeyed(items: ServiceItems) {
    forall nn | nn in items :: Keyed(nn, OrEmpty(items[nn].previous)) && Keyed(nn, OrEmpty(items[nn].current))
  }

  lemma RenderedServiceKeyed(node: Node, service: Option<Service>)
    ensures service.Some? ==> Keyed(service.value.name, OrEmpty(ServiceToMap(node, service)))
  {
    if service.Some? {
      PortEntriesUniform(service.value, service.value.ports);
    }
  }

  /** The addresses of UDP service ports that are in m and no longer in m', as m holds them. */
  ghost function StaleAddresses(m: PortMap<ServiceInfo>, m': PortMap<ServiceInfo>): (r: set<string>)
    ensures forall ip :: ip in r <==> exists k :: k in m && k !in m' && m[k].protocol == "UDP" && m[k].clusterIP == ip
  {
    set k | k in m && k !in m' && m[k].protocol == UDP :: m[k].clusterIP
  }

  class ServiceMap {
    var entries: PortMap<ServiceInfo>

    constructor (entries: PortMap<ServiceInfo>)
      ensures this.entries == entries
    {
      this.entries := entries;
    }

    method Merge(other: PortMap<ServiceInfo>) returns (existing: set<string>)
      modifies this
      ensures entries == old(entries) + other
      ensures existing == set k | k in other :: k.String()
    {
      existing := {};
      var todo := other.Keys;
      while todo != {}
        invariant todo <= other.Keys
        invariant existing == set k | k in other && k !in todo :: k.String()
        invariant entries == old(entries) + (other - todo)
      {
        var spn :| spn in todo;
        existing := existing + {spn.String()};
        entries := entries[spn := other[spn]];
        todo := todo - {spn};
      }
    }

    method Filter(other: PortMap<ServiceInfo>)
      modifies this
      ensures entries == old(entries) - other.Keys
    {
      var todo := entries.Keys;
      while todo != {}
        invariant todo <= old(entries).Keys
        invariant entries == old(entries) - (other.Keys - todo)
      {
        var spn :| spn in todo;
        if spn in other {
          entries := entries - {spn};
        }
        todo := todo - {spn};
      }
    }

    method Unmerge(other: PortMap<ServiceInfo>, stale: set<string>) returns (stale': set<string>)
      modifies this
      ensures entries == old(entries) - other.Keys
      ensures stale' == stale + StaleAddresses(old(entries), entries)
    {
      stale' := stale;
      var todo := other.Keys;
      while todo != {}
        invariant todo <= other.Keys
        invariant entries == old(entries) - (other.Keys - todo)
        invariant stale' == stale + StaleAddresses(old(entries), entries)
      {
        var spn :| spn in todo;
        if spn in entries {
          var info := entries[spn];
          if info.protocol == UDP {
            stale' := stale' + {info.clusterIP};
          }
          entries := entries - {spn};
        }
        todo := todo - {spn};
      }
    }

    method ApplyChange(change: Change<ServiceInfo>, stale: set<string>) returns (stale': set<string>)
      modifies this
      ensures entries == Patch(old(entries), OrEmpty(change.previous), OrEmpty(change.current))
      ensures stale' == stale + StaleAddresses(old(entries), entries)
    {
      var previous, current := OrEmpty(change.previous), OrEmpty(change.current);
      var _ := Merge(current);
      ghost var merged := entries;
      var filtered := new ServiceMap(previous);
      filtered.Filter(current);
      MergeFilterUnmerge(old(entries), previous, current);
      stale' := Unmerge(filtered.entries, stale);
      assert forall k | k in merged && k !in entries :: k in old(entries) && merged[k] == old(entries)[k];
      assert StaleAddresses(merged, entries) == StaleAddresses(old(entries), entries);
    }

    /** Applies and clears the pending changes. The stale addresses are exactly those of the UDP service ports that
        the apply removed, as held before it. */
    method Apply(changes: ServiceChangeTracker) returns (stale: set<string>)
      requires ItemsKeyed(changes.items)
      modifies this, changes
      ensures changes.items == map[]
      ensures PatchedBy(old(entries), old(changes.items), entries)
      ensures stale == StaleAddresses(old(entries), entries)
    {
      stale := {};
      var items := changes.items;
      var todo := items.Keys;
      while todo != {}
        invariant todo <= items.Keys
        invariant PatchedBy(old(entries), items - todo, entries)
        invariant stale == StaleAddresses(old(entries), entries)
      {
        ghost var before, done := entries, items - todo;
        var nn :| nn in todo;
        stale := ApplyChange(items[nn], stale);
        assert items - (todo - {nn}) == done[nn := items[nn]];
        PatchOneMore(old(entries), done, before, entries, nn, items[nn]);
        todo := todo - {nn};
      }
      assert items - todo == items;
      changes.items := map[];
    }
  }

  lemma PatchOneMore(start: PortMap<ServiceInfo>, done: ServiceItems, before: PortMap<ServiceInfo>,
                     after: PortMap<ServiceInfo>, nn: NamespacedName, change: Change<ServiceInfo>)
    requires PatchedBy(start, done, before) && nn !in done
    requires Keyed(nn, OrEmpty(change.previous)) && Keyed(nn, OrEmpty(change.current))
    requires after == Patch(before, OrEmpty(change.previous), OrEmpty(change.current))
    ensures PatchedBy(start, done[nn := change], after)
    ensures StaleAddresses(start, before) + StaleAddresses(before, after) == StaleAddresses(start, after)
  {
    PatchLocal(before, nn, OrEmpty(change.previous), OrEmpty(change.current));
    forall m ensures Part(after, m) == PatchedPart(start, done[nn := change], m) {
      assert Part(before, m) == PatchedPart(start, done, m);
    }
    SamePart(before, start, nn);
    forall k: ServicePortName | k.nn != nn ensures k in before <==> k in after {
      SamePart(before, after, k.nn);
    }
    forall k | k in before && k !in after ensures k in start && start[k] == before[k] {
      assert k.nn == nn;
    }
    forall k | k in start && k !in after ensures k in before ==> before[k] == start[k] {
      if k in before {
        assert k.nn == nn;
      }
    }
    forall k | k in start && k !in before ensures k !in after {
      assert k.nn != nn;
    }
  }

  // ---------- health check node ports ----------

  /** All ports of a service carry the same health check node port. */
  ghost predicate HealthPortsAgree(m: PortMap<ServiceInfo>) {
    forall k, k' | k in m && k' in m && k.nn == k'.nn :: m[k].healthCheckNodePort == m[k'].healthCheckNodePort
  }

  /** UpdateServiceMap. The health check ports are cut to 16 bits; where the ports of each service agree, they do not
      depend on the order in which the map is visited. */
  method UpdateServiceMap(serviceMap: ServiceMap, changes: ServiceChangeTracker)
    returns (healthPorts: map<NamespacedName, nat>, stale: set<string>)
    requires ItemsKeyed(changes.items)
    modifies serviceMap, changes
    ensures changes.items == map[]
    ensures PatchedBy(old(serviceMap.entries), old(changes.items), serviceMap.entries)
    ensures stale == StaleAddresses(old(serviceMap.entries), serviceMap.entries)
    ensures healthPorts.Keys
         == set k | k in serviceMap.entries && serviceMap.entries[k].healthCheckNodePort != 0 :: k.nn
    ensures HealthPortsAgree(serviceMap.entries) ==> forall k | k in serviceMap.entries && k.nn in healthPorts ::
      healthPorts[k.nn] == serviceMap.entries[k].healthCheckNodePort % 65536
  {
    stale := serviceMap.Apply(changes);
    healthPorts := map[];
    var entries := serviceMap.entries;
    var todo := entries.Keys;
    while todo != {}
      invariant todo <= entries.Keys
      invariant healthPorts.Keys == set k | k in entries && k !in todo && entries[k].healthCheckNodePort != 0 :: k.nn
      invariant HealthPortsAgree(entries) ==> forall k | k in entries && k.nn in healthPorts ::
        healthPorts[k.nn] == entries[k].healthCheckNodePort % 65536
    {
      var spn :| spn in todo;
      var info := entries[spn];
      if info.healthCheckNodePort != 0 {
        healthPorts := healthPorts[spn.nn := info.healthCheckNodePort % 65536];
      }
      todo := todo - {spn};
    }
  }
}
