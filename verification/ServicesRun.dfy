/** Runs of the service side: events recorded by ServiceChangeTracker.Update, applied as a whole under the tracker's
    lock by ServiceMap.apply. */
module ServicesRun {
  import opened Api
  import opened PortMaps
  import opened ChangeTracking
  import opened Services

  type Objects = map<NamespacedName, Service>

  /** history holds the latest objects after every event so far; seenAt is the entry the last apply started from. */
  datatype State = State(history: seq<Objects>, items: ServiceItems, entries: PortMap<ServiceInfo>, seenAt: nat)

  const START := State([map[]], map[], map[], 0)

  function Latest(s: State): Objects
    requires s.history != []
  {
    s.history[|s.history| - 1]
  }

  function Rendered(node: Node, objects: Objects, nn: NamespacedName): MaybeMap<ServiceInfo> {
    ServiceToMap(node.AnyFamily(), Lookup(objects, nn))
  }

  /** The service map recomputed from scratch. */
  ghost function FullMap(node: Node, objects: Objects): PortMap<ServiceInfo> {
    Flatten(map nn | nn in objects :: OrEmpty(Rendered(node, objects, nn)))
  }

  ghost predicate Named(objects: Objects) {
    forall nn | nn in objects :: objects[nn].name == nn
  }

  /** An informer event: previous is the last object seen under the name, and one of the two is there. */
  ghost predicate Observe(node: Node, s: State, s': State, nn: NamespacedName, current: Option<Service>,
                          changed: bool) {
    && s.history != []
    && (current.Some? ==> current.value.name == nn)
    && (current.None? ==> nn in Latest(s))
    && s' == s.(history := s.history + [Observed(Latest(s), nn, current)],
                items := Track(s.items, nn, Rendered(node, Latest(s), nn), ServiceToMap(node.AnyFamily(), current)))
    && changed == (s'.items != map[])
  }

  ghost predicate Apply(s: State, s': State) {
    && s.history != []
    && PatchedBy(s.entries, s.items, s'.entries)
    && s' == s.(items := map[], entries := s'.entries, seenAt := |s.history| - 1)
  }

  /** An apply is one step here, so no change is ever checked out but not merged. */
  ghost predicate Chained(node: Node, s: State, nn: NamespacedName)
    requires s.history != [] && s.seenAt < |s.history|
  {
    Chain(Part(s.entries, nn), map[], s.items, nn, Rendered(node, s.history[s.seenAt], nn),
          Rendered(node, Latest(s), nn))
  }

  ghost predicate Inv(node: Node, s: State) {
    && s.history != [] && s.seenAt < |s.history|
    && (forall i | 0 <= i < |s.history| :: Named(s.history[i]))
    && (forall nn :: Chained(node, s, nn))
  }

  lemma RenderedKeyed(node: Node, objects: Objects, nn: NamespacedName)
    requires Named(objects)
    ensures Keyed(nn, OrEmpty(Rendered(node, objects, nn)))
  {
    if nn in objects {
      PortEntriesUniform(objects[nn], objects[nn].ports);
    }
  }

  lemma StartInv(node: Node)
    ensures Inv(node, START)
  {
    forall nn ensures Chained(node, START, nn) {
    }
  }

  lemma ObserveKeeps(node: Node, s: State, s': State, nn: NamespacedName, current: Option<Service>, changed: bool)
    requires Inv(node, s) && Observe(node, s, s', nn, current, changed)
    ensures Inv(node, s')
  {
    forall m ensures Chained(node, s', m) {
      assert Chained(node, s, m);
      TrackKeepsChain(Part(s.entries, m), map[], s.items, nn, m, Rendered(node, s.history[s.seenAt], m),
                      Rendered(node, Latest(s), m), Rendered(node, Latest(s), nn),
                      ServiceToMap(node.AnyFamily(), current));
    }
  }

  lemma ItemsAreKeyed(node: Node, s: State)
    requires Inv(node, s)
    ensures ItemsKeyed(s.items)
  {
    forall nn | nn in s.items
      ensures Keyed(nn, OrEmpty(s.items[nn].previous)) && Keyed(nn, OrEmpty(s.items[nn].current))
    {
      assert Chained(node, s, nn);
      RenderedKeyed(node, s.history[s.seenAt], nn);
      RenderedKeyed(node, Latest(s), nn);
    }
  }

  lemma ApplyKeeps(node: Node, s: State, s': State)
    requires Inv(node, s) && Apply(s, s')
    ensures Inv(node, s')
  {
    forall nn ensures Chained(node, s', nn) {
      assert Chained(node, s, nn) && Part(s'.entries, nn) == PatchedPart(s.entries, s.items, nn);
    }
  }

  /** The incrementally patched service map is the one recomputed from the objects as of the last apply. */
  lemma MapIsRecomputed(node: Node, s: State)
    requires Inv(node, s)
    ensures s.entries == FullMap(node, s.history[s.seenAt])
    ensures s.items == map[] ==> s.entries == FullMap(node, Latest(s))
  {
    forall nn ensures Base(s.items, nn, Rendered(node, Latest(s), nn)) == Rendered(node, s.history[s.seenAt], nn) {
      assert Chained(node, s, nn);
    }
    SnapshotIsFull(node, s, s.history[s.seenAt]);
    if s.items == map[] {
      SnapshotIsFull(node, s, Latest(s));
    }
  }

  lemma SnapshotIsFull(node: Node, s: State, objects: Objects)
    requires Inv(node, s) && objects in s.history
    requires forall nn :: Base(s.items, nn, Rendered(node, Latest(s), nn)) == Rendered(node, objects, nn)
    ensures s.entries == FullMap(node, objects)
  {
    var parts := map nn | nn in objects :: OrEmpty(Rendered(node, objects, nn));
    forall nn | nn in parts ensures Keyed(nn, parts[nn]) {
      RenderedKeyed(node, objects, nn);
    }
    forall nn ensures Part(s.entries, nn) == Part(FullMap(node, objects), nn) {
      assert Chained(node, s, nn);
      FlattenPart(parts, nn);
    }
    EqualByParts(s.entries, FullMap(node, objects));
  }

  /** So the ports of a service agree on its health check node port and each entry has the protocol of its key. */
  lemma MapIsUniform(node: Node, s: State)
    requires Inv(node, s)
    ensures HealthPortsAgree(s.entries)
    ensures forall k | k in s.entries :: s.entries[k].protocol == k.protocol
  {
    var objects := s.history[s.seenAt];
    forall k | k in s.entries
      ensures k.nn in objects && s.entries[k].protocol == k.protocol
           && s.entries[k].healthCheckNodePort == objects[k.nn].healthCheckNodePort
    {
      assert Chained(node, s, k.nn);
      assert k in Part(s.entries, k.nn) && Part(s.entries, k.nn)[k] == s.entries[k];
      PortEntriesUniform(objects[k.nn], objects[k.nn].ports);
    }
  }
}
