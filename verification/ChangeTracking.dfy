/** The pairs of previous and current state that EndpointChangeTracker and ServiceChangeTracker accumulate. */
module ChangeTracking {
  import opened Api
  import opened PortMaps

  datatype Change<V> = Change(previous: MaybeMap<V>, current: MaybeMap<V>)

  type Items<V> = map<NamespacedName, Change<V>>

  /** An event that takes an object from one rendering to another. The previous state of a pending change is kept,
      and a change that has come back to where it started is dropped. */
  function Track<V(==)>(items: Items<V>, nn: NamespacedName, before: MaybeMap<V>, after: MaybeMap<V>): Items<V> {
    var previous := if nn in items then items[nn].previous else before;
    if previous == after then items - {nn} else items[nn := Change(previous, after)]
  }

  /** The state of an object that checked-out changes lead up to: what the next checkout will start from. */
  function Base<V>(items: Items<V>, nn: NamespacedName, rendered: MaybeMap<V>): MaybeMap<V> {
    if nn in items then items[nn].previous else rendered
  }

  /** A pending change of nn ends at the rendering of the latest object and is a genuine difference. */
  ghost predicate EndsAt<V>(items: Items<V>, nn: NamespacedName, rendered: MaybeMap<V>) {
    nn in items ==> items[nn].current == rendered && items[nn].previous != rendered
  }

  /** What the big map holds for an object (part), then the change that is checked out but not merged yet (left), then
      the pending change form a chain that ends at the rendering of the latest object. The checked-out change ends at
      the rendering that the checkout saw. */
  ghost predicate Chain<V>(part: PortMap<V>, left: Items<V>, items: Items<V>, nn: NamespacedName,
                           seen: MaybeMap<V>, latest: MaybeMap<V>) {
    && EndsAt(items, nn, latest)
    && Base(items, nn, latest) == seen
    && if nn in left then OrEmpty(left[nn].previous) == part && left[nn].current == seen else OrEmpty(seen) == part
  }

  /** An event for nn keeps the chain of every object m. */
  lemma TrackKeepsChain<V>(part: PortMap<V>, left: Items<V>, items: Items<V>, nn: NamespacedName, m: NamespacedName,
                           seen: MaybeMap<V>, latest: MaybeMap<V>, before: MaybeMap<V>, after: MaybeMap<V>)
    requires Chain(part, left, items, m, seen, latest) && (m == nn ==> latest == before)
    ensures Chain(part, left, Track(items, nn, before, after), m, seen, if m == nn then after else latest)
  {
  }

  /** The checked-out items as a list, in whatever order the map was visited. */
  ghost predicate Lists<V>(items: Items<V>, names: seq<NamespacedName>, changes: seq<Change<V>>) {
    && |names| == |changes|
    && (forall i, j | 0 <= i < j < |names| :: names[i] != names[j])
    && (forall nn :: nn in names <==> nn in items)
    && (forall i | 0 <= i < |names| :: names[i] in items && changes[i] == items[names[i]])
  }

  lemma ListsSnoc<V>(items: Items<V>, names: seq<NamespacedName>, changes: seq<Change<V>>, nn: NamespacedName,
                     change: Change<V>)
    requires Lists(items, names, changes) && nn !in items
    ensures Lists(items[nn := change], names + [nn], changes + [change])
  {
    assert forall m :: m in names + [nn] <==> m in names || m == nn;
  }

  /** Every object with a pending change has its previous keys replaced by its current entries; nothing else moves. */
  ghost predicate PatchedBy<V>(m: PortMap<V>, items: Items<V>, m': PortMap<V>) {
    forall nn :: Part(m', nn) == PatchedPart(m, items, nn)
  }

  ghost function PatchedPart<V>(m: PortMap<V>, items: Items<V>, nn: NamespacedName): PortMap<V> {
    if nn in items then Patch(Part(m, nn), OrEmpty(items[nn].previous), OrEmpty(items[nn].current)) else Part(m, nn)
  }

  /** The result of an apply does not depend on the order in which the items are visited. */
  lemma PatchedByDetermines<V>(m: PortMap<V>, items: Items<V>, r: PortMap<V>, r': PortMap<V>)
    requires PatchedBy(m, items, r) && PatchedBy(m, items, r')
    ensures r == r'
  {
    EqualByParts(r, r');
  }
}
