/** Maps keyed by service port, which both change trackers produce one object at a time and which the proxier
    keeps patched for all objects together. */
module PortMaps {
  import opened Api

  type PortMap<V> = map<ServicePortName, V>

  /** A nil map and an empty map count as different for reflect.DeepEqual, hence None and Some(map[]). */
  type MaybeMap<V> = Option<PortMap<V>>

  function OrEmpty<V>(m: MaybeMap<V>): PortMap<V> {
    match m
    case None => map[]
    case Some(entries) => entries
  }

  ghost predicate Keyed<V>(nn: NamespacedName, m: PortMap<V>) {
    forall k | k in m :: k.nn == nn
  }

  /** The entries that belong to one object. */
  function Part<V>(m: PortMap<V>, nn: NamespacedName): PortMap<V> {
    map k | k in m && k.nn == nn :: m[k]
  }

  /** Deleting the keys of previous and then writing every entry of current. */
  function Patch<V>(m: PortMap<V>, previous: PortMap<V>, current: PortMap<V>): PortMap<V> {
    (m - previous.Keys) + current
  }

  lemma PatchPart<V>(m: PortMap<V>, previous: PortMap<V>, current: PortMap<V>, nn: NamespacedName)
    requires Keyed(nn, current) && previous.Keys == Part(m, nn).Keys
    ensures Part(Patch(m, previous, current), nn) == current
    ensures forall other | other != nn :: Part(Patch(m, previous, current), other) == Part(m, other)
  {
    var r := Patch(m, previous, current);
    assert forall k | k in m && k.nn == nn :: k in Part(m, nn);
    assert Part(r, nn) == current;
    forall other | other != nn ensures Part(r, other) == Part(m, other) {
      assert forall k | k in previous.Keys :: k.nn == nn;
    }
  }

  lemma EqualByParts<V>(m: PortMap<V>, m': PortMap<V>)
    requires forall nn :: Part(m, nn) == Part(m', nn)
    ensures m == m'
  {
    assert forall k | k in m :: k in Part(m, k.nn) && Part(m, k.nn)[k] == m[k];
    assert forall k | k in m' :: k in Part(m', k.nn) && Part(m', k.nn)[k] == m'[k];
    assert m.Keys == m'.Keys;
  }

  /** The union of one map per object. */
  ghost function Flatten<V>(parts: map<NamespacedName, PortMap<V>>): PortMap<V> {
    var keys := set nn, k | nn in parts && k in parts[nn] :: k;
    map k | k in keys && k.nn in parts && k in parts[k.nn] :: parts[k.nn][k]
  }

  lemma FlattenPart<V>(parts: map<NamespacedName, PortMap<V>>, nn: NamespacedName)
    requires forall n | n in parts :: Keyed(n, parts[n])
    ensures Part(Flatten(parts), nn) == if nn in parts then parts[nn] else map[]
  {
    if nn in parts {
      var keys := set n, k | n in parts && k in parts[n] :: k;
      assert forall k | k in parts[nn] :: k in keys;
      assert Part(Flatten(parts), nn).Keys == parts[nn].Keys;
    }
  }

  lemma PatchLocal<V>(m: PortMap<V>, nn: NamespacedName, previous: PortMap<V>, current: PortMap<V>)
    requires Keyed(nn, previous) && Keyed(nn, current)
    ensures Part(Patch(m, previous, current), nn) == Patch(Part(m, nn), previous, current)
    ensures forall other | other != nn :: Part(Patch(m, previous, current), other) == Part(m, other)
  {
  }

  /** Merging current, filtering it out of previous and unmerging the rest deletes previous and adds current. */
  lemma MergeFilterUnmerge<V>(m: PortMap<V>, previous: PortMap<V>, current: PortMap<V>)
    ensures (m + current) - (previous - current.Keys).Keys == Patch(m, previous, current)
  {
  }

  lemma SamePart<V>(m: PortMap<V>, m': PortMap<V>, nn: NamespacedName)
    requires Part(m, nn) == Part(m', nn)
    ensures forall k: ServicePortName | k.nn == nn :: (k in m <==> k in m') && (k in m ==> m[k] == m'[k])
  {
    forall k: ServicePortName | k.nn == nn ensures (k in m <==> k in m') && (k in m ==> m[k] == m'[k]) {
      assert k in m <==> k in Part(m, nn);
      assert k in m' <==> k in Part(m', nn);
      assert k in m ==> Part(m, nn)[k] == m[k];
    }
  }
}
