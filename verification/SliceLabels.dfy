/** Slices are filed per service, by their label. What that means for a slice whose label changes. */
module SliceLabels {
  import opened Api
  import opened Endpoints
  import opened EndpointSlices
  import opened EndpointTracker
  import opened SlicesRun
  import PortMaps

  /** An informer event about a slice. */
  datatype Event = Event(slice: Slice, remove: bool)

  /** The latest slice under each name. */
  type ByName = map<NamespacedName, Slice>

  function NameOf(slice: Slice): NamespacedName {
    NamespacedName(slice.namespace, slice.name)
  }

  function LatestAfter(latest: ByName, e: Event): ByName {
    if e.remove then latest - {NameOf(e.slice)} else latest[NameOf(e.slice) := e.slice]
  }

  function LatestByName(events: seq<Event>): ByName {
    if events == [] then map[] else LatestAfter(LatestByName(events[..|events| - 1]), events[|events| - 1])
  }

  /** What the tracker files: events without a target are ignored. */
  function FiledAfter(objects: Objects, e: Event): Objects {
    match SliceTarget(e.slice)
    case None => objects
    case Some(nn) => ObservedSlice(objects, nn, e.slice, e.remove)
  }

  function Filed(events: seq<Event>): Objects {
    if events == [] then map[] else FiledAfter(Filed(events[..|events| - 1]), events[|events| - 1])
  }

  /** The latest slices with the label of a service. */
  function Labelled(latest: ByName, nn: NamespacedName): ServiceSlices {
    map k | k in (set id | id in latest :: id.name)
            && NamespacedName(nn.namespace, k) in latest
            && BelongsTo(latest[NamespacedName(nn.namespace, k)], nn) ::
      latest[NamespacedName(nn.namespace, k)]
  }

  /** What is filed under a service is what has its label. */
  ghost predicate FiledAsLabelled(objects: Objects, latest: ByName, nn: NamespacedName, k: string) {
    Lookup(SlicesAt(objects, nn), k) == Lookup(Labelled(latest, nn), k)
  }

  ghost predicate AllAsLabelled(objects: Objects, latest: ByName) {
    forall nn, k :: FiledAsLabelled(objects, latest, nn, k)
  }

  /** The slice is filed under a service that it no longer belongs to. */
  ghost predicate Relabels(latest: ByName, e: Event) {
    var id := NameOf(e.slice);
    id in latest && exists nn :: BelongsTo(latest[id], nn) && !BelongsTo(e.slice, nn)
  }

  lemma LabelledAt(latest: ByName, nn: NamespacedName, k: string)
    ensures var id := NamespacedName(nn.namespace, k);
      Lookup(Labelled(latest, nn), k)
        == if id in latest && BelongsTo(latest[id], nn) then Some(latest[id]) else None
  {
    var id := NamespacedName(nn.namespace, k);
    if id in latest {
      assert id.name in set i | i in latest :: i.name;
    }
  }

  lemma TargetNamespace(slice: Slice)
    ensures SliceTarget(slice).Some? ==> SliceTarget(slice).value.namespace == slice.namespace
  {
  }

  lemma StepAt(objects: Objects, latest: ByName, e: Event, nn: NamespacedName, k: string)
    requires FiledAsLabelled(objects, latest, nn, k) && !Relabels(latest, e)
    ensures FiledAsLabelled(FiledAfter(objects, e), LatestAfter(latest, e), nn, k)
  {
    LabelledAt(latest, nn, k);
    LabelledAt(LatestAfter(latest, e), nn, k);
    TargetNamespace(e.slice);
    FiledAt(objects, e, nn, k);
  }

  lemma FiledAt(objects: Objects, e: Event, nn: NamespacedName, k: string)
    ensures Lookup(SlicesAt(FiledAfter(objects, e), nn), k)
         == if SliceTarget(e.slice) == Some(nn) && e.slice.name == k then (if e.remove then None else Some(e.slice))
            else Lookup(SlicesAt(objects, nn), k)
  {
  }

  ghost predicate KeyedByName(latest: ByName) {
    forall id | id in latest :: NameOf(latest[id]) == id
  }

  lemma RelabelledIsLeft(objects: Objects, latest: ByName, e: Event)
    requires AllAsLabelled(objects, latest) && KeyedByName(latest) && Relabels(latest, e)
    ensures !AllAsLabelled(FiledAfter(objects, e), LatestAfter(latest, e))
  {
    var id := NameOf(e.slice);
    var nn := SliceTarget(latest[id]).value;
    TargetNamespace(latest[id]);
    assert FiledAsLabelled(objects, latest, nn, id.name);
    LabelledAt(latest, nn, id.name);
    LabelledAt(LatestAfter(latest, e), nn, id.name);
    assert Lookup(SlicesAt(FiledAfter(objects, e), nn), id.name).Some?;
    assert !FiledAsLabelled(FiledAfter(objects, e), LatestAfter(latest, e), nn, id.name);
  }

  lemma OthersKeepInLine(objects: Objects, latest: ByName, e: Event)
    requires AllAsLabelled(objects, latest) && !Relabels(latest, e)
    ensures AllAsLabelled(FiledAfter(objects, e), LatestAfter(latest, e))
  {
    forall nn, k ensures FiledAsLabelled(FiledAfter(objects, e), LatestAfter(latest, e), nn, k) {
      assert FiledAsLabelled(objects, latest, nn, k);
      StepAt(objects, latest, e, nn, k);
    }
  }

  /** An event keeps the files in line with the labels exactly if it does not relabel a filed slice. */
  lemma StepExact(objects: Objects, latest: ByName, e: Event)
    requires AllAsLabelled(objects, latest) && KeyedByName(latest)
    ensures AllAsLabelled(FiledAfter(objects, e), LatestAfter(latest, e)) <==> !Relabels(latest, e)
  {
    if Relabels(latest, e) {
      RelabelledIsLeft(objects, latest, e);
    } else {
      OthersKeepInLine(objects, latest, e);
    }
  }

  lemma {:induction false} LatestKeyed(events: seq<Event>)
    ensures KeyedByName(LatestByName(events))
  {
    if events == [] {
    } else {
      LatestKeyed(events[..|events| - 1]);
    }
  }

  lemma StartInLine()
    ensures AllAsLabelled(map[], map[])
  {
    forall nn, k ensures FiledAsLabelled(map[], map[], nn, k) {
      LabelledAt(map[], nn, k);
    }
  }

  ghost predicate AsLabelledAfter(events: seq<Event>, i: nat)
    requires i <= |events|
  {
    AllAsLabelled(Filed(events[..i]), LatestByName(events[..i]))
  }

  ghost predicate RelabelsAt(events: seq<Event>, i: nat)
    requires i < |events|
  {
    Relabels(LatestByName(events[..i]), events[i])
  }

  lemma UpTo(events: seq<Event>, i: nat)
    requires i < |events|
    ensures Filed(events[..i + 1]) == FiledAfter(Filed(events[..i]), events[i])
    ensures LatestByName(events[..i + 1]) == LatestAfter(LatestByName(events[..i]), events[i])
  {
    assert events[..i + 1][..i] == events[..i];
  }

  lemma {:induction false} NeverRelabelled(events: seq<Event>, i: nat)
    requires i <= |events| && forall j | 0 <= j < i :: !RelabelsAt(events, j)
    ensures AsLabelledAfter(events, i)
  {
    if i == 0 {
      StartInLine();
    } else {
      var j := i - 1;
      NeverRelabelled(events, j);
      UpTo(events, j);
      assert !RelabelsAt(events, j);
      OthersKeepInLine(Filed(events[..j]), LatestByName(events[..j]), events[j]);
    }
  }

  /** At every point what is filed under each service is the latest slices with its label, exactly if no slice ever
      changes its label while it is filed. */
  lemma FiledExact(events: seq<Event>)
    ensures (forall i | 0 <= i <= |events| :: AsLabelledAfter(events, i))
       <==> (forall i | 0 <= i < |events| :: !RelabelsAt(events, i))
  {
    if forall i | 0 <= i < |events| :: !RelabelsAt(events, i) {
      forall i | 0 <= i <= |events| ensures AsLabelledAfter(events, i) {
        NeverRelabelled(events, i);
      }
    }
    if forall i | 0 <= i <= |events| :: AsLabelledAfter(events, i) {
      forall i | 0 <= i < |events| ensures !RelabelsAt(events, i) {
        assert AsLabelledAfter(events, i) && AsLabelledAfter(events, i + 1);
        UpTo(events, i);
        LatestKeyed(events[..i]);
        StepExact(Filed(events[..i]), LatestByName(events[..i]), events[i]);
      }
    }
  }

  // ---------- in a run ----------

  /** The events that a state of a run has observed, ignored ones included. */
  ghost predicate HasObserved(s: State, events: seq<Event>) {
    s.history != [] && Latest(s) == Filed(events)
  }

  lemma ObserveFiles(s: State, s': State, slice: Slice, remove: bool, info: SliceInfo, changed: bool,
                     events: seq<Event>)
    requires HasObserved(s, events) && Observe(s, s', slice, remove, info, changed)
    ensures HasObserved(s', events + [Event(slice, remove)])
  {
    var events' := events + [Event(slice, remove)];
    assert events'[..|events|] == events;
    assert s'.history[|s.history|] == Latest(s');
  }

  lemma IgnoredFiles(s: State, e: Event, events: seq<Event>)
    requires HasObserved(s, events) && SliceTarget(e.slice).None?
    ensures HasObserved(s, events + [e])
  {
    assert (events + [e])[..|events|] == events;
  }

  /** Where no slice has changed its label, the map is a rendering of the latest slices with the label of each
      service. */
  lemma MapFollowsLabels(node: Node, s: State, events: seq<Event>, nn: NamespacedName)
    requires Inv(node, s) && Left(s) == map[] && !Dirty(s.trackers) && HasObserved(s, events)
    requires forall i | 0 <= i < |events| :: !RelabelsAt(events, i)
    ensures RendersSlices(node, nn, Labelled(LatestByName(events), nn), PortMaps.Part(s.entries, nn))
  {
    MapIsRendered(node, s);
    NeverRelabelled(events, |events|);
    assert events[..|events|] == events;
    var filed, labelled := SlicesAt(Filed(events), nn), Labelled(LatestByName(events), nn);
    forall k ensures Lookup(filed, k) == Lookup(labelled, k) {
      assert FiledAsLabelled(Filed(events), LatestByName(events), nn, k);
    }
    SameLookup(filed, labelled);
  }

  lemma SameLookup(m: ServiceSlices, m': ServiceSlices)
    requires forall k :: Lookup(m, k) == Lookup(m', k)
    ensures m == m'
  {
    forall k ensures k in m <==> k in m' {
      assert Lookup(m, k) == Lookup(m', k);
    }
    forall k | k in m ensures m[k] == m'[k] {
      assert Lookup(m, k) == Lookup(m', k);
    }
  }

  // ---------- a slice that moves ----------

  function SliceFor(service: string): Slice {
    Slice("default", "s", Some(service), "IPv4", [], [], None)
  }

  /** Two events: a slice of service a becomes one of service b. It stays filed under a, although no slice has that
      label any more. */
  lemma RelabelledStays()
    ensures var events := [Event(SliceFor("a"), false), Event(SliceFor("b"), false)];
      && RelabelsAt(events, 1)
      && "s" in SlicesAt(Filed(events), NamespacedName("default", "a"))
      && Labelled(LatestByName(events), NamespacedName("default", "a")) == map[]
  {
    var first, second := Event(SliceFor("a"), false), Event(SliceFor("b"), false);
    var events, a, b := [first, second], NamespacedName("default", "a"), NamespacedName("default", "b");
    assert "a"[0] != "b"[0];
    assert SliceTarget(first.slice) == Some(a) && SliceTarget(second.slice) == Some(b);
    assert events[..0] == [] && events[..1] == [first] && events[..2] == events;
    UpTo(events, 0);
    UpTo(events, 1);
    forall k ensures k !in Labelled(LatestByName(events), a) {
      LabelledAt(LatestByName(events), a, k);
    }
  }
}
