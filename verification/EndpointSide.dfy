/** The endpoint side of the proxier, in Endpoints mode or in EndpointSlice mode. */
module EndpointSide {
  import opened Api
  import opened Endpoints
  import E = EndpointsRun
  import S = SlicesRun

  datatype Side = Plain(a: E.State) | Sliced(b: S.State)

  ghost predicate Dirty(side: Side) {
    match side
    case Plain(a) => a.items != map[]
    case Sliced(b) => S.Dirty(b.trackers)
  }

  predicate IdleSide(side: Side) {
    match side
    case Plain(a) => a.phase.Idle?
    case Sliced(b) => b.phase.Idle?
  }

  function Entries(side: Side): EndpointEntries {
    match side
    case Plain(a) => a.entries
    case Sliced(b) => b.entries
  }

  function SeenAt(side: Side): nat {
    match side
    case Plain(a) => a.seenAt
    case Sliced(b) => b.seenAt
  }

  function Events(side: Side): nat {
    match side
    case Plain(a) => |a.history|
    case Sliced(b) => |b.history|
  }

  ghost predicate SideInv(node: Node, side: Side) {
    match side
    case Plain(a) => E.Inv(node, a)
    case Sliced(b) => S.Inv(node, b)
  }

  ghost predicate SideObserve(node: Node, side: Side, side': Side, changed: bool) {
    match (side, side')
    case (Plain(a), Plain(a')) => exists nn, current :: E.Observe(node, a, a', nn, current, changed)
    case (Sliced(b), Sliced(b')) => exists slice, remove, info :: S.Observe(b, b', slice, remove, info, changed)
    case _ => false
  }

  ghost predicate SideCheckout(node: Node, side: Side, side': Side) {
    match (side, side')
    case (Plain(a), Plain(a')) => E.Checkout(a, a')
    case (Sliced(b), Sliced(b')) => exists flight :: S.Checkout(node, b, b', flight)
    case _ => false
  }

  ghost predicate SideMergeOne(side: Side, side': Side) {
    match (side, side')
    case (Plain(a), Plain(a')) => exists nn :: E.MergeOne(a, a', nn)
    case (Sliced(b), Sliced(b')) => exists nn :: S.MergeOne(b, b', nn)
    case _ => false
  }

  ghost predicate SideTakeTimes(side: Side, side': Side) {
    match (side, side')
    case (Plain(a), Plain(a')) => E.TakeTimes(a, a')
    case (Sliced(b), Sliced(b')) => S.TakeTimes(b, b')
    case _ => false
  }

  /** The entries are what the i-th observed state of the API objects calls for: in Endpoints mode the recomputed map,
      in EndpointSlice mode a rendering of the slices of each service. */
  ghost predicate CalledFor(node: Node, side: Side, i: nat, entries: EndpointEntries) {
    match side
    case Plain(a) => i < |a.history| && entries == E.FullMap(node, a.history[i])
    case Sliced(b) => i < |b.history| && S.RendersAll(node, b.history[i], entries)
  }

  /** Events are only ever added, so what was called for at an earlier point stays called for. */
  ghost predicate Extends(side: Side, side': Side) {
    match (side, side')
    case (Plain(a), Plain(a')) => a.history <= a'.history
    case (Sliced(b), Sliced(b')) => b.history <= b'.history
    case _ => false
  }

  lemma CalledForStays(node: Node, side: Side, side': Side, i: nat, entries: EndpointEntries)
    requires Extends(side, side') && CalledFor(node, side, i, entries)
    ensures CalledFor(node, side', i, entries)
  {
  }

  lemma SideObserveKeeps(node: Node, side: Side, side': Side, changed: bool)
    requires SideInv(node, side) && SideObserve(node, side, side', changed)
    ensures SideInv(node, side') && Extends(side, side')
    ensures Entries(side') == Entries(side) && SeenAt(side') == SeenAt(side) && IdleSide(side') == IdleSide(side)
    ensures Dirty(side') ==> changed || Dirty(side)
  {
    match (side, side')
    case (Plain(a), Plain(a')) =>
      var nn, current :| E.Observe(node, a, a', nn, current, changed);
      E.ObserveKeeps(node, a, a', nn, current, changed);
    case (Sliced(b), Sliced(b')) =>
      var slice, remove, info :| S.Observe(b, b', slice, remove, info, changed);
      S.ObserveKeeps(node, b, b', slice, remove, info, changed);
      if S.Dirty(b'.trackers) {
        S.ObserveReports(b, b', slice, remove, info, changed);
      }
  }

  lemma SideCheckoutKeeps(node: Node, side: Side, side': Side)
    requires SideInv(node, side) && SideCheckout(node, side, side')
    ensures SideInv(node, side') && Extends(side, side') && !Dirty(side')
    ensures SeenAt(side') == Events(side) - 1 && Events(side') == Events(side) && !IdleSide(side')
  {
    match (side, side')
    case (Plain(a), Plain(a')) =>
      E.CheckoutKeeps(node, a, a');
    case (Sliced(b), Sliced(b')) =>
      var flight :| S.Checkout(node, b, b', flight);
      S.CheckoutKeeps(node, b, b', flight);
  }

  lemma SideMergeOneKeeps(node: Node, side: Side, side': Side)
    requires SideInv(node, side) && SideMergeOne(side, side')
    ensures SideInv(node, side') && Extends(side, side') && Dirty(side') == Dirty(side)
    ensures SeenAt(side') == SeenAt(side) && Events(side') == Events(side) && IdleSide(side') == IdleSide(side)
  {
    match (side, side')
    case (Plain(a), Plain(a')) =>
      var nn :| E.MergeOne(a, a', nn);
      E.MergeOneKeeps(node, a, a', nn);
    case (Sliced(b), Sliced(b')) =>
      var nn :| S.MergeOne(b, b', nn);
      S.MergeOneKeeps(node, b, b', nn);
  }

  lemma SideTakeTimesKeeps(node: Node, side: Side, side': Side)
    requires SideInv(node, side) && SideTakeTimes(side, side')
    ensures SideInv(node, side') && Extends(side, side') && Dirty(side') == Dirty(side)
    ensures SeenAt(side') == SeenAt(side) && Events(side') == Events(side) && IdleSide(side')
  {
    match (side, side')
    case (Plain(a), Plain(a')) =>
      E.TakeTimesKeeps(node, a, a');
    case (Sliced(b), Sliced(b')) =>
      S.TakeTimesKeeps(node, b, b');
  }

  lemma IdleSideIsCoherent(node: Node, side: Side)
    requires SideInv(node, side) && IdleSide(side)
    ensures SeenAt(side) < Events(side) && CalledFor(node, side, SeenAt(side), Entries(side))
    ensures !Dirty(side) ==> CalledFor(node, side, Events(side) - 1, Entries(side))
  {
    var last := Events(side) - 1;
    match side
    case Plain(a) =>
      E.MapIsRecomputed(node, a);
      assert E.Latest(a) == a.history[last];
    case Sliced(b) =>
      S.MapIsRendered(node, b);
      assert S.Latest(b) == b.history[last];
  }
}
