/** Trigger times: opaque instants recorded per object until an apply hands them out. The ledger is bookkeeping
    beside the program's own maps: which times were recorded for an object and what became of each. */
module Triggers {
  import opened Api

  type Time = int

  type Times = map<NamespacedName, seq<Time>>

  function Get<V>(m: map<NamespacedName, seq<V>>, nn: NamespacedName): seq<V> {
    if nn in m then m[nn] else []
  }

  function Append<V>(m: map<NamespacedName, seq<V>>, nn: NamespacedName, vs: seq<V>): map<NamespacedName, seq<V>> {
    m[nn := Get(m, nn) + vs]
  }

  /** Adds every held list at the end of the list it is handed out in. */
  function Handed(into: Times, held: Times): Times {
    map nn | nn in into.Keys + held.Keys :: Get(into, nn) + Get(held, nn)
  }

  lemma HandedIntoEmpty(held: Times)
    ensures Handed(map[], held) == held
  {
    assert forall nn | nn in held :: Get<Time>(map[], nn) + Get(held, nn) == held[nn];
  }

  datatype Fate = Delivered(run: nat) | Dropped

  datatype Block = Block(fate: Fate, times: seq<Time>)

  datatype Ledger = Ledger(
    recorded: Times,                            // everything ever recorded, in order
    blocks: map<NamespacedName, seq<Block>>,    // what left lastChangeTriggerTimes, in order
    results: seq<Times>)                        // what each finished apply handed out

  const EMPTY_LEDGER := Ledger(map[], map[], [])

  function Flat(blocks: seq<Block>): seq<Time> {
    if blocks == [] then [] else Flat(blocks[..|blocks| - 1]) + blocks[|blocks| - 1].times
  }

  /** Each recorded time is in exactly one place, in recording order: a block that left, or the held list. */
  ghost predicate Balanced(l: Ledger, held: Times, nn: NamespacedName) {
    Get(l.recorded, nn) == Flat(Get(l.blocks, nn)) + Get(held, nn)
  }

  /** The delivered blocks of an object are what the applies handed out for it, each apply at most once, in order. */
  ghost predicate TruthfulBlocks(bs: seq<Block>, results: seq<Times>, nn: NamespacedName) {
    && (forall i | 0 <= i < |bs| && bs[i].fate.Delivered? ::
          bs[i].fate.run < |results| && nn in results[bs[i].fate.run] && bs[i].times == results[bs[i].fate.run][nn])
    && (forall i, j | 0 <= i < j < |bs| && bs[i].fate.Delivered? && bs[j].fate.Delivered? ::
          bs[i].fate.run < bs[j].fate.run)
  }

  ghost predicate ListedRun(bs: seq<Block>, results: seq<Times>, nn: NamespacedName, r: int) {
    0 <= r < |results| && nn in results[r] ==> Block(Delivered(r), results[r][nn]) in bs
  }

  /** Whatever an apply handed out for an object is among its delivered blocks. */
  ghost predicate AllListed(bs: seq<Block>, results: seq<Times>, nn: NamespacedName) {
    forall r :: ListedRun(bs, results, nn, r)
  }

  ghost predicate Truthful(l: Ledger, nn: NamespacedName) {
    TruthfulBlocks(Get(l.blocks, nn), l.results, nn) && AllListed(Get(l.blocks, nn), l.results, nn)
  }

  ghost predicate Conserved(l: Ledger, held: Times) {
    forall nn :: Balanced(l, held, nn) && Truthful(l, nn)
  }

  ghost predicate NoneDropped(l: Ledger) {
    forall nn, b | nn in l.blocks && b in l.blocks[nn] :: b.fate.Delivered?
  }

  function Record(l: Ledger, nn: NamespacedName, ts: seq<Time>): Ledger {
    l.(recorded := Append(l.recorded, nn, ts))
  }

  function Drop(l: Ledger, nn: NamespacedName, ts: seq<Time>): Ledger {
    l.(blocks := Append(l.blocks, nn, [Block(Dropped, ts)]))
  }

  function Deliver(l: Ledger, held: Times): Ledger {
    l.(blocks := map nn | nn in l.blocks.Keys + held.Keys ::
         Get(l.blocks, nn) + if nn in held then [Block(Delivered(|l.results|), held[nn])] else [],
       results := l.results + [held])
  }

  lemma FlatSnoc(bs: seq<Block>, b: Block)
    ensures Flat(bs + [b]) == Flat(bs) + b.times
  {
    assert (bs + [b])[..|bs|] == bs;
  }

  lemma RecordConserves(l: Ledger, held: Times, nn: NamespacedName, ts: seq<Time>)
    requires Conserved(l, held)
    ensures Conserved(Record(l, nn, ts), Append(held, nn, ts))
  {
    var l' := Record(l, nn, ts);
    forall m ensures Balanced(l', Append(held, nn, ts), m) && Truthful(l', m) {
      assert Balanced(l, held, m) && Truthful(l, m);
      if m == nn {
        assert Flat(Get(l.blocks, m)) + (Get(held, m) + ts) == (Flat(Get(l.blocks, m)) + Get(held, m)) + ts;
      }
    }
  }

  /** Adding a block at the end keeps the blocks of an object truthful if the block is. */
  lemma TruthfulSnoc(bs: seq<Block>, results: seq<Times>, nn: NamespacedName, b: Block)
    requires TruthfulBlocks(bs, results, nn)
    requires b.fate.Delivered? ==>
      b.fate.run == |results| - 1 && nn in results[b.fate.run] && b.times == results[b.fate.run][nn]
    requires b.fate.Delivered? ==> forall i | 0 <= i < |bs| && bs[i].fate.Delivered? :: bs[i].fate.run < b.fate.run
    ensures TruthfulBlocks(bs + [b], results, nn)
  {
  }

  lemma DropConservesAt(l: Ledger, held: Times, nn: NamespacedName)
    requires Balanced(l, held, nn) && Truthful(l, nn)
    ensures Balanced(Drop(l, nn, Get(held, nn)), held - {nn}, nn) && Truthful(Drop(l, nn, Get(held, nn)), nn)
  {
    var bs, b := Get(l.blocks, nn), Block(Dropped, Get(held, nn));
    FlatSnoc(bs, b);
    TruthfulSnoc(bs, l.results, nn, b);
    AllListedSnoc(bs, l.results, nn, b);
    assert Get(held - {nn}, nn) == [];
    assert Flat(bs + [b]) + [] == Flat(bs + [b]);
  }

  lemma DropConserves(l: Ledger, held: Times, nn: NamespacedName)
    requires Conserved(l, held)
    ensures Conserved(Drop(l, nn, Get(held, nn)), held - {nn})
  {
    var l' := Drop(l, nn, Get(held, nn));
    forall m ensures Balanced(l', held - {nn}, m) && Truthful(l', m) {
      assert Balanced(l, held, m) && Truthful(l, m);
      if m == nn {
        DropConservesAt(l, held, nn);
      } else {
        assert Get(l'.blocks, m) == Get(l.blocks, m) && Get(held - {nn}, m) == Get(held, m);
      }
    }
  }

  lemma AllListedSnoc(bs: seq<Block>, results: seq<Times>, nn: NamespacedName, b: Block)
    requires AllListed(bs, results, nn)
    ensures AllListed(bs + [b], results, nn)
  {
    forall r ensures ListedRun(bs + [b], results, nn, r) {
      assert ListedRun(bs, results, nn, r);
    }
  }

  lemma DeliverBlocks(l: Ledger, held: Times, nn: NamespacedName)
    ensures Get(Deliver(l, held).blocks, nn)
         == if nn in held then Get(l.blocks, nn) + [Block(Delivered(|l.results|), held[nn])] else Get(l.blocks, nn)
  {
  }

  lemma DeliverBalances(l: Ledger, held: Times, nn: NamespacedName)
    requires Balanced(l, held, nn)
    ensures Balanced(Deliver(l, held), map[], nn)
  {
    DeliverBlocks(l, held, nn);
    var bs' := Get(Deliver(l, held).blocks, nn);
    if nn in held {
      FlatSnoc(Get(l.blocks, nn), Block(Delivered(|l.results|), held[nn]));
    }
    assert Flat(bs') + [] == Flat(bs');
  }

  lemma DeliverTruthful(l: Ledger, held: Times, nn: NamespacedName)
    requires Truthful(l, nn)
    ensures Truthful(Deliver(l, held), nn)
  {
    DeliverBlocks(l, held, nn);
    var n, bs, bs', rs' := |l.results|, Get(l.blocks, nn), Get(Deliver(l, held).blocks, nn), l.results + [held];
    assert TruthfulBlocks(bs, rs', nn);
    if nn in held {
      TruthfulSnoc(bs, rs', nn, Block(Delivered(n), held[nn]));
      assert bs'[|bs|] == Block(Delivered(n), held[nn]);
    }
    forall r ensures ListedRun(bs', rs', nn, r) {
      assert ListedRun(bs, l.results, nn, r);
    }
  }

  lemma DeliverConserves(l: Ledger, held: Times)
    requires Conserved(l, held)
    ensures Conserved(Deliver(l, held), map[])
  {
    var l' := Deliver(l, held);
    forall nn ensures Balanced(l', map[], nn) && Truthful(l', nn) {
      assert Balanced(l, held, nn) && Truthful(l, nn);
      DeliverBalances(l, held, nn);
      DeliverTruthful(l, held, nn);
    }
  }
}
