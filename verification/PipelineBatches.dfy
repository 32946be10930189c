/** Batches of blocks that build on each other: storing them and offering them again. */
module PipelineBatches {
  import opened HeaderTree
  import opened CanonicalIndex
  import opened Convergence
  import opened NodeOps
  import opened Pipeline

  /** Node `d` stores everything `c` stores. */
  ghost predicate Grows(c: Node, d: Node) {
    && d.genesis == c.genesis && Extends(c.headers, d.headers)
    && forall h :: h in c.bodies ==> h in d.bodies && d.bodies[h] == c.bodies[h]
  }

  /** Node `d` has more headers than `c`, but the same markers. */
  ghost predicate SameMarkers(c: Node, d: Node) {
    && Extends(c.headers, d.headers) && c.head in c.headers
    && d.head == c.head && d.canon == c.canon && d.lookup == c.lookup
  }

  predicate HasAll(c: Node, batch: seq<Block>) { forall b :: b in batch ==> Has(c, b) }

  /** The blocks build on block `p` one after another. */
  predicate Stacks(c: Node, p: Hash, batch: seq<Block>)
    decreases |batch|
  {
    || batch == []
    || (BuildsOn(c, batch[0], p) && Stacks(StoreBlock(c, batch[0]), batch[0].header.hash, batch[1..]))
  }

  /** After block `i` of the batch no further block lacks its parent state only: the batch ends, the
      state that block `i` claims is there, or the next block is known. */
  predicate StopsAfter(s: State, batch: seq<Block>, i: nat)
    requires i < |batch|
  {
    i + 1 == |batch| || HasState(s, batch[i].header.root) || IsKnown(s, batch[i + 1])
  }

  /** A batch without a parent state is stored exactly up to the first such block. */
  lemma {:induction false} PrunedStops(s: State, batch: seq<Block>, i: nat)
    requires i < |batch|
    ensures StopsAfter(s, batch, PrunedCount(s, batch) - 1)
    ensures i < PrunedCount(s, batch) - 1 ==> !StopsAfter(s, batch, i)
    decreases |batch|
  {
    if !StopsAfter(s, batch, 0) {
      var rest, k := batch[1..], if i == 0 then 0 else i - 1;
      PrunedStops(s, rest, k);
      assert StopsAfter(s, rest, k) == StopsAfter(s, batch, k + 1);
      assert StopsAfter(s, rest, PrunedCount(s, rest) - 1) == StopsAfter(s, batch, PrunedCount(s, rest));
    }
  }

  lemma {:induction false} ExtendingPrefix(c: Node, batch: seq<Block>, n: nat)
    requires Extending(c, batch) && n <= |batch|
    ensures Extending(c, batch[..n])
    decreases n
  {
    if n > 0 {
      ExtendingPrefix(Publish(c, batch[0]), batch[1..], n - 1);
      assert batch[..n][1..] == batch[1..][..n - 1];
    }
  }

  /** Whether blocks build on each other depends on what is stored, not on what is canonical. */
  lemma {:induction false} ExtendingStacks(c: Node, d: Node, batch: seq<Block>)
    requires Extending(c, batch) && d.headers == c.headers && d.bodies == c.bodies && d.td == c.td
    ensures Stacks(d, c.head, batch)
    decreases |batch|
  {
    if batch != [] {
      ExtendingStacks(Publish(c, batch[0]), StoreBlock(d, batch[0]), batch[1..]);
    }
  }

  /** Storing a batch moves no marker and stores every block of it. */
  lemma {:induction false} StoreBlocksKeeps(c: Node, p: Hash, batch: seq<Block>)
    requires ValidNode(c) && Stacks(c, p, batch)
    ensures var d := StoreBlocks(c, batch);
            && ValidNode(d) && Grows(c, d) && SameMarkers(c, d)
            && HasAll(d, batch)
    decreases |batch|
  {
    if batch != [] {
      var e := StoreBlock(c, batch[0]);
      StoreKeepsChain(c, batch[0], p);
      StoreBlocksKeeps(e, batch[0].header.hash, batch[1..]);
      assert batch == [batch[0]] + batch[1..] && Has(e, batch[0]);
    }
  }

  /** A batch that extends a chain extends it also when its blocks are stored already. */
  lemma {:induction false} ExtendingAgain(c: Node, d: Node, batch: seq<Block>)
    requires ValidNode(c) && ValidNode(d) && Grows(c, d) && SameMarkers(c, d) && Extending(c, batch)
    requires HasAll(d, batch)
    ensures Extending(d, batch)
    decreases |batch|
  {
    if batch != [] {
      PublishAlike(c, d, batch[0]);
      HasTail(d, Publish(d, batch[0]), batch);
      ExtendingAgain(Publish(c, batch[0]), Publish(d, batch[0]), batch[1..]);
    }
  }

  lemma HasTail(c: Node, d: Node, batch: seq<Block>)
    requires HasAll(c, batch) && batch != [] && d.headers == c.headers && d.bodies == c.bodies
    ensures HasAll(d, batch[1..])
  {
    forall b | b in batch[1..]
      ensures Has(d, b)
    {
      assert b in batch;
    }
  }

  /** Publishing a block where it is stored already, and where it may not be. */
  lemma PublishAlike(c: Node, d: Node, b: Block)
    requires ValidNode(c) && ValidNode(d) && Grows(c, d) && SameMarkers(c, d) && Attaches(c, b) && Has(d, b)
    ensures Attaches(d, b)
    ensures ValidNode(Publish(c, b)) && ValidNode(Publish(d, b))
    ensures Grows(Publish(c, b), Publish(d, b)) && SameMarkers(Publish(c, b), Publish(d, b))
    ensures Publish(d, b).headers == d.headers && Publish(d, b).bodies == d.bodies
  {
    assert b.header.hash != c.genesis by { assert Linked(c.headers, c.genesis, c.genesis); }
    AttachesAlike(c, d, b);
    PublishStored(c, b);
    PublishStored(d, b);
    StoreAgain(d, b);
    PublishMarkers(c, d, b);
  }

  lemma AttachesAlike(c: Node, d: Node, b: Block)
    requires Grows(c, d) && SameMarkers(c, d) && Attaches(c, b) && Has(d, b) && d.head in d.td
    ensures Attaches(d, b)
  {
  }

  lemma PublishMarkers(c: Node, d: Node, b: Block)
    requires Grows(c, d) && SameMarkers(c, d) && Has(d, b) && b.header.parent in c.td && b.header.parent in d.td
    requires StoreBlock(d, b) == d
    ensures Grows(Publish(c, b), Publish(d, b)) && SameMarkers(Publish(c, b), Publish(d, b))
    ensures Publish(d, b).headers == d.headers && Publish(d, b).bodies == d.bodies
  {
    assert Publish(d, b) == WriteHead(d, b.header.hash);
  }

  lemma PublishStored(c: Node, b: Block)
    requires ValidNode(c) && Attaches(c, b) && b.header.hash != c.genesis
    ensures ValidNode(Publish(c, b)) && Grows(c, Publish(c, b))
  {
    StoreKeepsChain(c, b, c.head);
    WriteHeadKeepsValid(StoreBlock(c, b), b.header.hash);
  }

  /** The head repeats no transaction of its ancestors. */
  lemma HeadTxsAreNew(c: Node, tx: Tx, n: nat)
    requires ValidNode(c) && c.head != c.genesis && c.headers[c.head].parent in c.headers
    requires InChain(c.headers, c.genesis, c.bodies, c.headers[c.head].parent, tx, n)
    ensures tx !in c.bodies[c.head]
  {
    InChainStep(c.headers, c.genesis, c.bodies, c.head, tx, n);
    if tx in c.bodies[c.head] {
      assert InChain(c.headers, c.genesis, c.bodies, c.head, tx, c.headers[c.head].number);
    }
  }

  /** A head that was rolled back attaches again, which restores the chain. */
  lemma RollbackAttaches(c: Node, b: Block)
    requires ValidNode(c) && Has(c, b) && b.header.hash == c.head && c.head != c.genesis && b.header.difficulty > 0
    ensures CanRollBack(c, c.head)
    ensures var r := Rollback(c, c.head);
            ValidNode(r) && Attaches(r, b) && WriteHead(r, c.head) == c
  {
    RollbackKeepsValid(c, c.head);
    var r := Rollback(c, c.head);
    assert Linked(c.headers, c.genesis, c.head);
    forall tx | tx in r.lookup
      ensures tx !in b.txs
    {
      assert InChain(c.headers, c.genesis, c.bodies, r.head, tx, r.lookup[tx]);
      HeadTxsAreNew(c, tx, r.lookup[tx]);
    }
    WriteHeadKeepsValid(r, c.head);
    NodeDetermined(WriteHead(r, c.head), c);
  }

  /** Once the head is rolled back and a batch on top of it is stored, the head followed by the
      batch can be offered. */
  lemma ReofferExtends(c: Node, b: Block, part: seq<Block>)
    requires ValidNode(c) && Has(c, b) && b.header.hash == c.head && c.head != c.genesis && b.header.difficulty > 0
    requires Extending(c, part)
    ensures CanRollBack(c, c.head)
    ensures var r := Rollback(c, c.head);
            && Stacks(r, c.head, part) && ValidNode(r)
            && Extending(StoreBlocks(r, part), [b] + part)
  {
    RollbackAttaches(c, b);
    var r := Rollback(c, c.head);
    ExtendingStacks(c, r, part);
    StoreBlocksKeeps(r, c.head, part);
    ExtendingOn(c, r, StoreBlocks(r, part), b, part);
  }

  /** Node `d` is `r` with the batch stored, and publishing `b` on `r` gives `c`. */
  lemma ExtendingOn(c: Node, r: Node, d: Node, b: Block, part: seq<Block>)
    requires ValidNode(c) && ValidNode(r) && ValidNode(d) && Grows(r, d) && SameMarkers(r, d)
    requires Has(r, b) && Attaches(r, b) && b.header.hash != r.genesis && WriteHead(r, b.header.hash) == c
    requires Extending(c, part) && HasAll(d, part)
    ensures Extending(d, [b] + part)
  {
    StoreAgain(r, b);
    PublishAlike(r, d, b);
    HasTail(d, Publish(d, b), [b] + part);
    assert ([b] + part)[1..] == part;
    ExtendingAgain(c, Publish(d, b), part);
  }

  /** More stored blocks change nothing about the outcome of a rollback. */
  lemma RollbackSame(c: Node, d: Node)
    requires ValidNode(c) && ValidNode(d) && Grows(c, d) && SameMarkers(c, d) && c.head != c.genesis
    ensures CanRollBack(c, c.head) && CanRollBack(d, c.head)
    ensures SameMarkers(Rollback(c, c.head), Rollback(d, c.head))
  {
    assert Linked(c.headers, c.genesis, c.head);
    assert TxsFrom(c, c.headers[c.head].number) == TxsFrom(d, c.headers[c.head].number);
  }

  /** Storing a batch and rolling the head back can be exchanged. */
  lemma StoreRollback(c: Node, p: Hash, batch: seq<Block>)
    requires ValidNode(c) && Stacks(c, p, batch) && c.head != c.genesis
    ensures CanRollBack(c, c.head) && CanRollBack(StoreBlocks(c, batch), c.head)
    ensures Rollback(StoreBlocks(c, batch), c.head) == StoreBlocks(Rollback(c, c.head), batch)
  {
    RollbackKeepsValid(c, c.head);
    StoreBlocksKeeps(c, p, batch);
    RollbackKeepsValid(StoreBlocks(c, batch), c.head);
    StoresAlike(c, Rollback(c, c.head), p, batch);
    StoreBlocksKeeps(Rollback(c, c.head), p, batch);
    NodeDetermined(Rollback(StoreBlocks(c, batch), c.head), StoreBlocks(Rollback(c, c.head), batch));
  }

  lemma {:induction false} StoresAlike(c: Node, d: Node, p: Hash, batch: seq<Block>)
    requires Stacks(c, p, batch) && d.headers == c.headers && d.bodies == c.bodies && d.td == c.td
    ensures Stacks(d, p, batch)
    ensures StoreBlocks(d, batch).headers == StoreBlocks(c, batch).headers
    ensures StoreBlocks(d, batch).bodies == StoreBlocks(c, batch).bodies
    decreases |batch|
  {
    if batch != [] {
      StoresAlike(StoreBlock(c, batch[0]), StoreBlock(d, batch[0]), batch[0].header.hash, batch[1..]);
    }
  }
}
