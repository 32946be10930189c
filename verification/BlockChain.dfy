/** The block chain's canonical markers (core/blockchain.go): head, number-to-hash index
    and transaction lookup table, and the operations that move the head. */
module BlockChain {
  import opened Wrappers
  import opened Naturals
  import opened HeaderTree
  import opened CanonicalIndex
  import opened ForkChoice
  import opened Convergence
  import HeaderChain
  import NodeOps

  datatype WriteStatus = Canon | Side | ErrUnknownAncestor

  class Chain {
    const genesis: Hash
    var headers: Store
    var bodies: Bodies
    var td: map<Hash, nat>
    var canon: Index
    var lookup: Lookup
    var head: Hash

    ghost predicate Valid()
      reads this
    {
      && Stored(headers, genesis, bodies)
      && DifficultiesOf(headers, genesis, td)
      && head in headers
      && canon == PathOf(headers, genesis, head)
    }

    /** The lookup table holds exactly the canonical transactions. */
    ghost predicate Exact()
      reads this
    {
      Valid() && LookupExact(headers, genesis, bodies, lookup, head)
    }

    ghost predicate NoDup(h: Hash)
      reads this
      requires Stored(headers, genesis, bodies) && h in headers
    {
      NoDuplicates(headers, genesis, bodies, h)
    }

    ghost function View(): (c: Node)
      reads this
    {
      Node(genesis, headers, bodies, td, canon, lookup, head)
    }

    /** A chain that knows only the genesis block. */
    constructor (g: Block)
      requires g.header.number == 0 && g.header.hash != ZERO && g.header.parent == ZERO && g.txs == []
      ensures Exact() && Fresh(View(), g)
    {
      genesis, head := g.header.hash, g.header.hash;
      headers := map[g.header.hash := g.header];
      bodies := map[g.header.hash := g.txs];
      td := map[g.header.hash := g.header.difficulty];
      canon := map[0 := g.header.hash];
      lookup := map[];
      new;
      assert Linked(headers, genesis, genesis);
      assert canon == PathOf(headers, genesis, head);
    }

    /** Marks a stored block as head and writes its canonical hash and lookup entries. */
    method WriteHeadBlock(h: Hash)
      requires Stored(headers, genesis, bodies) && h in headers
      modifies this`canon, this`lookup, this`head
      ensures canon == old(canon)[headers[h].number := h]
      ensures lookup == IndexTxs(old(lookup), bodies[h], headers[h].number)
      ensures head == h
    {
      canon := canon[headers[h].number := h];
      var txs, table := bodies[h], lookup;
      for i := 0 to |txs|
        invariant table == IndexTxs(lookup, txs[..i], headers[h].number)
      {
        assert txs[..i + 1] == txs[..i] + [txs[i]];
        table := table[txs[i] := headers[h].number];
      }
      assert txs[..|txs|] == txs;
      lookup := table;
      head := h;
    }

    /** Where reorg leaves the index: it handles everything but the new head itself. */
    ghost function ReorgTarget(newHead: Hash): (t: Hash)
      reads this
      requires Valid() && newHead in headers
    {
      if IsAncestor(headers, genesis, newHead, head) then newHead else headers[newHead].parent
    }

    /** Switches the canonical markers from the current head's chain to the chain of
        `newHead`, except for `newHead` itself. */
    method Reorg(newHead: Hash)
      requires Valid() && newHead in headers
      modifies this`canon, this`lookup, this`head
      ensures var target := old(ReorgTarget(newHead));
              && target in headers
              && canon == PathOf(headers, genesis, target)
              && head == (if IsAncestor(headers, genesis, target, old(head)) then old(head) else target)
              && (old(Exact() && NoDup(newHead)) ==>
                    LookupExact(headers, genesis, bodies, lookup, target))
    {
      var oldChain, newChain, common := FindCommonAncestor(headers, genesis, head, newHead);
      ghost var target := ReorgTarget(newHead);
      ForkTarget(headers, genesis, head, newHead, common, oldChain, newChain);
      if |oldChain| == 0 && |newChain| == 0 {
        return;
      }
      SwitchChains(newHead, oldChain, newChain, common);
    }

    /** Undoes the old blocks, applies the new ones and deletes what is left over. */
    method SwitchChains(newHead: Hash, oldChain: seq<Hash>, newChain: seq<Hash>, common: Hash)
      requires Valid() && newHead in headers && common in headers
      requires Segment(headers, genesis, head, common, oldChain) && Segment(headers, genesis, newHead, common, newChain)
      requires IsAncestor(headers, genesis, common, head)
      modifies this`canon, this`lookup, this`head
      ensures var target := if newChain == [] then newHead else headers[newHead].parent;
              && target in headers
              && canon == PathOf(headers, genesis, target)
              && head == (if |newChain| > 1 then target else old(head))
              && (old(Exact() && NoDup(newHead)) ==> LookupExact(headers, genesis, bodies, lookup, target))
    {
      ghost var target := if newChain == [] then newHead else headers[newHead].parent;
      SegmentTarget(headers, genesis, newHead, common, newChain);
      var deletedTxs := GatherTxs(headers, genesis, bodies, lookup, head, common, oldChain);
      ghost var exact := Exact() && NoDup(newHead);
      var rebirthTxs := ApplyNewChain(newHead, newChain, common, target, Elements(deletedTxs), exact);
      DropStale(deletedTxs, rebirthTxs);
      var number := if |newChain| > 1 then headers[newChain[1]].number else headers[common].number;
      canon := DropAbove(headers, genesis, canon, newHead, target, number, headers[old(head)].number);
    }

    /** Deletes the lookup entries of the undone transactions that were not included again. */
    method DropStale(deletedTxs: seq<Tx>, rebirthTxs: seq<Tx>)
      modifies this`lookup
      ensures lookup == old(lookup) - (Elements(deletedTxs) - Elements(rebirthTxs))
    {
      var stale := HashDifference(deletedTxs, rebirthTxs);
      var staleSet := Elements(stale);
      assert staleSet == Elements(deletedTxs) - Elements(rebirthTxs);
      lookup := lookup - staleSet;
    }

    /** Applies the new blocks in forward order, leaving out the new head (entry 0). */
    method ApplyNewChain(newHead: Hash, newChain: seq<Hash>, common: Hash,
                         ghost target: Hash, ghost deleted: set<Tx>, ghost exact: bool)
      returns (rebirthTxs: seq<Tx>)
      requires Valid() && newHead in headers && common in headers && IsAncestor(headers, genesis, common, head)
      requires Segment(headers, genesis, newHead, common, newChain)
      requires target == if newChain == [] then newHead else headers[newHead].parent
      requires exact ==> NoDup(newHead) && LookupExact(headers, genesis, bodies, lookup - deleted, common)
      modifies this`canon, this`lookup, this`head
      ensures target in headers && IsAncestor(headers, genesis, target, newHead)
      ensures Spliced(headers, genesis, canon, newHead, target, old(headers[head].number))
      ensures exact ==> LookupExact(headers, genesis, bodies, lookup - (deleted - Elements(rebirthTxs)), target)
      ensures head == if |newChain| > 1 then target else old(head)
    {
      rebirthTxs := [];
      ghost var cur, height := common, headers[newHead].number;
      SplicedAtFork(headers, genesis, canon, head, newHead, common);
      assert lookup - (deleted - {}) == lookup - deleted;
      var i := |newChain| - 1;
      while i >= 1
        invariant -1 <= i < |newChain| && (i == -1 <==> newChain == [])
        invariant cur == AncestorAt(headers, genesis, newHead, height - i - 1)
        invariant Applied(headers, genesis, bodies, canon, lookup, newHead, cur, old(headers[head].number),
                          deleted, Elements(rebirthTxs), exact)
        invariant head == if i == |newChain| - 1 then old(head) else cur
      {
        var block := newChain[i];
        ApplyBlock(block, newHead, cur, old(headers[head].number), deleted, Elements(rebirthTxs), exact);
        assert Elements(rebirthTxs + bodies[block]) == Elements(rebirthTxs) + Elements(bodies[block]);
        rebirthTxs := rebirthTxs + bodies[block];
        cur := block;
        i := i - 1;
      }
      if newChain != [] {
        AncestorParent(headers, genesis, newHead, height);
      }
    }

    /** Makes the next block of the new chain canonical. */
    method ApplyBlock(block: Hash, ghost newHead: Hash, ghost cur: Hash, ghost oldHeight: nat,
                      ghost deleted: set<Tx>, ghost reborn: set<Tx>, ghost exact: bool)
      requires Stored(headers, genesis, bodies) && newHead in headers && cur in headers
      requires Applied(headers, genesis, bodies, canon, lookup, newHead, cur, oldHeight, deleted, reborn, exact)
      requires block in headers && headers[block].number == headers[cur].number + 1
      requires IsAncestor(headers, genesis, block, newHead)
      modifies this`canon, this`lookup, this`head
      ensures Applied(headers, genesis, bodies, canon, lookup, newHead, block, oldHeight, deleted,
                      reborn + Elements(bodies[block]), exact)
      ensures head == block
    {
      ApplyStep(headers, genesis, bodies, canon, lookup, newHead, cur, block, oldHeight, deleted, reborn, exact);
      WriteHeadBlock(block);
    }

    /** Makes a stored block the head, switching chains first unless it extends the head. */
    method WriteKnownBlock(h: Hash)
      requires Valid() && h in headers
      modifies this`canon, this`lookup, this`head
      ensures Valid() && head == h
      ensures old(Exact() && NoDup(h)) ==> Exact()
    {
      ghost var target := headers[h].parent;
      assert Linked(headers, genesis, h) && Linked(headers, genesis, head);
      OnlyGenesisAtZero(headers, genesis, AncestorAt(headers, genesis, head, 0));
      if headers[h].parent != head {
        target := ReorgTarget(h);
        Reorg(h);
      }
      HeadAbove(headers, genesis, bodies, lookup, h, target);
      WriteHeadBlock(h);
    }

    /** Stores an executed block, new or not, with its total difficulty and lets fork choice
        decide whether it becomes the head. */
    method WriteBlockAndSetHead(b: Block) returns (status: WriteStatus)
      requires Valid() && b.header.hash != ZERO && SameIfStored(View(), b)
      requires b.header.parent in headers ==> headers[b.header.parent].number + 1 == b.header.number
      modifies this
      ensures status.ErrUnknownAncestor? <==> b.header.parent !in old(headers)
      ensures status.ErrUnknownAncestor? ==> unchanged(this)
      ensures !status.ErrUnknownAncestor? ==>
                && Valid() && ImportedExactly(old(View()), b, View())
                && (status.Canon? <==> head == b.header.hash != old(head))
    {
      if b.header.parent !in td {
        return ErrUnknownAncestor;
      }
      ghost var c := View();
      NodeOps.StoreKeepsChain(c, b, b.header.parent);
      td := td[b.header.hash := td[b.header.parent] + b.header.difficulty];
      headers := headers[b.header.hash := b.header];
      bodies := bodies[b.header.hash := b.txs];
      ghost var d := View();
      NodeOps.ImportIntro(c, b, d);
      if !ReorgNeeded(td, None, NoPreserve, headers[head], b.header).needed {
        return Side;
      }
      WriteKnownBlock(b.header.hash);
      status := Canon;
    }

    /** Rolls the chain back to the parent of a block whose state root was rejected, removing the
        canonical markers from the block's height upwards. The chain stays valid exactly if the
        parent was canonical or extends a canonical block; rolling back a canonical block keeps
        an exact lookup table exact. */
    method RecoverFailedImport(bad: Hash)
      requires Valid() && bad in headers && bad != genesis
      modifies this`canon, this`lookup, this`head
      ensures headers[bad].parent in headers && headers[bad].parent in bodies
      ensures View() == NodeOps.Rollback(old(View()), bad)
      ensures Valid() <==> NodeOps.JoinsChain(old(View()), headers[bad].parent)
      ensures old(Exact()) && IsAncestor(headers, genesis, bad, old(head)) ==> Exact()
    {
      ghost var c := View();
      NodeOps.RollbackValidIff(c, bad);
      if Exact() && IsAncestor(headers, genesis, bad, head) {
        NodeOps.RollbackKeepsValid(c, bad);
      }
      var batch, txs := UnmarkFrom(bodies, canon, headers[bad].number, c);
      canon := batch;
      lookup := lookup - Elements(txs);
      WriteHeadBlock(headers[bad].parent);
    }
  }

  /** The index without its entries from height `from` upwards, and the transactions of the
      blocks those entries named. */
  method UnmarkFrom(bodies: Bodies, canon: Index, from: nat, ghost c: Node) returns (batch: Index, txs: seq<Tx>)
    requires ValidChain(c) && bodies == c.bodies && canon == c.canon
    ensures batch == map n | n in canon && n < from :: canon[n]
    ensures Elements(txs) == NodeOps.TxsFrom(c, from)
  {
    batch, txs := canon, [];
    var n := from;
    ghost var top := c.headers[c.head].number;
    while n in canon
      invariant from <= n && (from <= top ==> n <= top + 1)
      invariant batch == map k | k in canon && (k < from || n <= k) :: canon[k]
      invariant forall tx :: tx in txs <==> exists k :: k in canon && from <= k < n && tx in bodies[canon[k]]
      decreases top + 1 - n
    {
      var hash := canon[n];
      batch := batch - {n};
      ghost var before := txs;
      txs := txs + bodies[hash];
      forall tx
        ensures tx in txs <==> exists k :: k in canon && from <= k < n + 1 && tx in bodies[canon[k]]
      {
        assert tx in txs <==> tx in before || tx in bodies[canon[n]];
      }
      n := n + 1;
    }
    forall tx
      ensures tx in Elements(txs) <==> tx in NodeOps.TxsFrom(c, from)
    {
      assert tx in Elements(txs) <==> tx in txs;
    }
  }

  /** Writing the markers of `h` on top of its parent's, or on its own, gives its own markers. */
  lemma HeadAbove(t: Store, genesis: Hash, bodies: Bodies, lookup: Lookup, h: Hash, target: Hash)
    requires Stored(t, genesis, bodies) && h in t && target in t
    requires target == h || (h != genesis && target == t[h].parent)
    ensures PathOf(t, genesis, target)[t[h].number := h] == PathOf(t, genesis, h)
    ensures LookupExact(t, genesis, bodies, lookup, target) && NoDuplicates(t, genesis, bodies, h) ==>
              LookupExact(t, genesis, bodies, IndexTxs(lookup, bodies[h], t[h].number), h)
  {
    if target == h {
      if LookupExact(t, genesis, bodies, lookup, h) {
        LookupIdempotent(t, genesis, bodies, lookup, h);
      }
    } else {
      PathExtend(t, genesis, h);
      if LookupExact(t, genesis, bodies, lookup, target) && NoDuplicates(t, genesis, bodies, h) {
        LookupExtend(t, genesis, bodies, lookup, h);
      }
    }
  }

  /** The blocks of the new chain up to `cur` have been made canonical. */
  ghost predicate Applied(t: Store, genesis: Hash, bodies: Bodies, canon: Index, lookup: Lookup, newHead: Hash,
                          cur: Hash,
                          oldHeight: nat, stale: set<Tx>, reborn: set<Tx>, exact: bool)
    requires Stored(t, genesis, bodies) && newHead in t
  {
    && cur in t && IsAncestor(t, genesis, cur, newHead)
    && Spliced(t, genesis, canon, newHead, cur, oldHeight)
    && (exact ==> NoDuplicates(t, genesis, bodies, newHead))
    && (exact ==> LookupExact(t, genesis, bodies, lookup - (stale - reborn), cur))
  }

  lemma ApplyStep(t: Store, genesis: Hash, bodies: Bodies, canon: Index, lookup: Lookup, newHead: Hash, cur: Hash,
                  block: Hash,
                  oldHeight: nat, stale: set<Tx>, reborn: set<Tx>, exact: bool)
    requires Stored(t, genesis, bodies) && newHead in t
    requires Applied(t, genesis, bodies, canon, lookup, newHead, cur, oldHeight, stale, reborn, exact)
    requires t[cur].number < t[newHead].number && block == AncestorAt(t, genesis, newHead, t[cur].number + 1)
    ensures block in t && t[block].number == t[cur].number + 1
    ensures Applied(t, genesis, bodies, canon[t[block].number := block], IndexTxs(lookup, bodies[block],
            t[block].number),
                    newHead, block, oldHeight, stale, reborn + Elements(bodies[block]), exact)
  {
    NextOnChain(t, genesis, newHead, block, cur, t[block].number);
    SplicedStep(t, genesis, canon, newHead, cur, block, oldHeight);
    if exact {
      ReapplyBlock(t, genesis, bodies, lookup, newHead, block, stale, reborn);
    }
  }

  lemma NextOnChain(t: Store, genesis: Hash, newHead: Hash, block: Hash, cur: Hash, n: nat)
    requires ValidTree(t, genesis) && newHead in t && 0 < n <= t[newHead].number
    requires block == AncestorAt(t, genesis, newHead, n) && cur == AncestorAt(t, genesis, newHead, n - 1)
    ensures block != genesis && t[block].parent == cur && t[block].number == n && t[cur].number == n - 1
    ensures IsAncestor(t, genesis, block, newHead)
  {
    AncestorParent(t, genesis, newHead, n);
    assert Linked(t, genesis, genesis);
  }

  /** The parent of the new head is the second block of its segment, or the fork point. */
  lemma SegmentTarget(t: Store, genesis: Hash, newHead: Hash, common: Hash, newChain: seq<Hash>)
    requires ValidTree(t, genesis) && newHead in t && Segment(t, genesis, newHead, common, newChain)
    ensures newChain == [] ==> common == newHead
    ensures newChain != [] ==>
              && t[newHead].parent in t
              && t[newHead].parent == if |newChain| > 1 then newChain[1] else common
  {
    if newChain != [] {
      AncestorParent(t, genesis, newHead, t[newHead].number);
      if |newChain| > 1 {
        assert newChain[1] == AncestorAt(t, genesis, newHead, t[newHead].number - 1);
      }
    }
  }

  /** What the fork point says about the target of the reorg. */
  lemma ForkTarget(t: Store, genesis: Hash, head: Hash, newHead: Hash, common: Hash, oldChain: seq<Hash>,
                   newChain: seq<Hash>)
    requires ValidTree(t, genesis) && head in t && newHead in t
    requires Segment(t, genesis, head, common, oldChain) && Segment(t, genesis, newHead, common, newChain)
    requires ForksAbove(t, genesis, head, newHead, t[common].number)
    ensures newChain == [] <==> IsAncestor(t, genesis, newHead, head)
    ensures newChain == [] ==> common == newHead
    ensures newChain == [] && oldChain == [] ==> head == newHead
    ensures newChain != [] ==>
              && t[newHead].parent in t && t[t[newHead].parent].number == t[newHead].number - 1
              && (|newChain| > 1 <==> !IsAncestor(t, genesis, t[newHead].parent, head))
              && t[newHead].parent == if |newChain| > 1 then newChain[1] else common
  {
    SegmentTarget(t, genesis, newHead, common, newChain);
    if newChain != [] {
      AncestorParent(t, genesis, newHead, t[newHead].number);
    }
  }

  /** The index follows the chain of `newHead` up to `cur`, and has no gap up to the higher of
      `cur` and the old head. */
  ghost predicate Spliced(t: Store, genesis: Hash, canon: Index, newHead: Hash, cur: Hash, oldHeight: nat)
    requires ValidTree(t, genesis) && newHead in t && cur in t && t[cur].number <= t[newHead].number
  {
    && (forall n: nat :: n in canon <==> n <= Max(oldHeight, t[cur].number))
    && (forall n: nat :: n <= t[cur].number ==> n in canon && canon[n] == AncestorAt(t, genesis, newHead, n))
  }

  /** Before any new block is applied the index follows both chains up to the fork. */
  lemma SplicedAtFork(t: Store, genesis: Hash, canon: Index, head: Hash, newHead: Hash, common: Hash)
    requires ValidTree(t, genesis) && head in t && newHead in t && common in t
    requires canon == PathOf(t, genesis, head)
    requires IsAncestor(t, genesis, common, head) && IsAncestor(t, genesis, common, newHead)
    ensures Spliced(t, genesis, canon, newHead, common, t[head].number)
  {
    forall n: nat | n <= t[common].number
      ensures AncestorAt(t, genesis, head, n) == AncestorAt(t, genesis, newHead, n)
    {
      AncestorsMerge(t, genesis, head, newHead, t[common].number, n);
    }
  }

  /** Writing the next block of the new chain moves the splice up by one. */
  lemma SplicedStep(t: Store, genesis: Hash, canon: Index, newHead: Hash, cur: Hash, block: Hash, oldHeight: nat)
    requires ValidTree(t, genesis) && newHead in t && cur in t && block in t
    requires t[cur].number + 1 == t[block].number && IsAncestor(t, genesis, block, newHead)
    requires Spliced(t, genesis, canon, newHead, cur, oldHeight)
    ensures Spliced(t, genesis, canon[t[block].number := block], newHead, block, oldHeight)
  {
  }

  /** Deletes the markers above height `number`; what is left is the path of the target. */
  method DropAbove(t: Store, genesis: Hash, canon: Index, ghost newHead: Hash, ghost target: Hash, number: nat,
                   ghost oldHeight: nat) returns (canon': Index)
    requires ValidTree(t, genesis) && newHead in t && target in t && IsAncestor(t, genesis, target, newHead)
    requires number == t[target].number && Spliced(t, genesis, canon, newHead, target, oldHeight)
    ensures canon' == PathOf(t, genesis, target)
  {
    canon' := HeaderChain.DropFrom(canon, number + 1, Max(oldHeight, number));
    forall n: nat | n <= number {
      AncestorTrans(t, genesis, newHead, number, n);
    }
  }

  /** Indexing one more block of the new chain keeps the surviving table exact. */
  lemma ReapplyBlock(t: Store, genesis: Hash, bodies: Bodies, lookup: Lookup, newHead: Hash, block: Hash,
                     stale: set<Tx>, reborn: set<Tx>)
    requires Stored(t, genesis, bodies) && newHead in t && block in t && block != genesis && t[block].parent in t
    requires IsAncestor(t, genesis, block, newHead) && NoDuplicates(t, genesis, bodies, newHead)
    requires LookupExact(t, genesis, bodies, lookup - (stale - reborn), t[block].parent)
    ensures LookupExact(t, genesis, bodies,
                        IndexTxs(lookup, bodies[block],
                          t[block].number) - (stale - (reborn + Elements(bodies[block]))), block)
  {
    NoDuplicatesBelow(t, genesis, bodies, newHead, block);
    LookupExtend(t, genesis, bodies, lookup - (stale - reborn), block);
    ReindexCommutes(lookup, stale, reborn, bodies[block], t[block].number);
  }

  /** The hashes of `a` that do not occur in `b`. */
  method HashDifference(a: seq<Tx>, b: seq<Tx>) returns (keep: seq<Tx>)
    ensures forall x :: x in keep <==> x in a && x !in b
  {
    keep := [];
    for i := 0 to |a|
      invariant forall x :: x in keep <==> x in a[..i] && x !in b
    {
      assert a[..i + 1] == a[..i] + [a[i]];
      if a[i] !in b {
        keep := keep + [a[i]];
      }
    }
    assert a[..|a|] == a;
  }

  /** All transactions of the blocks being undone. Without them the table fits the fork point. */
  method GatherTxs(t: Store, genesis: Hash, bodies: Bodies, ghost lookup: Lookup, ghost top: Hash, ghost base: Hash,
                   chain: seq<Hash>) returns (txs: seq<Tx>)
    requires Stored(t, genesis, bodies) && top in t && Segment(t, genesis, top, base, chain)
    ensures LookupExact(t, genesis, bodies, lookup, top) ==>
              LookupExact(t, genesis, bodies, lookup - Elements(txs), base)
  {
    txs := [];
    for k := 0 to |chain|
      invariant forall x :: x in txs <==> exists i :: 0 <= i < k && chain[i] in bodies && x in bodies[chain[i]]
    {
      txs := txs + bodies[chain[k]];
    }
    if LookupExact(t, genesis, bodies, lookup, top) {
      forall tx {
        SegmentTxs(t, genesis, bodies, top, base, chain, tx);
      }
      LookupTruncate(t, genesis, bodies, lookup, top, base, Elements(txs));
    }
  }

  /** Above height `k` the two chains differ at every height they share. */
  ghost predicate ForksAbove(t: Store, genesis: Hash, a: Hash, b: Hash, k: nat)
    requires ValidTree(t, genesis) && a in t && b in t
  {
    forall n: nat :: k < n <= t[a].number && n <= t[b].number ==>
      AncestorAt(t, genesis, a, n) != AncestorAt(t, genesis, b, n)
  }

  /** Walks both chains down to the block where they meet, recording what it passes. */
  method FindCommonAncestor(t: Store, genesis: Hash, oldHead: Hash, newHead: Hash)
    returns (oldChain: seq<Hash>, newChain: seq<Hash>, common: Hash)
    requires ValidTree(t, genesis) && oldHead in t && newHead in t
    ensures Segment(t, genesis, oldHead, common, oldChain)
    ensures Segment(t, genesis, newHead, common, newChain)
    ensures ForksAbove(t, genesis, oldHead, newHead, t[common].number)
  {
    oldChain, newChain := [], [];
    var o, n := oldHead, newHead;
    if t[o].number > t[n].number {
      while t[o].number != t[n].number
        invariant Segment(t, genesis, oldHead, o, oldChain)
        invariant t[n].number <= t[o].number
        decreases t[o].number
      {
        SegmentStep(t, genesis, oldHead, o, oldChain);
        oldChain := oldChain + [o];
        o := t[o].parent;
      }
    } else {
      while t[n].number != t[o].number
        invariant Segment(t, genesis, newHead, n, newChain)
        invariant t[o].number <= t[n].number
        decreases t[n].number
      {
        SegmentStep(t, genesis, newHead, n, newChain);
        newChain := newChain + [n];
        n := t[n].parent;
      }
    }
    while o != n
      invariant Segment(t, genesis, oldHead, o, oldChain) && Segment(t, genesis, newHead, n, newChain)
      invariant t[o].number == t[n].number
      invariant ForksAbove(t, genesis, oldHead, newHead, t[o].number)
      decreases t[o].number
    {
      if t[o].number == 0 {
        OnlyGenesisAtZero(t, genesis, o);
        OnlyGenesisAtZero(t, genesis, n);
      }
      SegmentStep(t, genesis, oldHead, o, oldChain);
      SegmentStep(t, genesis, newHead, n, newChain);
      oldChain := oldChain + [o];
      newChain := newChain + [n];
      o := t[o].parent;
      n := t[n].parent;
    }
    common := o;
  }
}
