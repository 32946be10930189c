/** The steps that move a node's canonical markers, as functions of the node: storing a block,
    publishing it as head, and rolling a published block back. */
module NodeOps {
  import opened HeaderTree
  import opened CanonicalIndex
  import opened ForkChoice
  import opened Convergence

  /** Block `b` builds on block `p` of the node. It may be stored already. */
  predicate BuildsOn(c: Node, b: Block, p: Hash) {
    && p in c.headers && p in c.td && b.header.parent == p
    && b.header.number == c.headers[p].number + 1
    && b.header.hash != ZERO && SameIfStored(c, b)
  }

  /** Block `b` extends the head with positive difficulty and repeats no canonical transaction. */
  predicate Attaches(c: Node, b: Block) {
    BuildsOn(c, b, c.head) && b.header.difficulty > 0 && forall tx :: tx in b.txs ==> tx !in c.lookup
  }

  function StoreBlock(c: Node, b: Block): (r: Node)
    requires b.header.parent in c.td
  {
    c.(headers := c.headers[b.header.hash := b.header],
       bodies := c.bodies[b.header.hash := b.txs],
       td := c.td[b.header.hash := c.td[b.header.parent] + b.header.difficulty])
  }

  function WriteHead(c: Node, h: Hash): (r: Node)
    requires h in c.headers && h in c.bodies
  {
    c.(canon := c.canon[c.headers[h].number := h],
       lookup := IndexTxs(c.lookup, c.bodies[h], c.headers[h].number),
       head := h)
  }

  predicate CanCrown(c: Node, h: Hash) {
    && h in c.headers && h in c.bodies && c.headers[h].hash in c.td
    && c.head in c.headers && c.headers[c.head].hash in c.td
  }

  /** Publishes a stored block if fork choice prefers it to the head. */
  function Crown(c: Node, h: Hash): (r: Node)
    requires CanCrown(c, h)
  {
    if Beats(c.td, c.headers[h], c.headers[c.head]) then WriteHead(c, h) else c
  }

  /** Storing and publishing a block that extends the head. */
  function Publish(c: Node, b: Block): (r: Node)
    requires b.header.parent in c.td
  {
    WriteHead(StoreBlock(c, b), b.header.hash)
  }

  /** The transactions of the canonical blocks from height `n` upwards. */
  function TxsFrom(c: Node, n: nat): (s: set<Tx>) {
    set m, tx | m in c.canon && n <= m && c.canon[m] in c.bodies && tx in c.bodies[c.canon[m]] :: tx
  }

  /** Removes the markers of `bad` and of everything canonical above it, then makes its parent
      the head again. */
  function Rollback(c: Node, bad: Hash): (r: Node)
    requires bad in c.headers && c.headers[bad].parent in c.headers && c.headers[bad].parent in c.bodies
  {
    var n := c.headers[bad].number;
    WriteHead(c.(canon := map m | m in c.canon && m < n :: c.canon[m], lookup := c.lookup - TxsFrom(c, n)),
              c.headers[bad].parent)
  }

  /** The stores, the genesis block and the head determine a valid node. */
  lemma NodeDetermined(c: Node, d: Node)
    requires ValidNode(c) && ValidNode(d)
    requires c.genesis == d.genesis && c.headers == d.headers && c.bodies == d.bodies && c.head == d.head
    ensures c == d
  {
    assert c.td == d.td by {
      forall h | h in c.headers
        ensures c.td[h] == d.td[h]
      {
        assert c.td[h] == TotalDifficulty(c.headers, c.genesis, h);
      }
    }
    LookupUnique(c.headers, c.genesis, c.bodies, c.lookup, d.lookup, c.head);
  }

  /** Storing a block again changes nothing. */
  lemma StoreAgain(c: Node, b: Block)
    requires ValidChain(c) && Has(c, b) && b.header.hash != c.genesis && b.header.parent in c.td
    ensures StoreBlock(c, b) == c
  {
    assert Linked(c.headers, c.genesis, b.header.hash);
    assert c.td[b.header.hash] == c.td[b.header.parent] + b.header.difficulty;
  }

  /** Storing a block, new or not, keeps the chain valid and leaves its markers as exact as they
      were. */
  lemma StoreKeepsChain(c: Node, b: Block, p: Hash)
    requires ValidChain(c) && BuildsOn(c, b, p)
    ensures ValidChain(StoreBlock(c, b)) && Extends(c.headers, StoreBlock(c, b).headers)
    ensures ValidNode(StoreBlock(c, b)) <==> ValidNode(c)
  {
    var d := StoreBlock(c, b);
    assert Linked(c.headers, c.genesis, c.genesis);
    if b.header.hash in c.headers {
      StoreAgain(c, b);
    } else {
      DifficultiesGrow(c.headers, c.genesis, c.td, b.header);
      PathStable(c.headers, d.headers, c.genesis, c.head);
      LookupStable(c.headers, d.headers, c.genesis, c.bodies, d.bodies, c.lookup, c.head);
    }
  }

  /** Publishing a stored child of the head that repeats no transaction keeps the node sound. */
  lemma WriteHeadKeepsValid(c: Node, h: Hash)
    requires ValidNode(c) && h in c.headers && h != c.genesis && c.headers[h].parent == c.head
    requires forall tx :: tx in c.bodies[h] ==> tx !in c.lookup
    ensures ValidNode(WriteHead(c, h))
  {
    assert Linked(c.headers, c.genesis, h);
    forall tx, n: nat, m: nat |
      InChain(c.headers, c.genesis, c.bodies, h, tx, n) && InChain(c.headers, c.genesis, c.bodies, h, tx, m)
      ensures n == m
    {
      InChainStep(c.headers, c.genesis, c.bodies, h, tx, n);
      InChainStep(c.headers, c.genesis, c.bodies, h, tx, m);
    }
    LookupExtend(c.headers, c.genesis, c.bodies, c.lookup, h);
    PathExtend(c.headers, c.genesis, h);
  }

  /** A stored child of the head with positive difficulty is always published. */
  lemma CrownsChild(c: Node, h: Hash)
    requires ValidChain(c) && h in c.headers && h != c.genesis
    requires c.headers[h].parent == c.head && c.headers[h].difficulty > 0
    ensures CanCrown(c, h) && Crown(c, h) == WriteHead(c, h)
  {
    ChildBeatsHead(c.headers, c.genesis, c.td, h);
  }

  /** Rolling back the canonical block `bad` gives the sound node whose head is its parent. */
  lemma RollbackKeepsValid(c: Node, bad: Hash)
    requires ValidNode(c) && bad in c.headers && bad != c.genesis && IsAncestor(c.headers, c.genesis, bad, c.head)
    ensures c.headers[bad].parent in c.headers && c.headers[bad].parent in c.bodies
    ensures ValidNode(Rollback(c, bad)) && Rollback(c, bad).head == c.headers[bad].parent
  {
    assert Linked(c.headers, c.genesis, bad);
    var p, n := c.headers[bad].parent, c.headers[bad].number;
    AncestorParent(c.headers, c.genesis, c.head, n);
    forall tx
      ensures tx in TxsFrom(c, n) <==>
              exists m :: c.headers[p].number < m && InChain(c.headers, c.genesis, c.bodies, c.head, tx, m)
    {
      if tx in TxsFrom(c, n) {
        var m :| m in c.canon && n <= m && c.canon[m] in c.bodies && tx in c.bodies[c.canon[m]];
        assert InChain(c.headers, c.genesis, c.bodies, c.head, tx, m);
      }
      if m :| c.headers[p].number < m && InChain(c.headers, c.genesis, c.bodies, c.head, tx, m) {
        assert m in c.canon && tx in c.bodies[c.canon[m]];
      }
    }
    LookupTruncate(c.headers, c.genesis, c.bodies, c.lookup, c.head, p, TxsFrom(c, n));
    LookupIdempotent(c.headers, c.genesis, c.bodies, c.lookup - TxsFrom(c, n), p);
    NoDuplicatesBelow(c.headers, c.genesis, c.bodies, c.head, p);
    RollbackPath(c, bad);
  }

  lemma RollbackPath(c: Node, bad: Hash)
    requires ValidNode(c) && bad in c.headers && bad != c.genesis && IsAncestor(c.headers, c.genesis, bad, c.head)
    ensures c.headers[bad].parent in c.headers && c.headers[bad].parent in c.bodies
    ensures Rollback(c, bad).canon == PathOf(c.headers, c.genesis, c.headers[bad].parent)
  {
    assert Linked(c.headers, c.genesis, bad);
    var p, n := c.headers[bad].parent, c.headers[bad].number;
    AncestorParent(c.headers, c.genesis, c.head, n);
    forall m: nat | m < n {
      AncestorTrans(c.headers, c.genesis, c.head, n - 1, m);
    }
  }

  /** Block `p` is the genesis block or extends a canonical block. */
  ghost predicate JoinsChain(c: Node, p: Hash)
    requires ValidChain(c) && p in c.headers
  {
    p == c.genesis || (c.headers[p].parent in c.headers &&
      IsAncestor(c.headers, c.genesis, c.headers[p].parent, c.head))
  }

  /** Rolling back any stored block, canonical or not, leaves a valid chain if and only if its
      parent joins the canonical chain. */
  lemma RollbackValidIff(c: Node, bad: Hash)
    requires ValidChain(c) && bad in c.headers && bad != c.genesis
    ensures c.headers[bad].parent in c.headers && c.headers[bad].parent in c.bodies
    ensures ValidChain(Rollback(c, bad)) <==> JoinsChain(c, c.headers[bad].parent)
  {
    assert Linked(c.headers, c.genesis, bad);
    var p := c.headers[bad].parent;
    var n, canon, path := c.headers[p].number, Rollback(c, bad).canon, PathOf(c.headers, c.genesis, p);
    assert Linked(c.headers, c.genesis, p);
    if p != c.genesis {
      AncestorParent(c.headers, c.genesis, p, n);
      if JoinsChain(c, p) {
        forall m: nat | m < n {
          AncestorsMerge(c.headers, c.genesis, c.head, p, n - 1, m);
        }
        assert canon == path;
      } else {
        assert n - 1 in path && path[n - 1] == c.headers[p].parent;
      }
    } else {
      assert canon == path;
    }
  }

  /** Rollback undoes publication: head, index and lookup table return to what they were. */
  lemma RollbackUndoesWriteHead(c: Node, h: Hash)
    requires ValidNode(c) && h in c.headers && h != c.genesis && c.headers[h].parent == c.head
    requires forall tx :: tx in c.bodies[h] ==> tx !in c.lookup
    ensures ValidNode(WriteHead(c, h))
    ensures c.head in c.headers && c.head in c.bodies && Rollback(WriteHead(c, h), h) == c
  {
    WriteHeadKeepsValid(c, h);
    RollbackKeepsValid(WriteHead(c, h), h);
    NodeDetermined(Rollback(WriteHead(c, h), h), c);
  }

  /** Once the block is stored, a node that keeps its head has imported the block if it loses
      against the head, and a node headed by the block has imported it if it wins. */
  lemma ImportIntro(c: Node, b: Block, d: Node)
    requires ValidChain(c) && BuildsOn(c, b, b.header.parent) && d == StoreBlock(c, b) && ValidChain(d)
    ensures d.head in d.headers && d.headers[d.head].hash in d.td && b.header.hash in d.td &&
            d.headers[d.head].hash == d.head
    ensures !Beats(d.td, b.header, d.headers[d.head]) ==> Imported(c, b, d)
    ensures Beats(d.td, b.header, d.headers[d.head]) ==>
              && b.header.hash != d.head
              && forall canon, lookup :: ValidChain(d.(canon := canon, lookup := lookup, head := b.header.hash)) ==>
                   Imported(c, b, d.(canon := canon, lookup := lookup, head := b.header.hash))
  {
    assert Linked(d.headers, d.genesis, c.head) && Linked(d.headers, d.genesis, b.header.hash);
    BeatsIsStrictTotalOrder(d.td, b.header, d.headers[d.head], d.headers[d.head]);
  }
}
