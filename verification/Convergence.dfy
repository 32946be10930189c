/** Nodes that import the same blocks agree, whatever the order of arrival. */
module Convergence {
  import opened HeaderTree
  import opened CanonicalIndex
  import opened ForkChoice

  /** The observable chain state of one node. */
  datatype Node = Node(genesis: Hash, headers: Store, bodies: Bodies, td: map<Hash, nat>,
                       canon: Index, lookup: Lookup, head: Hash)

  /** Stores, difficulties, head and canonical index fit together. */
  ghost predicate ValidChain(c: Node) {
    && Stored(c.headers, c.genesis, c.bodies)
    && DifficultiesOf(c.headers, c.genesis, c.td)
    && c.head in c.headers
    && c.canon == PathOf(c.headers, c.genesis, c.head)
  }

  /** The lookup table is exact as well. */
  ghost predicate ValidNode(c: Node) {
    ValidChain(c) && LookupExact(c.headers, c.genesis, c.bodies, c.lookup, c.head)
  }

  predicate Has(c: Node, b: Block) {
    && b.header.hash in c.headers && b.header.hash in c.bodies
    && c.headers[b.header.hash] == b.header && c.bodies[b.header.hash] == b.txs
  }

  /** A hash stands for one block: if the node has something under it, it has this block. */
  predicate SameIfStored(c: Node, b: Block) { b.header.hash in c.headers ==> Has(c, b) }

  /** Node `c` imports block `b`, whose parent it has, and becomes `c'`. The block may have been
      imported before. */
  ghost predicate Imported(c: Node, b: Block, c': Node) {
    && ValidChain(c) && ValidChain(c') && c'.genesis == c.genesis
    && SameIfStored(c, b) && b.header.parent in c.headers
    && c'.headers == c.headers[b.header.hash := b.header]
    && c'.bodies == c.bodies[b.header.hash := b.txs]
    && Linked(c'.headers, c'.genesis, c.head) && Linked(c'.headers, c'.genesis, b.header.hash)
    && c'.head == if Beats(c'.td, b.header, c'.headers[c.head]) then b.header.hash else c.head
  }

  /** An import that keeps an exact lookup table exact, unless the block's chain repeats a
      transaction. */
  ghost predicate ImportedExactly(c: Node, b: Block, c': Node) {
    Imported(c, b, c') && (ValidNode(c) && NoRepeat(c', b) ==> ValidNode(c'))
  }

  /** No transaction occurs twice on the chain of block `b`, as far as node `c` stores it. */
  ghost predicate NoRepeat(c: Node, b: Block)
    requires ValidChain(c)
  {
    b.header.hash in c.headers ==> NoDuplicates(c.headers, c.genesis, c.bodies, b.header.hash)
  }

  /** A node that knows only the genesis block. */
  ghost predicate Fresh(c: Node, g: Block) {
    && ValidChain(c) && c.genesis == c.head == g.header.hash
    && c.headers == map[g.header.hash := g.header] && c.bodies == map[g.header.hash := g.txs]
  }

  /** The states of a node that imports `blocks` in order. */
  ghost predicate Run(g: Block, nodes: seq<Node>, blocks: seq<Block>) {
    && |nodes| == |blocks| + 1
    && Fresh(nodes[0], g)
    && forall i {:trigger ImportedAt(nodes, blocks, i)} :: 0 <= i < |blocks| ==> ImportedAt(nodes, blocks, i)
  }

  ghost predicate ImportedAt(nodes: seq<Node>, blocks: seq<Block>, i: nat)
    requires |nodes| == |blocks| + 1 && i < |blocks|
  {
    Imported(nodes[i], blocks[i], nodes[i + 1])
  }

  /** Stored header `h` is the head or loses against it. */
  ghost predicate LosesToHead(c: Node, h: Hash)
    requires ValidChain(c) && h in c.headers
  {
    h == c.head || (c.headers[c.head].hash in c.td && c.headers[h].hash in c.td &&
      Beats(c.td, c.headers[c.head], c.headers[h]))
  }

  ghost predicate HeadIsBest(c: Node)
    requires ValidChain(c)
  {
    forall h {:trigger LosesToHead(c, h)} :: h in c.headers ==> LosesToHead(c, h)
  }

  ghost predicate Origin(h: Hash, blocks: set<Block>) {
    exists b :: b in blocks && b.header.hash == h
  }

  /** The node stores exactly the given blocks. */
  ghost predicate Holds(c: Node, blocks: set<Block>) {
    && (forall b {:trigger Has(c, b)} :: b in blocks ==> Has(c, b))
    && (forall h {:trigger Origin(h, blocks)} :: h in c.headers ==> Origin(h, blocks))
  }

  /** An import keeps the head best: fork choice is a total order on stable difficulties. */
  lemma ImportKeepsBest(c: Node, b: Block, c': Node, h: Hash)
    requires Imported(c, b, c') && HeadIsBest(c) && h in c'.headers
    ensures LosesToHead(c', h)
  {
    assert Linked(c'.headers, c'.genesis, h);
    if h in c.headers {
      assert LosesToHead(c, h);
      SameRank(c, b, c', h);
      SameRank(c, b, c', c.head);
    }
    BeatsIsStrictTotalOrder(c'.td, b.header, c'.headers[c.head], c'.headers[h]);
  }

  /** An import changes neither the header nor the difficulty of what is stored already. */
  lemma SameRank(c: Node, b: Block, c': Node, h: Hash)
    requires Imported(c, b, c') && h in c.headers
    ensures h in c.td && h in c'.td && c'.headers[h] == c.headers[h] && c'.td[h] == c.td[h] && c.headers[h].hash == h
  {
    assert Linked(c.headers, c.genesis, h);
    TotalDifficultyStable(c.headers, c'.headers, c.genesis, h);
  }

  lemma ImportHolds(c: Node, b: Block, c': Node, blocks: set<Block>)
    requires Imported(c, b, c') && Holds(c, blocks)
    ensures Holds(c', blocks + {b})
  {
    forall x | x in blocks + {b}
      ensures Has(c', x)
    {
      assert x in blocks ==> Has(c, x);
    }
    forall h | h in c'.headers
      ensures Origin(h, blocks + {b})
    {
      if h in c.headers {
        assert Origin(h, blocks);
      } else {
        assert b in blocks + {b};
      }
    }
  }

  function BlockSet(g: Block, blocks: seq<Block>): (s: set<Block>) { {g} + set b | b in blocks }

  /** The node stores exactly the given blocks and its head is the best of them. */
  ghost predicate Follows(c: Node, genesis: Hash, blocks: set<Block>) {
    ValidChain(c) && HeadIsBest(c) && c.genesis == genesis && Holds(c, blocks)
  }

  lemma FreshFollows(c: Node, g: Block)
    requires Fresh(c, g)
    ensures Follows(c, g.header.hash, {g})
  {
    forall h | h in c.headers
      ensures Origin(h, {g})
    {
      assert g in {g} && g.header.hash == h;
    }
  }

  lemma ImportFollows(c: Node, b: Block, c': Node, blocks: set<Block>)
    requires Imported(c, b, c') && Follows(c, c.genesis, blocks)
    ensures Follows(c', c.genesis, blocks + {b})
  {
    forall h | h in c'.headers
      ensures LosesToHead(c', h)
    {
      ImportKeepsBest(c, b, c', h);
    }
    ImportHolds(c, b, c', blocks);
  }

  /** Over a whole run the head is the best of everything imported so far. */
  lemma {:induction false} RunInvariant(g: Block, nodes: seq<Node>, blocks: seq<Block>, k: nat)
    requires Run(g, nodes, blocks) && k <= |blocks|
    ensures Follows(nodes[k], g.header.hash, BlockSet(g, blocks[..k]))
  {
    if k == 0 {
      FreshFollows(nodes[0], g);
      assert BlockSet(g, blocks[..0]) == {g};
    } else {
      RunInvariant(g, nodes, blocks, k - 1);
      assert ImportedAt(nodes, blocks, k - 1);
      ImportFollows(nodes[k - 1], blocks[k - 1], nodes[k], BlockSet(g, blocks[..k - 1]));
      assert blocks[..k] == blocks[..k - 1] + [blocks[k - 1]];
      assert BlockSet(g, blocks[..k - 1]) + {blocks[k - 1]} == BlockSet(g, blocks[..k]);
    }
  }

  /** Nodes that hold the same blocks and whose heads are best agree on everything but perhaps
      the lookup table, and on that too if it is exact. */
  lemma BestNodesAgree(c: Node, d: Node, blocks: set<Block>)
    requires ValidChain(c) && ValidChain(d) && HeadIsBest(c) && HeadIsBest(d) && c.genesis == d.genesis
    requires Holds(c, blocks) && Holds(d, blocks)
    ensures c == d.(lookup := c.lookup)
    ensures ValidNode(c) && ValidNode(d) ==> c == d
  {
    SameStores(c, d, blocks);
    SameStores(d, c, blocks);
    assert c.headers == d.headers && c.bodies == d.bodies;
    assert c.td == d.td by {
      forall h | h in c.headers
        ensures c.td[h] == d.td[h]
      {
        assert c.td[h] == TotalDifficulty(c.headers, c.genesis, h);
      }
    }
    assert LosesToHead(c, d.head) && LosesToHead(d, c.head);
    if c.head != d.head {
      BeatsIsStrictTotalOrder(c.td, c.headers[c.head], c.headers[d.head], c.headers[c.head]);
    }
    if ValidNode(c) && ValidNode(d) {
      LookupUnique(c.headers, c.genesis, c.bodies, c.lookup, d.lookup, c.head);
    }
  }

  lemma SameStores(c: Node, d: Node, blocks: set<Block>)
    requires Holds(c, blocks) && Holds(d, blocks)
    ensures forall h :: h in c.headers ==>
              h in d.headers && h in d.bodies && h in c.bodies && c.headers[h] == d.headers[h] &&
                c.bodies[h] == d.bodies[h]
  {
    forall h | h in c.headers
      ensures h in d.headers && h in d.bodies && h in c.bodies && c.headers[h] == d.headers[h] &&
              c.bodies[h] == d.bodies[h]
    {
      assert Origin(h, blocks);
      var b :| b in blocks && b.header.hash == h;
      assert Has(c, b) && Has(d, b);
    }
  }

  /** Convergence: two nodes that start from one genesis block and import the same blocks, each
      in its own parent-first order, end with the same stores, the same head and the same
      canonical index, and with the same lookup table if theirs are exact. */
  lemma Converge(g: Block, nodes: seq<Node>, blocks: seq<Block>, nodes': seq<Node>, blocks': seq<Block>)
    requires Run(g, nodes, blocks) && Run(g, nodes', blocks')
    requires forall b :: b in blocks <==> b in blocks'
    ensures var c, d := nodes[|blocks|], nodes'[|blocks'|];
            && c.headers == d.headers && c.bodies == d.bodies && c.td == d.td && c.head == d.head && c.canon == d.canon
            && (ValidNode(c) && ValidNode(d) ==> c.lookup == d.lookup)
  {
    RunInvariant(g, nodes, blocks, |blocks|);
    RunInvariant(g, nodes', blocks', |blocks'|);
    assert blocks[..|blocks|] == blocks && blocks'[..|blocks'|] == blocks';
    assert BlockSet(g, blocks) == BlockSet(g, blocks');
    BestNodesAgree(nodes[|blocks|], nodes'[|blocks'|], BlockSet(g, blocks));
  }
}
