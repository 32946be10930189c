/** Importing a list of blocks into a fresh chain (core/blockchain.go), as a whole run. */
module ImportRuns {
  import opened HeaderTree
  import opened CanonicalIndex
  import opened Convergence
  import opened BlockChain

  /** Hashes tell blocks apart, and a child is one higher than its parent. */
  predicate Consistent(g: Block, blocks: seq<Block>) {
    && (forall x, y :: x in [g] + blocks && y in [g] + blocks && x.header.hash == y.header.hash ==> x == y)
    && (forall x, y :: x in blocks && y in [g] + blocks && x.header.parent == y.header.hash ==>
          y.header.number + 1 == x.header.number)
    && (forall x :: x in blocks ==> x.header.hash != ZERO)
  }

  /** No chain of the given blocks repeats a transaction. */
  ghost predicate NoRepeats(c: Node, blocks: seq<Block>)
    requires ValidChain(c)
  {
    forall i {:trigger NoRepeat(c, blocks[i])} :: 0 <= i < |blocks| ==> NoRepeat(c, blocks[i])
  }

  ghost predicate AllExact(nodes: seq<Node>) {
    forall i {:trigger ValidNode(nodes[i])} :: 0 <= i < |nodes| ==> ValidNode(nodes[i])
  }

  /** The states of a chain that imports blocks one by one, up to the last. */
  ghost predicate Trace(g: Block, nodes: seq<Node>, blocks: seq<Block>, last: Node)
    decreases |blocks|
  {
    && |nodes| == |blocks| + 1 && nodes[|blocks|] == last
    && if blocks == [] then Fresh(last, g) && ValidNode(last)
       else
         var k := |blocks| - 1;
         Trace(g, nodes[..k + 1], blocks[..k], nodes[k]) && ImportedExactly(nodes[k], blocks[k], last)
  }

  /** Imports blocks one after another, up to the first without a stored parent. The states
      passed through are a run, and every lookup table in it is exact if no chain repeats a
      transaction. */
  method ImportAll(g: Block, blocks: seq<Block>) returns (chain: Chain, count: nat, ghost nodes: seq<Node>)
    requires g.header.number == 0 && g.header.hash != ZERO && g.header.parent == ZERO && g.txs == []
    requires Consistent(g, blocks)
    ensures count <= |blocks| && Run(g, nodes, blocks[..count]) && nodes[count] == chain.View() && chain.Valid()
    ensures NoRepeats(chain.View(), blocks[..count]) ==> AllExact(nodes)
    ensures count < |blocks| ==> blocks[count].header.parent !in chain.headers
  {
    chain, count, nodes := Replay(g, blocks);
    TraceIsRun(g, nodes, blocks[..count], chain.View());
    if NoRepeats(chain.View(), blocks[..count]) {
      TraceIsExact(g, nodes, blocks[..count], chain.View());
    }
  }

  method Replay(g: Block, blocks: seq<Block>) returns (chain: Chain, count: nat, ghost nodes: seq<Node>)
    requires g.header.number == 0 && g.header.hash != ZERO && g.header.parent == ZERO && g.txs == []
    requires Consistent(g, blocks)
    ensures count <= |blocks| && Trace(g, nodes, blocks[..count], chain.View()) && chain.Valid()
    ensures count < |blocks| ==> blocks[count].header.parent !in chain.headers
  {
    chain := new Chain(g);
    nodes, count := [chain.View()], 0;
    while count < |blocks|
      invariant count <= |blocks| && chain.Valid() && fresh(chain)
      invariant Trace(g, nodes, blocks[..count], chain.View())
      decreases |blocks| - count
    {
      NextFits(g, nodes, blocks, count, chain.View());
      var status := chain.WriteBlockAndSetHead(blocks[count]);
      if status.ErrUnknownAncestor? {
        return;
      }
      TraceOn(g, nodes, blocks, count, nodes[count], chain.View());
      nodes, count := nodes + [chain.View()], count + 1;
    }
  }

  lemma TraceOn(g: Block, nodes: seq<Node>, blocks: seq<Block>, k: nat, c: Node, d: Node)
    requires k < |blocks| && Trace(g, nodes, blocks[..k], c) && ImportedExactly(c, blocks[k], d)
    ensures Trace(g, nodes + [d], blocks[..k + 1], d)
  {
    var nodes', blocks' := nodes + [d], blocks[..k + 1];
    assert nodes'[..k + 1] == nodes && blocks'[..k] == blocks[..k];
    assert ImportedExactly(nodes'[k], blocks'[k], d);
  }

  lemma {:induction false} TraceIsRun(g: Block, nodes: seq<Node>, blocks: seq<Block>, last: Node)
    requires Trace(g, nodes, blocks, last)
    ensures Run(g, nodes, blocks)
    decreases |blocks|
  {
    if blocks != [] {
      var k := |blocks| - 1;
      TraceIsRun(g, nodes[..k + 1], blocks[..k], nodes[k]);
      RunExtends(g, nodes, blocks, k);
    }
  }

  lemma RunExtends(g: Block, nodes: seq<Node>, blocks: seq<Block>, k: nat)
    requires |nodes| == |blocks| + 1 == k + 2 && Run(g, nodes[..k + 1], blocks[..k]) && ImportedAt(nodes, blocks, k)
    ensures Run(g, nodes, blocks)
  {
    forall i | 0 <= i < |blocks|
      ensures ImportedAt(nodes, blocks, i)
    {
      if i < k {
        assert ImportedAt(nodes[..k + 1], blocks[..k], i);
      }
    }
  }

  lemma {:induction false} TraceIsExact(g: Block, nodes: seq<Node>, blocks: seq<Block>, last: Node)
    requires Trace(g, nodes, blocks, last) && ValidChain(last) && NoRepeats(last, blocks)
    ensures AllExact(nodes)
    decreases |blocks|
  {
    if blocks != [] {
      var k := |blocks| - 1;
      NoRepeatsBefore(nodes[k], blocks, last);
      TraceIsExact(g, nodes[..k + 1], blocks[..k], nodes[k]);
      ExactExtends(nodes, k);
    }
  }

  lemma ExactExtends(nodes: seq<Node>, k: nat)
    requires |nodes| == k + 2 && AllExact(nodes[..k + 1]) && (ValidNode(nodes[k]) ==> ValidNode(nodes[k + 1]))
    ensures AllExact(nodes)
  {
    assert ValidNode(nodes[..k + 1][k]);
    forall i | 0 <= i < |nodes|
      ensures ValidNode(nodes[i])
    {
      assert i <= k ==> ValidNode(nodes[..k + 1][i]);
    }
  }

  /** A chain that repeats no transaction after an import repeated none before. */
  lemma NoRepeatsBefore(c: Node, blocks: seq<Block>, d: Node)
    requires blocks != [] && Imported(c, blocks[|blocks| - 1], d) && NoRepeats(d, blocks)
    ensures NoRepeats(c, blocks[..|blocks| - 1]) && NoRepeat(d, blocks[|blocks| - 1])
  {
    var k := |blocks| - 1;
    assert NoRepeat(d, blocks[k]);
    forall i | 0 <= i < k
      ensures NoRepeat(c, blocks[..k][i])
    {
      assert NoRepeat(d, blocks[i]);
      NoRepeatBefore(c, blocks[k], d, blocks[i]);
    }
  }

  lemma NoRepeatBefore(c: Node, b: Block, d: Node, x: Block)
    requires Imported(c, b, d) && NoRepeat(d, x)
    ensures NoRepeat(c, x)
  {
    if x.header.hash in c.headers {
      LookupStable(c.headers, d.headers, c.genesis, c.bodies, d.bodies, c.lookup, x.header.hash);
    }
  }

  /** Everything a node holds comes from one of the blocks of its run. */
  lemma Held(g: Block, nodes: seq<Node>, blocks: seq<Block>, c: Node, h: Hash) returns (x: Block)
    requires Trace(g, nodes, blocks, c) && h in c.headers
    ensures x in [g] + blocks && x.header.hash == h && Has(c, x)
  {
    TraceIsRun(g, nodes, blocks, c);
    RunInvariant(g, nodes, blocks, |blocks|);
    assert blocks[..|blocks|] == blocks;
    assert Origin(h, BlockSet(g, blocks));
    x :| x in BlockSet(g, blocks) && x.header.hash == h;
    assert Has(c, x);
  }

  /** What a node holds after a run fits the next block. */
  lemma NextFits(g: Block, nodes: seq<Node>, blocks: seq<Block>, k: nat, c: Node)
    requires k < |blocks| && Consistent(g, blocks) && Trace(g, nodes, blocks[..k], c)
    ensures SameIfStored(c, blocks[k])
    ensures var p := blocks[k].header.parent;
            p in c.headers ==> c.headers[p].number + 1 == blocks[k].header.number
  {
    var b := blocks[k];
    if b.header.hash in c.headers {
      var x := Held(g, nodes, blocks[..k], c, b.header.hash);
    }
    if b.header.parent in c.headers {
      var y := Held(g, nodes, blocks[..k], c, b.header.parent);
    }
  }
}
