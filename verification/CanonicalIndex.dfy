/** What the transaction lookup table should hold for the chain that ends in a given head. */
module CanonicalIndex {
  import opened HeaderTree

  /** A transaction hash. */
  type Tx = nat
  type Bodies = map<Hash, seq<Tx>>
  type Lookup = map<Tx, nat>

  datatype Block = Block(header: Header, txs: seq<Tx>)

  ghost predicate Stored(t: Store, genesis: Hash, bodies: Bodies) {
    ValidTree(t, genesis) && bodies.Keys == t.Keys
  }

  /** The block at height `n` of the chain ending in `h` includes `tx`. */
  predicate InChain(t: Store, genesis: Hash, bodies: Bodies, h: Hash, tx: Tx, n: nat)
    requires Stored(t, genesis, bodies) && h in t
  {
    n <= t[h].number && tx in bodies[AncestorAt(t, genesis, h, n)]
  }

  /** The table holds exactly the transactions of the chain ending in `h`, each at its block. */
  ghost predicate LookupExact(t: Store, genesis: Hash, bodies: Bodies, lookup: Lookup, h: Hash)
    requires Stored(t, genesis, bodies) && h in t
  {
    forall tx, n: nat {:trigger InChain(t, genesis, bodies, h, tx, n)} ::
      InChain(t, genesis, bodies, h, tx, n) <==> (tx in lookup && lookup[tx] == n)
  }

  /** No transaction occurs in two blocks of the chain ending in `h`. */
  ghost predicate NoDuplicates(t: Store, genesis: Hash, bodies: Bodies, h: Hash)
    requires Stored(t, genesis, bodies) && h in t
  {
    forall tx, n: nat, m: nat {:trigger InChain(t, genesis, bodies, h, tx, n), InChain(t, genesis, bodies, h, tx, m)} ::
      InChain(t, genesis, bodies, h, tx, n) && InChain(t, genesis, bodies, h, tx, m) ==> n == m
  }

  function Elements(txs: seq<Tx>): (s: set<Tx>) { set x | x in txs }

  /** The table after writing the entries of one block. */
  function IndexTxs(lookup: Lookup, txs: seq<Tx>, number: nat): (r: Lookup) {
    map tx | tx in lookup.Keys + Elements(txs) :: if tx in txs then number else lookup[tx]
  }

  /** Two exact tables for one chain are equal. */
  lemma LookupUnique(t: Store, genesis: Hash, bodies: Bodies, a: Lookup, b: Lookup, h: Hash)
    requires Stored(t, genesis, bodies) && h in t
    requires LookupExact(t, genesis, bodies, a, h) && LookupExact(t, genesis, bodies, b, h)
    ensures a == b
  {
    forall tx | tx in a
      ensures tx in b && a[tx] == b[tx]
    {
      assert InChain(t, genesis, bodies, h, tx, a[tx]);
    }
    forall tx | tx in b
      ensures tx in a
    {
      assert InChain(t, genesis, bodies, h, tx, b[tx]);
    }
  }

  /** The transactions of a chain are those of its parent's chain plus its own. */
  lemma InChainStep(t: Store, genesis: Hash, bodies: Bodies, h: Hash, tx: Tx, n: nat)
    requires Stored(t, genesis, bodies) && h in t && h != genesis
    ensures t[h].parent in t && t[t[h].parent].number + 1 == t[h].number
    ensures InChain(t, genesis, bodies, h, tx, n) <==>
              InChain(t, genesis, bodies, t[h].parent, tx, n) || (n == t[h].number && tx in bodies[h])
  {
    assert Linked(t, genesis, h);
  }

  /** Growing the stores changes no existing chain. */
  lemma InChainStable(t: Store, t': Store, genesis: Hash, bodies: Bodies, bodies': Bodies, h: Hash, tx: Tx, n: nat)
    requires Stored(t, genesis, bodies) && Stored(t', genesis, bodies') && h in t
    requires Extends(t, t') && (forall x :: x in bodies ==> x in bodies' && bodies'[x] == bodies[x])
    ensures h in t' && (InChain(t', genesis, bodies', h, tx, n) <==> InChain(t, genesis, bodies, h, tx, n))
  {
    if n <= t[h].number {
      AncestorStable(t, t', genesis, h, n);
    }
  }

  lemma LookupStable(t: Store, t': Store, genesis: Hash, bodies: Bodies, bodies': Bodies, lookup: Lookup, h: Hash)
    requires Stored(t, genesis, bodies) && Stored(t', genesis, bodies') && h in t
    requires Extends(t, t') && (forall x :: x in bodies ==> x in bodies' && bodies'[x] == bodies[x])
    ensures h in t'
    ensures LookupExact(t', genesis, bodies', lookup, h) <==> LookupExact(t, genesis, bodies, lookup, h)
    ensures NoDuplicates(t', genesis, bodies', h) <==> NoDuplicates(t, genesis, bodies, h)
  {
    forall tx, n: nat
      ensures InChain(t', genesis, bodies', h, tx, n) <==> InChain(t, genesis, bodies, h, tx, n)
    {
      InChainStable(t, t', genesis, bodies, bodies', h, tx, n);
    }
  }

  /** Writing a block's entries on top of its parent's exact table gives its own exact table. */
  lemma LookupExtend(t: Store, genesis: Hash, bodies: Bodies, lookup: Lookup, h: Hash)
    requires Stored(t, genesis, bodies) && h in t && h != genesis && t[h].parent in t
    requires LookupExact(t, genesis, bodies, lookup, t[h].parent)
    requires NoDuplicates(t, genesis, bodies, h)
    ensures LookupExact(t, genesis, bodies, IndexTxs(lookup, bodies[h], t[h].number), h)
  {
    var lookup' := IndexTxs(lookup, bodies[h], t[h].number);
    forall tx, n: nat
      ensures InChain(t, genesis, bodies, h, tx, n) <==> (tx in lookup' && lookup'[tx] == n)
    {
      InChainStep(t, genesis, bodies, h, tx, n);
      if tx in bodies[h] && n != t[h].number {
        assert InChain(t, genesis, bodies, h, tx, t[h].number);
      }
    }
  }

  /** Rewriting the entries of the head itself changes nothing. */
  lemma LookupIdempotent(t: Store, genesis: Hash, bodies: Bodies, lookup: Lookup, h: Hash)
    requires Stored(t, genesis, bodies) && h in t
    requires LookupExact(t, genesis, bodies, lookup, h)
    ensures IndexTxs(lookup, bodies[h], t[h].number) == lookup
  {
    forall tx | tx in bodies[h]
      ensures tx in lookup && lookup[tx] == t[h].number
    {
      assert InChain(t, genesis, bodies, h, tx, t[h].number);
    }
  }

  /** A chain without duplicates has no duplicates below any of its blocks. */
  lemma NoDuplicatesBelow(t: Store, genesis: Hash, bodies: Bodies, h: Hash, a: Hash)
    requires Stored(t, genesis, bodies) && h in t && a in t && IsAncestor(t, genesis, a, h)
    requires NoDuplicates(t, genesis, bodies, h)
    ensures NoDuplicates(t, genesis, bodies, a)
  {
    forall tx, n: nat | InChain(t, genesis, bodies, a, tx, n)
      ensures InChain(t, genesis, bodies, h, tx, n)
    {
      AncestorTrans(t, genesis, h, t[a].number, n);
    }
  }

  /** Removing the transactions of every block above `a` from the table of `h` leaves the
      table of `a`. */
  lemma LookupTruncate(t: Store, genesis: Hash, bodies: Bodies, lookup: Lookup, h: Hash, a: Hash, txs: set<Tx>)
    requires Stored(t, genesis, bodies) && h in t && a in t && IsAncestor(t, genesis, a, h)
    requires LookupExact(t, genesis, bodies, lookup, h) && NoDuplicates(t, genesis, bodies, h)
    requires forall tx :: tx in txs <==> exists n :: t[a].number < n && InChain(t, genesis, bodies, h, tx, n)
    ensures LookupExact(t, genesis, bodies, lookup - txs, a)
  {
    var lookup' := lookup - txs;
    forall tx, n: nat
      ensures InChain(t, genesis, bodies, a, tx, n) <==> (tx in lookup' && lookup'[tx] == n)
    {
      if n <= t[a].number {
        AncestorTrans(t, genesis, h, t[a].number, n);
      }
      assert InChain(t, genesis, bodies, a, tx, n) <==> n <= t[a].number && InChain(t, genesis, bodies, h, tx, n);
      if tx in txs {
        var m :| t[a].number < m && InChain(t, genesis, bodies, h, tx, m);
        assert InChain(t, genesis, bodies, h, tx, n) ==> n == m;
      } else {
        assert InChain(t, genesis, bodies, h, tx, n) ==> n <= t[a].number;
      }
    }
  }

  /** `chain` lists the blocks from `top` down to, but not including, its ancestor `base`. */
  ghost predicate Segment(t: Store, genesis: Hash, top: Hash, base: Hash, chain: seq<Hash>)
    requires ValidTree(t, genesis) && top in t
  {
    && base in t && IsAncestor(t, genesis, base, top)
    && |chain| == t[top].number - t[base].number
    && forall i :: 0 <= i < |chain| ==> chain[i] == AncestorAt(t, genesis, top, t[top].number - i)
  }

  /** The transactions of a segment are those above its base. */
  lemma SegmentTxs(t: Store, genesis: Hash, bodies: Bodies, top: Hash, base: Hash, chain: seq<Hash>, tx: Tx)
    requires Stored(t, genesis, bodies) && top in t && Segment(t, genesis, top, base, chain)
    ensures (exists i :: 0 <= i < |chain| && chain[i] in bodies && tx in bodies[chain[i]]) <==>
            (exists n :: t[base].number < n && InChain(t, genesis, bodies, top, tx, n))
  {
    if i :| 0 <= i < |chain| && chain[i] in bodies && tx in bodies[chain[i]] {
      assert InChain(t, genesis, bodies, top, tx, t[top].number - i);
    }
    if n :| t[base].number < n && InChain(t, genesis, bodies, top, tx, n) {
      var i := t[top].number - n;
      assert chain[i] == AncestorAt(t, genesis, top, n);
    }
  }

  /** Stepping a segment's base down to its parent. */
  lemma SegmentStep(t: Store, genesis: Hash, top: Hash, base: Hash, chain: seq<Hash>)
    requires ValidTree(t, genesis) && top in t && Segment(t, genesis, top, base, chain) && t[base].number > 0
    ensures t[base].parent in t && t[t[base].parent].number + 1 == t[base].number
    ensures Segment(t, genesis, top, t[base].parent, chain + [base])
  {
    AncestorParent(t, genesis, top, t[base].number);
  }

  /** Indexing a block and then dropping stale entries that are not reborn is the same as
      dropping the stale entries first. */
  lemma ReindexCommutes(lookup: Lookup, stale: set<Tx>, reborn: set<Tx>, txs: seq<Tx>, n: nat)
    ensures IndexTxs(lookup, txs, n) - (stale - (reborn + Elements(txs)))
         == IndexTxs(lookup - (stale - reborn), txs, n)
  {
  }
}
