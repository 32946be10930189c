/** The BLOCKHASH lookup closures (core/evm.go): a growing cache over the parent walk, and
    its variant for a block executed before the hash of its parent is known. */
module AncestorHash {
  import opened HeaderTree

  /** Headers are read by hash and number together. */
  predicate HasHeader(t: Store, h: Hash, n: nat) { h in t && t[h].number == n }

  /** The plain walk: starting at hash `p` of height `k`, the hash at height `n`, or the zero
      hash if a header on the way is missing. */
  function HashAt(t: Store, p: Hash, k: nat, n: nat): (h: Hash)
    requires n <= k
    decreases k
  {
    if n == k then p
    else if !HasHeader(t, p, k) then ZERO
    else HashAt(t, t[p].parent, k - 1, n)
  }

  /** What BLOCKHASH answers inside the block with header `ref`. */
  function BlockHash(t: Store, ref: Header, n: nat): (h: Hash) {
    if ref.number <= n then ZERO else HashAt(t, ref.parent, ref.number - 1, n)
  }

  /** In a parent-closed store that is the ancestor at the given height, for every height below the
      block, and the zero hash from the block's own height on. */
  lemma BlockHashIsAncestor(t: Store, genesis: Hash, ref: Header, n: nat)
    requires ValidTree(t, genesis) && ref.parent in t && t[ref.parent].number + 1 == ref.number
    ensures BlockHash(t, ref, n) == if n < ref.number then AncestorAt(t, genesis, ref.parent, n) else ZERO
  {
    if n < ref.number {
      WalkIsAncestor(t, genesis, ref.parent, n);
    }
  }

  lemma {:induction false} WalkIsAncestor(t: Store, genesis: Hash, p: Hash, n: nat)
    requires ValidTree(t, genesis) && p in t && n <= t[p].number
    ensures HashAt(t, p, t[p].number, n) == AncestorAt(t, genesis, p, n)
    decreases t[p].number
  {
    assert Linked(t, genesis, p);
    if n < t[p].number {
      WalkIsAncestor(t, genesis, t[p].parent, n);
    }
  }

  /** The walk can be cut at any stored header on it. */
  lemma {:induction false} WalkOn(t: Store, p: Hash, k: nat, m: nat, n: nat)
    requires n < m <= k
    requires Reaches(t, p, k, m)
    ensures var q := HashAt(t, p, k, m);
            HashAt(t, p, k, n) == if HasHeader(t, q, m) then HashAt(t, t[q].parent, m - 1, n) else ZERO
    decreases k
  {
    if m < k {
      WalkOn(t, t[p].parent, k - 1, m, n);
    }
  }

  /** Every header strictly above height `m` on the walk from `p` is stored. */
  predicate Reaches(t: Store, p: Hash, k: nat, m: nat)
    requires m <= k
    decreases k
  {
    m < k ==> HasHeader(t, p, k) && Reaches(t, t[p].parent, k - 1, m)
  }

  lemma {:induction false} ReachStep(t: Store, p: Hash, k: nat, m: nat)
    requires 0 < m <= k && Reaches(t, p, k, m) && HasHeader(t, HashAt(t, p, k, m), m)
    ensures Reaches(t, p, k, m - 1)
    ensures HashAt(t, p, k, m - 1) == t[HashAt(t, p, k, m)].parent
    decreases k
  {
    if m < k {
      ReachStep(t, t[p].parent, k - 1, m);
    }
  }

  /** A store that grows keeps every answer already found. */
  lemma {:induction false} ReachStable(t: Store, t': Store, p: Hash, k: nat, m: nat)
    requires m <= k && Extends(t, t') && Reaches(t, p, k, m)
    ensures Reaches(t', p, k, m) && HashAt(t', p, k, m) == HashAt(t, p, k, m)
    decreases k
  {
    if m < k {
      ReachStable(t, t', t[p].parent, k - 1, m);
    }
  }

  /** Hash `h` is the ancestor of `ref` at height ref.number - 1 - i, and the walk to it is stored. */
  ghost predicate Known(t: Store, ref: Header, i: nat, h: Hash)
    requires i < ref.number
  {
    var n := ref.number - 1 - i;
    Reaches(t, ref.parent, ref.number - 1, n) && h == HashAt(t, ref.parent, ref.number - 1, n)
  }

  /** One more step of the walk extends what is known by one ancestor. */
  lemma KnownStep(t: Store, ref: Header, i: nat, h: Hash)
    requires i + 1 < ref.number && Known(t, ref, i, h) && HasHeader(t, h, ref.number - 1 - i)
    ensures Known(t, ref, i + 1, t[h].parent)
  {
    ReachStep(t, ref.parent, ref.number - 1, ref.number - 1 - i);
  }

  /** The closure returned by GetHashFn: it remembers the ancestors it has walked past. */
  class HashLookup {
    const ref: Header
    var cache: seq<Hash>
    ghost var seen: Store

    /** Entry `i` of the cache is the ancestor at height ref.number - 1 - i, found in the stores
        seen so far. */
    ghost predicate Valid()
      reads this
    {
      && |cache| <= ref.number
      && forall i {:trigger Known(seen, ref, i, cache[i])} :: 0 <= i < |cache| ==> Known(seen, ref, i, cache[i])
    }

    constructor (ref: Header)
      ensures Valid() && seen == map[] && this.ref == ref
    {
      this.ref := ref;
      cache := [];
      seen := map[];
    }

    /** Answers one query against the current header store, which may have grown since the
        previous query. The cache never changes the answer. */
    method Query(t: Store, n: nat) returns (h: Hash)
      requires Valid() && Extends(seen, t)
      modifies this
      ensures Valid() && seen == t
      ensures h == BlockHash(t, ref, n)
      ensures old(cache) <= cache
    {
      forall i | 0 <= i < |cache|
        ensures Known(t, ref, i, cache[i])
      {
        assert Known(seen, ref, i, cache[i]);
        ReachStable(seen, t, ref.parent, ref.number - 1, ref.number - 1 - i);
      }
      seen := t;
      if ref.number <= n {
        return ZERO;
      }
      if |cache| == 0 {
        cache := [ref.parent];
      }
      var idx := ref.number - n - 1;
      if idx < |cache| {
        assert Known(t, ref, idx, cache[idx]);
        return cache[idx];
      }
      var lastHash: Hash, lastNumber: nat := cache[|cache| - 1], ref.number - |cache|;
      while HasHeader(t, lastHash, lastNumber)
        invariant Valid() && seen == t && old(cache) <= cache && 0 < |cache|
        invariant n < lastNumber == ref.number - |cache| && lastHash == cache[|cache| - 1]
        decreases lastNumber
      {
        assert Known(t, ref, |cache| - 1, cache[|cache| - 1]);
        KnownStep(t, ref, |cache| - 1, lastHash);
        var header := t[lastHash];
        cache := cache + [header.parent];
        lastHash, lastNumber := header.parent, header.number - 1;
        if n == lastNumber {
          return lastHash;
        }
      }
      assert Known(t, ref, |cache| - 1, cache[|cache| - 1]);
      WalkOn(t, ref.parent, ref.number - 1, lastNumber, n);
      h := ZERO;
    }
  }

  /** What the speculative lookup answers in block `pending` + 1, given the header of block
      `pending` - 1 and the hash of the pending block. */
  function SpeculativeHash(t: Store, prev: Header, pending: nat, pendingHash: Hash, n: nat): (h: Hash) {
    if n >= pending + 1 then ZERO
    else if n == pending then pendingHash
    else if n + 1 == pending then prev.hash
    else BlockHash(t, prev, n)
  }

  /** Once the pending block is stored, the ordinary lookup of its child gives the same answers. */
  lemma SpeculativeAgrees(t: Store, prev: Header, x: Header, child: Header, n: nat)
    requires prev.hash in t && t[prev.hash] == prev
    requires x.hash !in t && x.parent == prev.hash && x.number == prev.number + 1
    requires child.parent == x.hash && child.number == x.number + 1
    ensures SpeculativeHash(t, prev, x.number, x.hash, n) == BlockHash(t[x.hash := x], child, n)
  {
    var t' := t[x.hash := x];
    if n + 1 < x.number {
      NotOnWalk(t, x, prev.parent, prev.number - 1, n);
      assert HashAt(t', x.hash, x.number, n) == HashAt(t', prev.hash, prev.number, n);
    } else if n == prev.number {
      assert HashAt(t', prev.hash, prev.number, n) == prev.hash;
    }
  }

  /** A walk that starts below a header's height never uses that header. */
  lemma {:induction false} NotOnWalk(t: Store, x: Header, p: Hash, k: nat, n: nat)
    requires n <= k < x.number && x.hash !in t
    ensures HashAt(t[x.hash := x], p, k, n) == HashAt(t, p, k, n)
    decreases k
  {
    if n < k && HasHeader(t, p, k) {
      NotOnWalk(t, x, t[p].parent, k - 1, n);
    }
  }

  /** The closure returned by SpeculativeGetHashFn. `srcDone` blocks until the state root of the
      pending block is known and returns that block's hash. */
  class SpeculativeLookup {
    const prev: Header
    const pending: nat
    const older: HashLookup
    var resolved: bool
    var resolvedHash: Hash
    var accessed: bool
    ghost var calls: nat

    ghost predicate Valid()
      reads this, older
    {
      && older.Valid() && older.ref == prev
      && calls == (if resolved then 1 else 0)
    }

    constructor (prev: Header)
      ensures Valid() && calls == 0 && !accessed && fresh(older) && older.seen == map[]
      ensures this.prev == prev && pending == prev.number + 1
    {
      this.prev := prev;
      pending := prev.number + 1;
      older := new HashLookup(prev);
      resolved, resolvedHash, accessed, calls := false, ZERO, false, 0;
    }

    /** Answers one query; the hash of the pending block is asked for at most once in the life
        of the closure, and every use of it is flagged. */
    method Query(t: Store, n: nat, srcDone: () -> Hash) returns (h: Hash)
      requires Valid() && Extends(older.seen, t)
      requires pending == prev.number + 1 && (resolved ==> resolvedHash == srcDone())
      modifies this, older
      ensures Valid() && calls <= 1 && (resolved ==> resolvedHash == srcDone())
      ensures older.seen == t || older.seen == old(older.seen)
      ensures h == SpeculativeHash(t, prev, pending, srcDone(), n)
      ensures accessed == (old(accessed) || n == pending)
    {
      if n >= pending + 1 {
        return ZERO;
      } else if n == pending {
        accessed := true;
        if !resolved {
          resolvedHash := srcDone();
          resolved := true;
          calls := calls + 1;
        }
        return resolvedHash;
      } else if n == pending - 1 {
        return prev.hash;
      }
      h := older.Query(t, n);
    }
  }
}
