/** The block headers of a node form a tree rooted at the genesis header: every
    header names its parent by hash, and numbers count the distance from the root.
    Everything the node calls "canonical" is one path of this tree. */
module HeaderTree {
  import opened Wrappers

  /** A 32-byte hash read as a big-endian number, so that the byte-wise comparison
      of two hashes is the comparison of two numbers. */
  type Hash = nat

  /** An account state, keyed by account or slot. */
  type World = map<nat, nat>

  /** A state root. Roots are collision-free: the root of a world determines it. A header may
      also claim a root that belongs to no world. */
  datatype Root = Of(world: World) | Foreign(id: nat)

  /** The all-zero hash: what a missing database entry reads as. */
  const ZERO: Hash := 0

  /** What executing a block gives, apart from the state root; a header claims such a result. */
  datatype ProcessResult = ProcessResult(gasUsed: nat, bloom: nat, receiptHash: Hash, requestsHash: Option<Hash>)

  datatype Header = Header(hash: Hash, parent: Hash, number: nat, difficulty: nat, time: nat, root: Root,
                           claims: ProcessResult)

  type Store = map<Hash, Header>
  type Index = map<nat, Hash>

  /** Header `h` is stored under its own hash and its parent is stored one level below it. */
  predicate Linked(t: Store, genesis: Hash, h: Hash)
    requires h in t
  {
    && t[h].hash == h
    && h != ZERO
    && (h == genesis ==> t[h].number == 0 && t[h].parent == ZERO)
    && (h != genesis ==>
          && t[h].number > 0
          && t[h].parent in t
          && t[t[h].parent].number + 1 == t[h].number)
  }

  predicate ValidTree(t: Store, genesis: Hash) {
    && genesis in t
    && forall h {:trigger Linked(t, genesis, h)} :: h in t ==> Linked(t, genesis, h)
  }

  /** The ancestor of `h` at height `n`, found by walking parent links one at a time. */
  function AncestorAt(t: Store, genesis: Hash, h: Hash, n: nat): (a: Hash)
    requires ValidTree(t, genesis) && h in t && n <= t[h].number
    ensures a in t && t[a].number == n && t[a].hash == a
    ensures n == t[h].number ==> a == h
    decreases t[h].number
  {
    assert Linked(t, genesis, h);
    if t[h].number == n then h else AncestorAt(t, genesis, t[h].parent, n)
  }

  /** The number-to-hash index of the chain that ends in `h`. */
  function PathOf(t: Store, genesis: Hash, h: Hash): (p: Index)
    requires ValidTree(t, genesis) && h in t
  {
    map n: nat | 0 <= n <= t[h].number :: AncestorAt(t, genesis, h, n)
  }

  predicate IsAncestor(t: Store, genesis: Hash, a: Hash, h: Hash)
    requires ValidTree(t, genesis) && h in t && a in t
  {
    t[a].number <= t[h].number && AncestorAt(t, genesis, h, t[a].number) == a
  }

  /** The store `t'` holds everything that `t` holds. */
  predicate Extends(t: Store, t': Store) {
    forall x :: x in t ==> x in t' && t'[x] == t[x]
  }

  /** Height zero holds only the genesis header. */
  lemma OnlyGenesisAtZero(t: Store, genesis: Hash, h: Hash)
    requires ValidTree(t, genesis) && h in t && t[h].number == 0
    ensures h == genesis
  {
    assert Linked(t, genesis, h);
  }

  /** An ancestor of an ancestor is an ancestor. */
  lemma {:induction false} AncestorTrans(t: Store, genesis: Hash, h: Hash, n: nat, m: nat)
    requires ValidTree(t, genesis) && h in t && m <= n <= t[h].number
    ensures AncestorAt(t, genesis, AncestorAt(t, genesis, h, n), m) == AncestorAt(t, genesis, h, m)
    decreases t[h].number
  {
    assert Linked(t, genesis, h);
    if t[h].number != n {
      AncestorTrans(t, genesis, t[h].parent, n, m);
    }
  }

  /** Consecutive ancestors are parent and child. */
  lemma AncestorParent(t: Store, genesis: Hash, h: Hash, n: nat)
    requires ValidTree(t, genesis) && h in t && 0 < n <= t[h].number
    ensures t[AncestorAt(t, genesis, h, n)].parent == AncestorAt(t, genesis, h, n - 1)
  {
    var a := AncestorAt(t, genesis, h, n);
    assert Linked(t, genesis, a);
    assert Linked(t, genesis, genesis);
    AncestorTrans(t, genesis, h, n, n - 1);
  }

  /** Chains that meet at one height agree on every lower height. */
  lemma AncestorsMerge(t: Store, genesis: Hash, a: Hash, b: Hash, n: nat, m: nat)
    requires ValidTree(t, genesis) && a in t && b in t
    requires m <= n <= t[a].number && n <= t[b].number
    requires AncestorAt(t, genesis, a, n) == AncestorAt(t, genesis, b, n)
    ensures AncestorAt(t, genesis, a, m) == AncestorAt(t, genesis, b, m)
  {
    AncestorTrans(t, genesis, a, n, m);
    AncestorTrans(t, genesis, b, n, m);
  }

  /** Adding headers to a valid tree never changes an existing ancestor. */
  lemma {:induction false} AncestorStable(t: Store, t': Store, genesis: Hash, h: Hash, n: nat)
    requires ValidTree(t, genesis) && ValidTree(t', genesis)
    requires Extends(t, t')
    requires h in t && n <= t[h].number
    ensures AncestorAt(t', genesis, h, n) == AncestorAt(t, genesis, h, n)
    decreases t[h].number
  {
    assert Linked(t, genesis, h);
    if t[h].number != n {
      AncestorStable(t, t', genesis, t[h].parent, n);
    }
  }

  lemma PathStable(t: Store, t': Store, genesis: Hash, h: Hash)
    requires ValidTree(t, genesis) && ValidTree(t', genesis)
    requires Extends(t, t')
    requires h in t
    ensures PathOf(t', genesis, h) == PathOf(t, genesis, h)
  {
    forall n: nat | n <= t[h].number
      ensures AncestorAt(t', genesis, h, n) == AncestorAt(t, genesis, h, n)
    {
      AncestorStable(t, t', genesis, h, n);
    }
  }

  /** The index of a child is the index of its parent with one more entry. */
  lemma PathExtend(t: Store, genesis: Hash, h: Hash)
    requires ValidTree(t, genesis) && h in t && h != genesis
    ensures t[h].parent in t && t[t[h].parent].number + 1 == t[h].number
    ensures PathOf(t, genesis, h) == PathOf(t, genesis, t[h].parent)[t[h].number := h]
  {
    assert Linked(t, genesis, h);
  }

  /** Storing a header whose parent is stored keeps the tree valid. */
  lemma TreeGrows(t: Store, genesis: Hash, x: Header)
    requires ValidTree(t, genesis)
    requires x.hash != ZERO && x.hash !in t
    requires x.parent in t && t[x.parent].number + 1 == x.number
    ensures ValidTree(t[x.hash := x], genesis)
  {
    var t' := t[x.hash := x];
    forall h | h in t'
      ensures Linked(t', genesis, h)
    {
      if h != x.hash {
        assert Linked(t, genesis, h);
      }
    }
  }

  /** Total difficulty: the sum of the difficulties of a header and all its ancestors. */
  function TotalDifficulty(t: Store, genesis: Hash, h: Hash): (d: nat)
    requires ValidTree(t, genesis) && h in t
    decreases t[h].number
  {
    assert Linked(t, genesis, h);
    if h == genesis then t[h].difficulty
    else TotalDifficulty(t, genesis, t[h].parent) + t[h].difficulty
  }

  /** Total difficulty depends on ancestry alone, so a growing store never changes it. */
  lemma {:induction false} TotalDifficultyStable(t: Store, t': Store, genesis: Hash, h: Hash)
    requires ValidTree(t, genesis) && ValidTree(t', genesis)
    requires Extends(t, t')
    requires h in t
    ensures TotalDifficulty(t', genesis, h) == TotalDifficulty(t, genesis, h)
    decreases t[h].number
  {
    assert Linked(t, genesis, h);
    if h != genesis {
      TotalDifficultyStable(t, t', genesis, t[h].parent);
    }
  }

  /** The stored difficulties are the total difficulties of the stored headers, and no others. */
  predicate DifficultiesOf(t: Store, genesis: Hash, td: map<Hash, nat>)
    requires ValidTree(t, genesis)
  {
    && td.Keys == t.Keys
    && forall h {:trigger td[h]} :: h in t ==> td[h] == TotalDifficulty(t, genesis, h)
  }

  /** Storing a header with its parent's difficulty plus its own keeps the difficulties exact. */
  lemma DifficultiesGrow(t: Store, genesis: Hash, td: map<Hash, nat>, x: Header)
    requires ValidTree(t, genesis) && DifficultiesOf(t, genesis, td)
    requires x.hash != ZERO && x.hash !in t
    requires x.parent in t && t[x.parent].number + 1 == x.number
    ensures ValidTree(t[x.hash := x], genesis)
    ensures DifficultiesOf(t[x.hash := x], genesis, td[x.hash := td[x.parent] + x.difficulty])
  {
    TreeGrows(t, genesis, x);
    var t' := t[x.hash := x];
    forall h | h in t {
      TotalDifficultyStable(t, t', genesis, h);
    }
  }

  /** The headers at or below height `k`, on every fork. */
  function Below(t: Store, k: nat): (r: Store) {
    map h | h in t && t[h].number <= k :: t[h]
  }

  /** Cutting every fork at one height leaves a valid tree in which nothing below changed. */
  lemma CutTree(t: Store, genesis: Hash, k: nat)
    requires ValidTree(t, genesis)
    ensures ValidTree(Below(t, k), genesis)
    ensures forall h :: h in Below(t, k) ==> h in t && t[h] == Below(t, k)[h]
  {
    var t' := Below(t, k);
    assert Linked(t, genesis, genesis);
    forall h | h in t'
      ensures Linked(t', genesis, h)
    {
      assert Linked(t, genesis, h);
    }
  }

  /** A chain of headers, each the parent of the next, told apart by their hashes. */
  predicate Contiguous(hs: seq<Header>) {
    && (forall i :: 0 <= i < |hs| ==> hs[i].hash != ZERO)
    && (forall i :: 0 < i < |hs| ==> hs[i].parent == hs[i - 1].hash && hs[i].number == hs[i - 1].number + 1)
    && (forall i, j :: 0 <= i < j < |hs| ==> hs[i].hash != hs[j].hash)
  }

  lemma {:induction false} ContiguousNumbers(hs: seq<Header>, i: nat)
    requires Contiguous(hs) && i < |hs|
    ensures hs[i].number == hs[0].number + i
  {
    if i > 0 {
      ContiguousNumbers(hs, i - 1);
    }
  }

  /** The store after writing the headers of `hs` in order. */
  function StoreAll(t: Store, hs: seq<Header>): (t': Store) {
    if hs == [] then t
    else StoreAll(t, hs[..|hs| - 1])[hs[|hs| - 1].hash := hs[|hs| - 1]]
  }

  /** Writing a segment touches only the hashes of the segment. */
  lemma {:induction false} StoreAllElsewhere(t: Store, hs: seq<Header>, x: Hash)
    requires forall i :: 0 <= i < |hs| ==> hs[i].hash != x
    ensures x in StoreAll(t, hs) <==> x in t
    ensures x in t ==> StoreAll(t, hs)[x] == t[x]
  {
    if hs != [] {
      StoreAllElsewhere(t, hs[..|hs| - 1], x);
    }
  }

  /** Writing a segment with distinct hashes stores every header of it. */
  lemma {:induction false} StoreAllHolds(t: Store, hs: seq<Header>, i: nat)
    requires i < |hs|
    requires forall a, b :: 0 <= a < b < |hs| ==> hs[a].hash != hs[b].hash
    ensures hs[i].hash in StoreAll(t, hs) && StoreAll(t, hs)[hs[i].hash] == hs[i]
  {
    if i < |hs| - 1 {
      StoreAllHolds(t, hs[..|hs| - 1], i);
    }
  }

  /** All hashes stored at one height, on every fork. */
  function AllHashes(t: Store, n: nat): (s: set<Hash>) {
    set h | h in t && t[h].number == n
  }

  /** Below any stored header every height is occupied. */
  lemma OccupiedBelow(t: Store, genesis: Hash, h: Hash, n: nat)
    requires ValidTree(t, genesis) && h in t && n <= t[h].number
    ensures AllHashes(t, n) != {}
  {
    assert AncestorAt(t, genesis, h, n) in AllHashes(t, n);
  }

  /** Heights have no gaps: nothing is stored above an empty height. */
  lemma HeightsHaveNoGaps(t: Store, genesis: Hash, n: nat)
    requires ValidTree(t, genesis) && AllHashes(t, n) == {}
    ensures forall h :: h in t ==> t[h].number < n
  {
    forall h | h in t
      ensures t[h].number < n
    {
      if n <= t[h].number {
        OccupiedBelow(t, genesis, h, n);
      }
    }
  }
}
