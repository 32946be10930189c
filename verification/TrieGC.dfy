/** Reference counting of recent state tries (core/blockchain.go): every written root is
    referenced and queued; roots that fall out of the retention window are dereferenced. */
module TrieGC {
  import opened HeaderTree

  /** A queued trie: its root and the number of the block that produced it. */
  datatype Entry = Entry(root: Hash, number: nat)

  /** A priority queue as the list of its entries in the order they are popped. */
  predicate Ordered(q: seq<Entry>) {
    forall i, j :: 0 <= i < j < |q| ==> q[i].number <= q[j].number
  }

  /** The number of references held on each root. */
  type Refs = map<Hash, nat>

  function Count(refs: Refs, root: Hash): (n: nat) { if root in refs then refs[root] else 0 }

  function Reference(refs: Refs, root: Hash): (refs': Refs) { refs[root := Count(refs, root) + 1] }

  /** Dropping a reference that is not held has no effect. */
  function Dereference(refs: Refs, root: Hash): (refs': Refs) {
    if Count(refs, root) == 0 then refs else refs[root := Count(refs, root) - 1]
  }

  /** How often a root is queued. */
  function Occurs(q: seq<Entry>, root: Hash): (n: nat) {
    if q == [] then 0
    else Occurs(q[..|q| - 1], root) + if q[|q| - 1].root == root then 1 else 0
  }

  lemma {:induction false} OccursConcat(a: seq<Entry>, b: seq<Entry>, root: Hash)
    ensures Occurs(a + b, root) == Occurs(a, root) + Occurs(b, root)
  {
    if b == [] {
      assert a + b == a;
    } else {
      assert (a + b)[..|a + b| - 1] == a + b[..|b| - 1];
      OccursConcat(a, b[..|b| - 1], root);
    }
  }

  /** Queue `q'` is what a collection at height `chosen` leaves of `q`, and `gone` what it
      releases, lowest first. */
  ghost predicate CollectedAt(q: seq<Entry>, gone: seq<Entry>, q': seq<Entry>, chosen: nat) {
    && q == gone + q'
    && (forall i :: 0 <= i < |gone| ==> gone[i].number <= chosen)
    && (forall i :: 0 <= i < |q'| ==> q'[i].number > chosen)
  }

  /** The outcome of a collection is determined by the queue and the height, so both write
      paths release the same roots. */
  lemma CollectionDetermined(q: seq<Entry>, a: seq<Entry>, a': seq<Entry>, b: seq<Entry>, b': seq<Entry>, chosen: nat)
    requires CollectedAt(q, a, a', chosen) && CollectedAt(q, b, b', chosen)
    ensures a == b && a' == b'
  {
    SplitPoint(q, a, a', b, b', chosen);
    SplitPoint(q, b, b', a, a', chosen);
    assert a == q[..|a|] && b == q[..|b|] && a' == q[|a|..] && b' == q[|b|..];
  }

  lemma SplitPoint(q: seq<Entry>, a: seq<Entry>, a': seq<Entry>, b: seq<Entry>, b': seq<Entry>, chosen: nat)
    requires CollectedAt(q, a, a', chosen) && CollectedAt(q, b, b', chosen)
    ensures |a| >= |b|
  {
    assert |a| < |q| ==> q[|a|] == a'[0];
    assert forall i :: 0 <= i < |b| ==> q[i] == b[i];
  }

  function Minus(a: nat, b: nat): (r: nat) { if a >= b then a - b else 0 }

  /** References `refs'` are what is left when one is dropped for every entry. */
  ghost predicate Drops(refs: Refs, gone: seq<Entry>, refs': Refs) {
    forall r {:trigger Count(refs', r)} :: Count(refs', r) == Minus(Count(refs, r), Occurs(gone, r))
  }

  /** The collection loop: pops from the front until the first entry above `chosen`, dropping
      one reference for each. */
  method PopUpTo(queue: seq<Entry>, refs: Refs, chosen: nat) returns (k: nat, refs': Refs)
    requires Ordered(queue)
    ensures k <= |queue| && CollectedAt(queue, queue[..k], queue[k..], chosen)
    ensures Drops(refs, queue[..k], refs')
  {
    k, refs' := 0, refs;
    while k < |queue| && queue[k].number <= chosen
      invariant 0 <= k <= |queue| && Drops(refs, queue[..k], refs')
      invariant forall i :: 0 <= i < k ==> queue[i].number <= chosen
    {
      DropsOne(refs, queue, k, refs');
      refs' := Dereference(refs', queue[k].root);
      k := k + 1;
    }
    CutAt(queue, k, chosen);
  }

  lemma DropsOne(refs: Refs, q: seq<Entry>, k: nat, refs': Refs)
    requires k < |q| && Drops(refs, q[..k], refs')
    ensures Drops(refs, q[..k + 1], Dereference(refs', q[k].root))
  {
    assert q[..k + 1][..k] == q[..k];
    forall r
      ensures Count(Dereference(refs', q[k].root), r) == Minus(Count(refs, r), Occurs(q[..k + 1], r))
    {
      assert Count(refs', r) == Minus(Count(refs, r), Occurs(q[..k], r));
    }
  }

  lemma CutAt(q: seq<Entry>, k: nat, chosen: nat)
    requires k <= |q| && Ordered(q) && (k < |q| ==> q[k].number > chosen)
    requires forall i :: 0 <= i < k ==> q[i].number <= chosen
    ensures CollectedAt(q, q[..k], q[k..], chosen)
  {
    assert q == q[..k] + q[k..];
  }

  /** References that are held for a queue are held for what a collection leaves of it. */
  lemma DropsHeld(refs: Refs, q: seq<Entry>, k: nat, refs': Refs)
    requires k <= |q| && Drops(refs, q[..k], refs')
    ensures Held(refs, q) ==> Held(refs', q[k..])
  {
    assert q == q[..k] + q[k..];
    if Held(refs, q) {
      forall r
        ensures Count(refs', r) == Occurs(q[k..], r)
      {
        OccursConcat(q[..k], q[k..], r);
        assert Count(refs, r) == Occurs(q, r);
      }
    }
  }

  /** Moving a prefix of the queue to the released entries loses and repeats nothing. */
  lemma MoveCounts(written: multiset<Entry>, q: seq<Entry>, k: nat, r: seq<Entry>)
    requires k <= |q| && Balanced(written, q, r)
    ensures Balanced(written, q[k..], r + q[..k])
  {
    assert q == q[..k] + q[k..];
  }

  /** Every entry written is either queued or released, as often as it was written. */
  ghost predicate Balanced(written: multiset<Entry>, queue: seq<Entry>, released: seq<Entry>) {
    written == multiset(queue) + multiset(released)
  }

  /** One reference is held for every queued root. */
  ghost predicate Held(refs: Refs, queue: seq<Entry>) {
    forall r {:trigger Count(refs, r)} :: Count(refs, r) == Occurs(queue, r)
  }

  ghost predicate AllBelow(released: seq<Entry>, window: nat, highest: nat) {
    forall i :: 0 <= i < |released| ==> released[i].number + window <= highest
  }

  /** Where the queue places an entry of the given height. */
  method Position(queue: seq<Entry>, number: nat) returns (p: nat)
    ensures p <= |queue| && (p < |queue| ==> queue[p].number > number)
    ensures forall i :: 0 <= i < p ==> queue[i].number <= number
  {
    p := 0;
    while p < |queue| && queue[p].number <= number
      invariant 0 <= p <= |queue|
      invariant forall i :: 0 <= i < p ==> queue[i].number <= number
    {
      p := p + 1;
    }
  }

  /** References a root and queues it behind every entry that is not higher. */
  method Enqueue(queue: seq<Entry>, refs: Refs, root: Hash, number: nat)
    returns (queue': seq<Entry>, refs': Refs)
    requires Ordered(queue)
    ensures Ordered(queue') && Queued(queue, queue', Entry(root, number)) && refs' == Reference(refs, root)
    ensures Held(refs, queue) ==> Held(refs', queue')
    ensures multiset(queue') == multiset(queue) + multiset{Entry(root, number)}
  {
    var p := Position(queue, number);
    queue', refs' := InsertAt(queue, p, Entry(root, number)), Reference(refs, root);
    QueuedCounts(queue, p, Entry(root, number));
    QueuedHeld(refs, queue, p, Entry(root, number));
    Inserted(queue, p, Entry(root, number), queue');
  }

  class Collector {
    const triesInMemory: nat
    const archive: bool
    const pathScheme: bool
    var queue: seq<Entry>
    var refs: Refs
    ghost var written: multiset<Entry>
    ghost var released: seq<Entry>
    ghost var highest: nat

    /** Every root written is either still queued or was released, once, and not before a block high
        enough above it was written. */
    ghost predicate Sound()
      reads this
    {
      && Ordered(queue)
      && Balanced(written, queue, released)
      && AllBelow(released, triesInMemory, highest)
    }

    /** And one reference is held for every queued root. */
    ghost predicate Valid()
      reads this
    {
      Sound() && Held(refs, queue)
    }

    constructor (triesInMemory: nat, archive: bool, pathScheme: bool)
      ensures Valid() && written == multiset{} && queue == [] && released == []
      ensures this.triesInMemory == triesInMemory && this.archive == archive && this.pathScheme == pathScheme
    {
      this.triesInMemory, this.archive, this.pathScheme := triesInMemory, archive, pathScheme;
      queue, refs, written, released, highest := [], map[], multiset{}, [], 0;
    }

    /** References a freshly written root and queues it. */
    method Retain(root: Hash, number: nat)
      requires Sound()
      modifies this
      ensures Sound() && (old(Valid()) ==> Valid()) && released == old(released)
      ensures written == old(written) + multiset{Entry(root, number)}
      ensures highest == if number > old(highest) then number else old(highest)
      ensures Queued(old(queue), queue, Entry(root, number)) && refs == Reference(old(refs), root)
    {
      ghost var e := Entry(root, number);
      var q', refs' := Enqueue(queue, refs, root, number);
      BalanceStep(written, queue, q', released, e);
      Install(q', refs', e);
    }

    /** Replaces the queue by one with entry `e` added. */
    method Install(q': seq<Entry>, refs': Refs, ghost e: Entry)
      requires Sound() && Ordered(q') && Balanced(written + multiset{e}, q', released)
      modifies this
      ensures Sound() && queue == q' && refs == refs' && released == old(released)
      ensures written == old(written) + multiset{e}
      ensures highest == if e.number > old(highest) then e.number else old(highest)
    {
      queue, refs, written := q', refs', written + multiset{e};
      highest := if e.number > highest then e.number else highest;
    }

    /** Releases every queued root at or below `chosen`, lowest first. */
    method DereferenceUpTo(chosen: nat)
      requires Sound() && chosen + triesInMemory <= highest
      modifies this`queue, this`refs, this`released
      ensures Sound() && (old(Valid()) ==> Valid()) && old(released) <= released
      ensures CollectedAt(old(queue), released[|old(released)|..], queue, chosen)
      ensures Drops(old(refs), released[|old(released)|..], refs)
    {
      var k, held := PopUpTo(queue, refs, chosen);
      DropsHeld(refs, queue, k, held);
      Release(k, held, chosen);
    }

    /** Takes the popped entries off the queue. */
    method Release(k: nat, held: Refs, chosen: nat)
      requires Sound() && chosen + triesInMemory <= highest
      requires k <= |queue| && CollectedAt(queue, queue[..k], queue[k..], chosen)
      requires Drops(refs, queue[..k], held) && (Held(refs, queue) ==> Held(held, queue[k..]))
      modifies this`queue, this`refs, this`released
      ensures Sound() && (old(Valid()) ==> Valid())
      ensures released == old(released) + old(queue)[..k] && queue == old(queue)[k..] && refs == held
      ensures released[|old(released)|..] == old(queue)[..k]
    {
      MoveCounts(written, queue, k, released);
      assert (released + queue[..k])[|released|..] == queue[..k];
      refs := held;
      released := released + queue[..k];
      queue := queue[k..];
    }

    /** The rollback of a rejected block gives up a reference to the root the block computed, for
        which none was taken. The references stay in balance exactly if that root is not queued. */
    method ReleaseRejected(root: Hash)
      requires Valid()
      modifies this`refs
      ensures Sound() && refs == if pathScheme then old(refs) else Dereference(old(refs), root)
      ensures Valid() <==> pathScheme || Occurs(queue, root) == 0
    {
      ReleaseBalance(refs, queue, root);
      if !pathScheme {
        refs := Dereference(refs, root);
      }
    }

    /** The end of writing a block with its state. */
    method AfterWrite(root: Hash, number: nat)
      requires Sound()
      modifies this
      ensures Sound() && (old(Valid()) ==> Valid())
      ensures if pathScheme || archive then queue == old(queue) && written == old(written) && released == old(released)
              else written == old(written) + multiset{Entry(root, number)} &&
                   Collected(old(queue), old(released), queue, released, Entry(root, number), triesInMemory)
      ensures if pathScheme || archive then refs == old(refs)
              else Drops(Reference(old(refs), root), released[|old(released)|..], refs)
    {
      if pathScheme || archive {
        return;
      }
      Retain(root, number);
      if number <= triesInMemory {
        return;
      }
      ghost var mid := queue;
      var chosen := number - triesInMemory;
      var k, held := PopUpTo(queue, refs, chosen);
      DropsHeld(refs, queue, k, held);
      Release(k, held, chosen);
      CollectedIntro(old(queue), old(released), mid, queue, released, Entry(root, number), triesInMemory);
    }

    /** The same, after a pipelined import has verified the root of a block. */
    method HandleImport(root: Hash, number: nat)
      requires Sound()
      modifies this
      ensures Sound() && (old(Valid()) ==> Valid())
      ensures if pathScheme || archive then queue == old(queue) && written == old(written) && released == old(released)
              else written == old(written) + multiset{Entry(root, number)} &&
                   Collected(old(queue), old(released), queue, released, Entry(root, number), triesInMemory)
      ensures if pathScheme || archive then refs == old(refs)
              else Drops(Reference(old(refs), root), released[|old(released)|..], refs)
    {
      if pathScheme || archive {
        return;
      }
      Retain(root, number);
      if number <= triesInMemory {
        return;
      }
      ghost var mid := queue;
      DereferenceUpTo(number - triesInMemory);
      CollectedIntro(old(queue), old(released), mid, queue, released, Entry(root, number), triesInMemory);
    }
  }

  lemma ReleaseBalance(refs: Refs, queue: seq<Entry>, root: Hash)
    requires Held(refs, queue)
    ensures Held(Dereference(refs, root), queue) <==> Occurs(queue, root) == 0
  {
    assert Count(refs, root) == Occurs(queue, root);
    if Count(refs, root) > 0 {
      assert Count(Dereference(refs, root), root) != Occurs(queue, root);
    }
  }

  /** A run that breaks the balance: a root is retained, and then a block that computed it again is
      rejected. The root is still queued, inside the window, but nothing holds it. */
  method RejectedTakesReference(root: Hash, number: nat, triesInMemory: nat) returns (c: Collector)
    ensures !c.Valid() && c.queue == [Entry(root, number)] && Count(c.refs, root) == 0 && c.released == []
  {
    c := new Collector(triesInMemory, false, false);
    c.Retain(root, number);
    QueuedLast([], c.queue, Entry(root, number));
    c.ReleaseRejected(root);
  }

  /** What the reference given up too often leads to, if entries enter and leave the queue as usual
      from then on: each root but the released one keeps one reference per queued entry, and that one
      has one too few. So it is queued without a reference exactly while it is queued once. */
  lemma RejectedLeavesOneShort(refs: Refs, queue: seq<Entry>, root: Hash, k: nat, refs': Refs)
    requires Held(Reference(refs, root), queue) && k <= |queue| && Drops(refs, queue[..k], refs')
    ensures forall r :: r != root ==> Count(refs', r) == Occurs(queue[k..], r)
    ensures Count(refs', root) == Minus(Occurs(queue[k..], root), 1)
    ensures Occurs(queue[k..], root) > 0 && Count(refs', root) == 0 <==> Occurs(queue[k..], root) == 1
  {
    assert queue == queue[..k] + queue[k..];
    forall r
      ensures Count(refs', r) == Minus(Occurs(queue[k..], r), if r == root then 1 else 0)
    {
      OccursConcat(queue[..k], queue[k..], r);
      assert Count(Reference(refs, root), r) == Occurs(queue, r);
    }
  }

  /** A run in which that happens later: a root is retained at two heights, a block that computed it
      is rejected, and when the lower entry leaves the window the higher one is queued, inside the
      window, with no reference. */
  method RejectedTakesLater(root: Hash, other: Hash, number: nat, triesInMemory: nat) returns (c: Collector)
    requires root != other && triesInMemory > 1 && number > 0
    ensures c.triesInMemory == triesInMemory && c.Sound() && Count(c.refs, root) == 0
    ensures c.queue == [Entry(root, number + 1), Entry(other, number + triesInMemory)]
  {
    c := RejectedOnce(root, number, triesInMemory);
    ImportAbove(c, root, other, number);
  }

  /** The import that moves the window past the lower of the two entries. */
  method ImportAbove(c: Collector, root: Hash, other: Hash, number: nat)
    requires c.Sound() && c.triesInMemory > 1 && number > 0 && !c.archive && !c.pathScheme
    requires c.queue == [Entry(root, number), Entry(root, number + 1)] && c.released == []
    requires Count(c.refs, root) == 1 && root != other
    modifies c
    ensures c.Sound() && Count(c.refs, root) == 0
    ensures c.queue == [Entry(root, number + 1), Entry(other, number + c.triesInMemory)]
  {
    ghost var a, b, d := Entry(root, number), Entry(root, number + 1), Entry(other, number + c.triesInMemory);
    ghost var q, r := c.queue, c.released;
    c.HandleImport(other, number + c.triesInMemory);
    LowestLeaves(a, b, d, q, r, c.queue, c.released, c.triesInMemory);
    assert c.released[|r|..] == [a];
  }

  /** The root is retained at two heights, and then a block that computed it is rejected. */
  method RejectedOnce(root: Hash, number: nat, triesInMemory: nat) returns (c: Collector)
    ensures fresh(c) && c.Sound() && c.triesInMemory == triesInMemory && !c.archive && !c.pathScheme
    ensures c.queue == [Entry(root, number), Entry(root, number + 1)] && c.released == []
    ensures Count(c.refs, root) == 1
  {
    c := RetainedTwice(root, number, triesInMemory);
    c.ReleaseRejected(root);
  }

  method RetainedTwice(root: Hash, number: nat, triesInMemory: nat) returns (c: Collector)
    ensures fresh(c) && c.Valid() && c.triesInMemory == triesInMemory && !c.archive && !c.pathScheme
    ensures c.queue == [Entry(root, number), Entry(root, number + 1)] && c.released == []
    ensures Count(c.refs, root) == 2
  {
    ghost var a, b := Entry(root, number), Entry(root, number + 1);
    c := new Collector(triesInMemory, false, false);
    c.Retain(root, number);
    ghost var q := c.queue;
    QueuedLast([], q, a);
    c.Retain(root, number + 1);
    QueuedLast(q, c.queue, b);
  }

  /** A third entry that moves the window past the first of two pushes just that one out. */
  lemma LowestLeaves(a: Entry, b: Entry, d: Entry, q: seq<Entry>, r: seq<Entry>, q': seq<Entry>, r': seq<Entry>,
                     window: nat)
    requires a.number < b.number <= d.number && a.number == d.number - window && a.number > 0
    requires q == [a, b] && r == [] && Collected(q, r, q', r', d, window)
    ensures q' == [b, d] && r' == [a]
  {
    var mid :| Queued(q, mid, d) && CollectedAt(mid, r'[|r|..], q', d.number - window);
    QueuedLast(q, mid, d);
    assert mid == [a] + [b, d];
    CollectionDetermined(mid, r'[|r|..], q', [a], [b, d], a.number);
    assert r'[|r|..] == r';
  }

  /** An entry above all others goes last. */
  lemma QueuedLast(q: seq<Entry>, q': seq<Entry>, e: Entry)
    requires Queued(q, q', e) && forall i :: 0 <= i < |q| ==> q[i].number <= e.number
    ensures q' == q + [e]
  {
    var p: nat :| PlacedAt(q, q', e, p);
    PlaceBound(q, p, |q|, e);
  }

  /** What either write path does: after a collection every queued root is inside the window,
      and exactly the queued roots outside it have been released. */
  ghost predicate Collected(q: seq<Entry>, r: seq<Entry>, q': seq<Entry>, r': seq<Entry>, e: Entry, window: nat) {
    && r <= r'
    && (e.number <= window ==> Queued(q, q', e) && r' == r)
    && (e.number > window ==>
          exists mid :: Queued(q, mid, e) && CollectedAt(mid, r'[|r|..], q', e.number - window))
  }

  lemma CollectedIntro(q: seq<Entry>, r: seq<Entry>, mid: seq<Entry>, q': seq<Entry>, r': seq<Entry>, e: Entry,
                       window: nat)
    requires r <= r' && e.number > window && Queued(q, mid, e)
    requires CollectedAt(mid, r'[|r|..], q', e.number - window)
    ensures Collected(q, r, q', r', e, window)
  {
  }

  /** An entry has one place in an ordered queue. */
  lemma QueuedOnce(q: seq<Entry>, a: seq<Entry>, b: seq<Entry>, e: Entry)
    requires Queued(q, a, e) && Queued(q, b, e)
    ensures a == b
  {
    var i: nat :| PlacedAt(q, a, e, i);
    var j: nat :| PlacedAt(q, b, e, j);
    PlaceBound(q, i, j, e);
    PlaceBound(q, j, i, e);
  }

  lemma PlaceBound(q: seq<Entry>, i: nat, j: nat, e: Entry)
    requires i <= |q| && j <= |q| && PlaceOf(q, i, e) && PlaceOf(q, j, e)
    ensures i >= j
  {
    assert i < |q| ==> q[i].number > e.number;
    assert forall k :: 0 <= k < j ==> q[k].number <= e.number;
  }

  /** Both write paths release the same roots and leave the same queue. */
  lemma PathsAgree(q: seq<Entry>, r: seq<Entry>, a: seq<Entry>, ra: seq<Entry>, b: seq<Entry>, rb: seq<Entry>,
                   e: Entry, window: nat)
    requires Collected(q, r, a, ra, e, window) && Collected(q, r, b, rb, e, window)
    ensures a == b && ra == rb
  {
    if e.number <= window {
      QueuedOnce(q, a, b, e);
    } else {
      var m :| Queued(q, m, e) && CollectedAt(m, ra[|r|..], a, e.number - window);
      var n :| Queued(q, n, e) && CollectedAt(n, rb[|r|..], b, e.number - window);
      QueuedOnce(q, m, n, e);
      CollectionDetermined(m, ra[|r|..], a, rb[|r|..], b, e.number - window);
      assert ra == r + ra[|r|..] && rb == r + rb[|r|..];
    }
  }

  /** Queue `q'` is `q` with `e` behind every entry that is not higher. */
  ghost predicate Queued(q: seq<Entry>, q': seq<Entry>, e: Entry) {
    exists p: nat {:trigger PlacedAt(q, q', e, p)} :: PlacedAt(q, q', e, p)
  }

  predicate PlacedAt(q: seq<Entry>, q': seq<Entry>, e: Entry, p: nat) {
    p <= |q| && PlaceOf(q, p, e) && q' == InsertAt(q, p, e)
  }

  predicate PlaceOf(q: seq<Entry>, p: nat, e: Entry)
    requires p <= |q|
  {
    (forall i :: 0 <= i < p ==> q[i].number <= e.number) && (forall i :: p <= i < |q| ==> q[i].number > e.number)
  }

  function InsertAt(q: seq<Entry>, p: nat, e: Entry): (r: seq<Entry>)
    requires p <= |q|
  {
    q[..p] + [e] + q[p..]
  }

  /** Queueing an entry keeps the order. */
  lemma Inserted(q: seq<Entry>, p: nat, e: Entry, q': seq<Entry>)
    requires p <= |q| && Ordered(q) && q' == InsertAt(q, p, e)
    requires (forall i :: 0 <= i < p ==> q[i].number <= e.number) && (p < |q| ==> q[p].number > e.number)
    ensures Ordered(q') && Queued(q, q', e)
  {
    assert PlacedAt(q, q', e, p);
  }

  lemma BalanceStep(w: multiset<Entry>, q: seq<Entry>, q': seq<Entry>, r: seq<Entry>, e: Entry)
    requires Balanced(w, q, r) && multiset(q') == multiset(q) + multiset{e}
    ensures Balanced(w + multiset{e}, q', r)
  {
  }

  lemma QueuedCounts(q: seq<Entry>, p: nat, e: Entry)
    requires p <= |q|
    ensures multiset(InsertAt(q, p, e)) == multiset(q) + multiset{e}
  {
    assert q == q[..p] + q[p..];
  }

  /** A reference for the queued entry keeps one per entry. */
  lemma QueuedHeld(refs: Refs, q: seq<Entry>, p: nat, e: Entry)
    requires p <= |q|
    ensures Held(refs, q) ==> Held(Reference(refs, e.root), InsertAt(q, p, e))
  {
    if Held(refs, q) {
      forall r
        ensures Count(Reference(refs, e.root), r) == Occurs(InsertAt(q, p, e), r)
      {
        assert q == q[..p] + q[p..] && Count(refs, r) == Occurs(q, r);
        OccursConcat(q[..p], q[p..], r);
        OccursConcat(q[..p] + [e], q[p..], r);
        OccursConcat(q[..p], [e], r);
      }
    }
  }
}
