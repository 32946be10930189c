/** The header chain (core/headerchain.go): the header store, the total difficulties,
    the canonical number-to-hash index and the head header, updated in place. */
module HeaderChain {
  import opened Wrappers
  import opened HeaderTree
  import opened ForkChoice

  datatype WriteResult = Inserted(count: nat) | UnknownAncestor

  /** Called by SetHead with each block it moves the head down to. It may answer with the block it moved
      the other head markers to and a demand to rewind that far. */
  type UpdateFn = Option<Header -> (Header, bool)>

  datatype WriteStatus = NonStat | CanonStat | SideStat

  class Chain {
    const genesis: Hash
    var headers: Store
    var td: map<Hash, nat>
    var canon: Index
    var current: Hash

    /** The index is the ancestor path of the head, with no entry above it. */
    ghost predicate Valid()
      reads this
    {
      && ValidTree(headers, genesis)
      && DifficultiesOf(headers, genesis, td)
      && current in headers
      && canon == PathOf(headers, genesis, current)
    }

    constructor (g: Header)
      requires g.number == 0 && g.hash != ZERO && g.parent == ZERO
      ensures Valid() && genesis == current == g.hash && headers == map[g.hash := g]
    {
      genesis := g.hash;
      headers := map[g.hash := g];
      td := map[g.hash := g.difficulty];
      canon := map[0 := g.hash];
      current := g.hash;
      new;
      assert Linked(headers, genesis, genesis);
      assert canon == PathOf(headers, genesis, current);
    }

    /** A missing entry reads as the zero hash. */
    function ReadCanonical(n: nat): (h: Hash)
      reads this
    {
      if n in canon then canon[n] else ZERO
    }

    /** Stores a contiguous segment whose first parent is known. Because the store is
        closed under parents, the headers already known are a prefix of the segment. */
    method WriteHeaders(hs: seq<Header>) returns (r: WriteResult)
      requires Valid() && Contiguous(hs)
      requires forall i :: 0 <= i < |hs| ==> hs[i].hash != genesis
      requires forall i :: 0 <= i < |hs| && hs[i].hash in headers ==> headers[hs[i].hash] == hs[i]
      requires |hs| > 0 && hs[0].parent in headers ==> headers[hs[0].parent].number + 1 == hs[0].number
      modifies this`headers, this`td
      ensures Valid()
      ensures r.UnknownAncestor? <==> |hs| > 0 && hs[0].parent !in old(headers)
      ensures r.UnknownAncestor? ==> unchanged(this)
      ensures Extends(old(headers), headers)
      ensures headers == if r.Inserted? then StoreAll(old(headers), hs) else old(headers)
      ensures r.Inserted? ==> hs == [] || StoredSegment(headers, genesis, hs)
      ensures r.Inserted? ==> r.count <= |hs|
      ensures r.Inserted? ==> forall i :: 0 <= i < |hs| ==>
                (hs[i].hash in old(headers) <==> i < |hs| - r.count)
    {
      if |hs| == 0 {
        return Inserted(0);
      }
      if hs[0].parent !in td {
        return UnknownAncestor;
      }
      var newTd := td[hs[0].parent];
      var parentKnown := true;
      var inserted := 0;
      for i := 0 to |hs|
        invariant Written(old(headers), genesis, headers, td, hs, i, inserted)
        invariant newTd == td[Parent(hs, i)]
        invariant parentKnown <==> inserted == 0
      {
        var header := hs[i];
        newTd := newTd + header.difficulty;
        WriteStep(old(headers), genesis, headers, td, hs, i, inserted);
        var alreadyKnown := parentKnown && header.hash in headers;
        if !alreadyKnown {
          td := td[header.hash := newTd];
          headers := headers[header.hash := header];
          inserted := inserted + 1;
        }
        parentKnown := alreadyKnown;
      }
      assert hs[..|hs|] == hs;
      PathStable(old(headers), headers, genesis, current);
      SegmentStored(old(headers), genesis, headers, td, hs, inserted);
      r := Inserted(inserted);
    }

    /** Makes the chain ending in the last of `hs` canonical. Reads go to the stored index,
        writes to a batch that replaces the index at the end. */
    method Reorg(hs: seq<Header>)
      requires Valid() && (hs == [] || StoredSegment(headers, genesis, hs))
      modifies this`canon, this`current
      ensures Valid()
      ensures current == if hs == [] then old(current) else hs[|hs| - 1].hash
    {
      if |hs| == 0 {
        return;
      }
      var first, last := hs[0], hs[|hs| - 1];
      SegmentOnPath(headers, genesis, hs);
      var batch: Index := canon;
      if first.parent != current {
        batch := DropFrom(canon, last.number + 1, headers[current].number);
        batch := RewriteToCrossLink(headers, genesis, canon, batch, first, current, last.hash);
      } else {
        ExtendsHead(headers, genesis, first.hash, last.hash);
      }
      batch := AppendSegment(headers, genesis, batch, hs);
      canon := batch;
      current := last.hash;
    }

    /** Stores a segment and makes its last header the head if fork choice and the chain
        validator (its answer is `isValid`) both agree. */
    method WriteHeadersAndSetHead(hs: seq<Header>, ttd: Option<nat>, preserve: Header -> bool, isValid: bool)
      returns (r: WriteResult, status: WriteStatus)
      requires Valid() && hs != [] && Contiguous(hs)
      requires forall i :: 0 <= i < |hs| ==> hs[i].hash != genesis
      requires forall i :: 0 <= i < |hs| && hs[i].hash in headers ==> headers[hs[i].hash] == hs[i]
      requires hs[0].parent in headers ==> headers[hs[0].parent].number + 1 == hs[0].number
      modifies this
      ensures Valid() && Extends(old(headers), headers)
      ensures r.UnknownAncestor? ==> unchanged(this)
      ensures r.Inserted? ==> headers == StoreAll(old(headers), hs)
      ensures status.CanonStat? <==>
                && r.Inserted? && isValid
                && ReorgNeeded(td, ttd, preserve, old(headers)[old(current)], hs[|hs| - 1]) == ForkChoice.Reorg(true)
                && !IsAncestor(headers, genesis, hs[|hs| - 1].hash, old(current))
      ensures status.SideStat? <==>
                && r.Inserted? && r.count > 0
                && !(isValid &&
                     ReorgNeeded(td, ttd, preserve, old(headers)[old(current)], hs[|hs| - 1]) == ForkChoice.Reorg(true))
      ensures current == if status.CanonStat? then hs[|hs| - 1].hash else old(current)
    {
      r := WriteHeaders(hs);
      if r.UnknownAncestor? {
        return r, NonStat;
      }
      var last := hs[|hs| - 1];
      assert Linked(headers, genesis, current);
      var quiet := if r.count != 0 then SideStat else NonStat;
      var decision := ReorgNeeded(td, ttd, preserve, headers[current], last);
      if !decision.needed || !isValid {
        return r, quiet;
      }
      if ReadCanonical(last.number) == last.hash && last.number <= headers[current].number {
        return r, NonStat;
      }
      Reorg(hs);
      status := CanonStat;
    }

    /** The rewind target is reached: by number, or by time when a time is given. */
    static predicate Done(h: Header, headBlock: nat, headTime: nat) {
      if headTime > 0 then h.time <= headTime else h.number <= headBlock
    }

    /** Rewinds the head to a block number or a timestamp and deletes everything above it
        on every fork. `updateFn` may force the target further down. */
    method SetHead(headBlock: nat, headTime: nat, updateFn: UpdateFn)
      requires Valid()
      requires headTime > 0 ==> headers[genesis].time <= headTime
      modifies this
      ensures Valid()
      ensures current in old(headers) && IsAncestor(old(headers), genesis, current, old(current))
      ensures Done(old(headers)[old(current)], headBlock, headTime) ==>
                headers == old(headers) && td == old(td) && canon == old(canon) && current == old(current)
      ensures !Done(old(headers)[old(current)], headBlock, headTime) ==>
                && headers == Below(old(headers), old(headers)[current].number)
                && old(headers)[current].number < old(headers)[old(current)].number
      ensures RewindsTo(old(headers), genesis, old(current), current, headBlock, headTime, updateFn)
      ensures updateFn.None? ==> Done(headers[current], headBlock, headTime)
      ensures updateFn.None? ==> NoneDoneAbove(old(headers), genesis, old(current), current, headBlock, headTime)
    {
      var dropped, droppedNums := Rewind(headBlock, headTime, updateFn);
      if current != old(current) {
        Truncated(headers, genesis, td, old(current), current, dropped, droppedNums);
      } else {
        assert headers - dropped == headers && td - dropped == td && canon - droppedNums == canon;
      }
      headers := headers - dropped;
      td := td - dropped;
      canon := canon - droppedNums;
    }

    /** The target after the callback has seen `parent`: it may force the rewind further down, to
        a block number. */
    static function Retarget(parent: Header, target: nat, time: nat, updateFn: UpdateFn)
      : (r: (nat, nat))
    {
      if updateFn.None? then (target, time)
      else
        var (newHead, force) := updateFn.value(parent);
        if force && ((time > 0 && newHead.time < time) || (time == 0 && newHead.number < target))
        then (newHead.number, 0) else (target, time)
    }

    /** The rewinding loop of SetHead: moves the head down one parent at a time and collects
        the deletions, which are applied only after the loop. */
    method Rewind(headBlock: nat, headTime: nat, updateFn: UpdateFn)
      returns (dropped: set<Hash>, droppedNums: set<nat>)
      requires Valid()
      requires headTime > 0 ==> headers[genesis].time <= headTime
      modifies this`current
      ensures current in headers && IsAncestor(headers, genesis, current, old(current))
      ensures Done(headers[old(current)], headBlock, headTime) ==> current == old(current)
      ensures current == old(current) ==> Done(headers[current], headBlock, headTime)
      ensures current == old(current) ==> dropped == {} && droppedNums == {}
      ensures current != old(current) ==> Rewound(headers, old(current), headers[current].number, dropped, droppedNums)
      ensures StopsAt(headers, genesis, old(current), current, headBlock, headTime, updateFn)
      ensures RewindsTo(headers, genesis, old(current), current, headBlock, headTime, updateFn)
      ensures updateFn.None? ==> Done(headers[current], headBlock, headTime)
      ensures updateFn.None? ==> NoneDoneAbove(headers, genesis, old(current), current, headBlock, headTime)
    {
      var target, time := headBlock, headTime;
      var origin := true;
      dropped, droppedNums := {}, {};
      while !Done(headers[current], target, time)
        invariant current in headers && IsAncestor(headers, genesis, current, old(current))
        invariant time > 0 ==> headers[genesis].time <= time
        invariant origin ==> current == old(current) && target == headBlock && time == headTime
        invariant origin ==> dropped == {} && droppedNums == {}
        invariant !origin ==> Rewound(headers, old(current), headers[current].number, dropped, droppedNums)
        invariant !origin ==> !Done(headers[old(current)], headBlock, headTime)
        invariant (target, time) ==
                    TargetAt(headers, genesis, old(current), headers[current].number, headBlock, headTime, updateFn)
        invariant NoneStopsAbove(headers, genesis, old(current), current, headBlock, headTime, updateFn)
        invariant updateFn.None? ==> target == headBlock && time == headTime
        invariant updateFn.None? ==> NoneDoneAbove(headers, genesis, old(current), current, headBlock, headTime)
        decreases headers[current].number
      {
        var hdr := headers[current];
        NotDoneHasParent(headers, genesis, old(current), current, target, time);
        var num := hdr.number;
        var parent := headers[hdr.parent];
        var (target', time') := Retarget(parent, target, time, updateFn);
        target, time := target', time';
        dropped, droppedNums := MarkHeight(headers, genesis, num, origin, dropped, droppedNums, old(current), current);
        origin := false;
        current := parent.hash;
      }
      StopsExactly(headers, genesis, old(current), current, headBlock, headTime, updateFn);
    }

    /** Headers are stored by hash and number together. */
    predicate HasHeader(hash: Hash, number: nat)
      reads this
    {
      hash in headers && headers[hash].number == number
    }

    /** The ancestor `ancestor` levels above the given block. Once the walk meets the
        canonical chain it jumps through the index; before that each step costs one unit of
        the caller's budget. Giving up is answered by the zero hash and number zero. */
    method GetAncestor(hash: Hash, number: nat, ancestor: nat, budget: nat)
      returns (h: Hash, n: nat, left: nat)
      requires Valid()
      ensures ancestor > number ==> (h, n, left) == (ZERO, 0, budget)
      ensures ancestor == 0 ==> (h, n, left) == (hash, number, budget)
      ensures HasHeader(hash, number) && ancestor == 1 <= number ==>
                (h, n, left) == (AncestorAt(headers, genesis, hash, number - 1), number - 1, budget)
      ensures HasHeader(hash, number) && 1 < ancestor <= number ==>
                var depth := DepthToCanon(headers, genesis, current, hash);
                var steps := if depth < ancestor then depth else ancestor;
                (h, n, left) == if steps <= budget
                                then (AncestorAt(headers, genesis, hash, number - ancestor), number - ancestor,
                                  budget - steps)
                                else (ZERO, 0, 0)
      ensures !HasHeader(hash, number) && 0 < ancestor <= number &&
              !(hash == ZERO && number !in canon && ancestor > 1) ==>
                (h, n) == (ZERO, 0)
      // The zero hash above the head is mistaken for the (missing) canonical entry there.
      ensures hash == ZERO && number !in canon && 1 < ancestor <= number ==>
                (h, n, left) == (ReadCanonical(number - ancestor), number - ancestor, budget)
    {
      h, n, left := hash, number, budget;
      if ancestor > number {
        return ZERO, 0, left;
      }
      if ancestor == 1 {
        if HasHeader(hash, number) {
          AncestorParent(headers, genesis, hash, number);
          return headers[hash].parent, number - 1, left;
        }
        return ZERO, 0, left;
      }
      if HasHeader(hash, number) {
        assert Linked(headers, genesis, hash);
      }
      var remaining := ancestor;
      while remaining != 0
        invariant 0 <= remaining <= n <= number && n - remaining == number - ancestor
        invariant left <= budget && budget - left == number - n
        invariant !HasHeader(hash, number) ==> n == number && h == hash
        invariant HasHeader(hash, number) ==>
                    && h == AncestorAt(headers, genesis, hash, n)
                    && DepthToCanon(headers, genesis, current, h) + (number - n) ==
                      DepthToCanon(headers, genesis, current, hash)
        decreases remaining
      {
        if ReadCanonical(n) == h {
          if HasHeader(hash, number) {
            assert Linked(headers, genesis, h);
            AncestorsMerge(headers, genesis, hash, current, n, n - remaining);
          }
          return ReadCanonical(n - remaining), n - remaining, left;
        }
        if left == 0 {
          return ZERO, 0, left;
        }
        left := left - 1;
        remaining := remaining - 1;
        if !HasHeader(h, n) {
          return ZERO, 0, left;
        }
        AncestorParent(headers, genesis, hash, n);
        h := headers[h].parent;
        n := n - 1;
      }
    }
  }

  /** How many parent steps lead from `h` to the chain that ends in `head`. */
  function DepthToCanon(t: Store, genesis: Hash, head: Hash, h: Hash): (d: nat)
    requires ValidTree(t, genesis) && h in t && head in t
    ensures d <= t[h].number
    decreases t[h].number
  {
    OnlyGenesisAtZero(t, genesis, AncestorAt(t, genesis, head, 0));
    assert Linked(t, genesis, h);
    if IsAncestor(t, genesis, h, head) then 0 else 1 + DepthToCanon(t, genesis, head, t[h].parent)
  }

  /** Marks everything at height `num` for deletion, and on the first pass (`origin`) also
      everything stored above it. */
  method MarkHeight(t: Store, genesis: Hash, num: nat, origin: bool, dropped: set<Hash>, droppedNums: set<nat>,
                    ghost head: Hash, ghost cur: Hash) returns (dropped': set<Hash>, droppedNums': set<nat>)
    requires ValidTree(t, genesis) && head in t && cur in t && t[cur].number == num > 0
    requires origin ==> cur == head && dropped == {} && droppedNums == {}
    requires !origin ==> Rewound(t, head, num, dropped, droppedNums)
    ensures Rewound(t, head, num - 1, dropped', droppedNums')
  {
    var nums: seq<nat> := [];
    if origin {
      nums := HeightsAbove(t, genesis, num);
    }
    nums := nums + [num];
    var hashes := GatherHashes(t, nums);
    dropped' := dropped + hashes;
    droppedNums' := droppedNums + set k | k in nums;
  }

  /** Everything above height `k`, on every fork, and every canonical entry above it is
      marked for deletion. */
  ghost predicate Rewound(t: Store, head: Hash, k: nat, dropped: set<Hash>, nums: set<nat>)
    requires head in t
  {
    && k < t[head].number
    && dropped == (set h | h in t && t[h].number > k)
    && forall n: nat :: n <= t[head].number ==> (n in nums <==> k < n)
  }

  /** The rewind target when the head has come down to height `n`. */
  ghost function TargetAt(t: Store, genesis: Hash, head: Hash, n: nat, headBlock: nat, headTime: nat,
                          updateFn: UpdateFn): (r: (nat, nat))
    requires ValidTree(t, genesis) && head in t && n <= t[head].number
    decreases t[head].number - n
  {
    if n == t[head].number then (headBlock, headTime)
    else
      var above := TargetAt(t, genesis, head, n + 1, headBlock, headTime, updateFn);
      Chain.Retarget(t[AncestorAt(t, genesis, head, n)], above.0, above.1, updateFn)
  }

  /** The ancestor of `head` at height `n` meets the target that holds there. */
  ghost predicate MeetsTarget(t: Store, genesis: Hash, head: Hash, n: nat, headBlock: nat, headTime: nat,
                              updateFn: UpdateFn)
    requires ValidTree(t, genesis) && head in t && n <= t[head].number
  {
    var target := TargetAt(t, genesis, head, n, headBlock, headTime, updateFn);
    Chain.Done(t[AncestorAt(t, genesis, head, n)], target.0, target.1)
  }

  ghost predicate NoneStopsAbove(t: Store, genesis: Hash, head: Hash, cur: Hash, headBlock: nat, headTime: nat,
                                 updateFn: UpdateFn)
    requires ValidTree(t, genesis) && head in t && cur in t
  {
    forall n :: t[cur].number < n <= t[head].number ==>
      !MeetsTarget(t, genesis, head, n, headBlock, headTime, updateFn)
  }

  /** Block `cur` is the first, coming down from `head`, that meets the target, wherever the
      callback has moved it to by then. */
  ghost predicate StopsAt(t: Store, genesis: Hash, head: Hash, cur: Hash, headBlock: nat, headTime: nat,
                          updateFn: UpdateFn)
    requires ValidTree(t, genesis) && head in t && cur in t
  {
    && IsAncestor(t, genesis, cur, head)
    && MeetsTarget(t, genesis, head, t[cur].number, headBlock, headTime, updateFn)
    && NoneStopsAbove(t, genesis, head, cur, headBlock, headTime, updateFn)
  }

  // ---------- Where a rewind with a callback ends ----------

  /** The header to which the callback forces the rewind when it is shown the ancestor of `head` at
      height `n`. */
  ghost function ForcedAt(t: Store, genesis: Hash, head: Hash, n: nat, updateFn: UpdateFn)
    : (x: Option<Header>)
    requires ValidTree(t, genesis) && head in t && n <= t[head].number
  {
    if updateFn.None? then None
    else
      var answer := updateFn.value(t[AncestorAt(t, genesis, head, n)]);
      if answer.1 then Some(answer.0) else None
  }

  /** No answer at the heights from `n` to below `top` forces the rewind below height `k`. */
  ghost predicate NoneForcesBelow(t: Store, genesis: Hash, head: Hash, k: nat, n: nat, top: nat,
                                  updateFn: UpdateFn)
    requires ValidTree(t, genesis) && head in t && top <= t[head].number
  {
    forall m: nat {:trigger ForcedAt(t, genesis, head, m, updateFn)} :: n <= m < top ==>
      var x := ForcedAt(t, genesis, head, m, updateFn);
      x.None? || k <= x.value.number
  }

  /** At height `w` the callback forces the rewind to a header older than the given time. */
  ghost predicate ForcesOlder(t: Store, genesis: Hash, head: Hash, w: nat, time: nat,
                              updateFn: UpdateFn)
    requires ValidTree(t, genesis) && head in t && w <= t[head].number
  {
    var x := ForcedAt(t, genesis, head, w, updateFn);
    x.Some? && x.value.time < time
  }

  ghost predicate NoneForcesOlder(t: Store, genesis: Hash, head: Hash, n: nat, time: nat,
                                  updateFn: UpdateFn)
    requires ValidTree(t, genesis) && head in t
  {
    forall m: nat {:trigger ForcesOlder(t, genesis, head, m, time, updateFn)} :: n <= m < t[head].number ==>
      !ForcesOlder(t, genesis, head, m, time, updateFn)
  }

  /** Height `w` is the first at which it does so, coming down from `head`. */
  ghost predicate FirstOlder(t: Store, genesis: Hash, head: Hash, w: nat, time: nat,
                             updateFn: UpdateFn)
    requires ValidTree(t, genesis) && head in t
  {
    && w < t[head].number && ForcesOlder(t, genesis, head, w, time, updateFn)
    && NoneForcesOlder(t, genesis, head, w + 1, time, updateFn)
  }

  /** The rewind may end at height `n`. By number: `n` is not above the target nor above any header
      forced on the way. By time: the block there is old enough, as long as no forced header was
      older than the time; from the first such header on the rewind goes on by number. */
  ghost predicate MayEndAt(t: Store, genesis: Hash, head: Hash, n: nat, headBlock: nat, headTime: nat,
                           updateFn: UpdateFn)
    requires ValidTree(t, genesis) && head in t && n <= t[head].number
  {
    if headTime == 0 then n <= headBlock && NoneForcesBelow(t, genesis, head, n, n, t[head].number, updateFn)
    else if NoneForcesOlder(t, genesis, head, n, headTime, updateFn) then
      t[AncestorAt(t, genesis, head, n)].time <= headTime
    else
      exists w: nat {:trigger FirstOlder(t, genesis, head, w, headTime, updateFn)} :: n <= w &&
        FirstOlder(t, genesis, head, w, headTime, updateFn) &&
        NoneForcesBelow(t, genesis, head, n, n, w + 1, updateFn)
  }

  /** Block `cur` is the highest ancestor of `head` at which the rewind may end. */
  ghost predicate RewindsTo(t: Store, genesis: Hash, head: Hash, cur: Hash, headBlock: nat, headTime: nat,
                            updateFn: UpdateFn)
    requires ValidTree(t, genesis) && head in t && cur in t
  {
    && IsAncestor(t, genesis, cur, head)
    && MayEndAt(t, genesis, head, t[cur].number, headBlock, headTime, updateFn)
    && forall n {:trigger MayEndAt(t, genesis, head, n, headBlock, headTime, updateFn)} ::
         t[cur].number < n <= t[head].number ==> !MayEndAt(t, genesis, head, n, headBlock, headTime, updateFn)
  }

  /** In a rewind by number the target is above a height exactly if the given one is and no forced
      header is below. */
  lemma {:induction false} TargetByNumber(t: Store, genesis: Hash, head: Hash, n: nat, headBlock: nat, k: nat,
                                          updateFn: UpdateFn)
    requires ValidTree(t, genesis) && head in t && n <= t[head].number
    ensures var target := TargetAt(t, genesis, head, n, headBlock, 0, updateFn);
            && target.1 == 0
            && (k <= target.0 <==>
                  k <= headBlock && NoneForcesBelow(t, genesis, head, k, n, t[head].number, updateFn))
    decreases t[head].number - n
  {
    if n < t[head].number {
      TargetByNumber(t, genesis, head, n + 1, headBlock, k, updateFn);
      NoneForcesStep(t, genesis, head, k, n, t[head].number, updateFn);
    }
  }

  lemma NoneForcesStep(t: Store, genesis: Hash, head: Hash, k: nat, n: nat, top: nat,
                       updateFn: UpdateFn)
    requires ValidTree(t, genesis) && head in t && n < top <= t[head].number
    ensures var x := ForcedAt(t, genesis, head, n, updateFn);
            NoneForcesBelow(t, genesis, head, k, n, top, updateFn) <==>
              NoneForcesBelow(t, genesis, head, k, n + 1, top, updateFn) && (x.Some? ==> k <= x.value.number)
  {
  }

  /** A rewind by time keeps its target until a forced header is older. */
  lemma {:induction false} TargetByTime(t: Store, genesis: Hash, head: Hash, n: nat, headBlock: nat, headTime: nat,
                                        updateFn: UpdateFn)
    requires ValidTree(t, genesis) && head in t && n <= t[head].number && headTime > 0
    requires NoneForcesOlder(t, genesis, head, n, headTime, updateFn)
    ensures TargetAt(t, genesis, head, n, headBlock, headTime, updateFn) == (headBlock, headTime)
    decreases t[head].number - n
  {
    if n < t[head].number {
      TargetByTime(t, genesis, head, n + 1, headBlock, headTime, updateFn);
      assert !ForcesOlder(t, genesis, head, n, headTime, updateFn);
    }
  }

  /** From there on it is a rewind by number, to that header or a lower one forced later. */
  lemma {:induction false} TargetAfterTime(t: Store, genesis: Hash, head: Hash, n: nat, headBlock: nat, headTime: nat,
                                           w: nat, k: nat, updateFn: UpdateFn)
    requires ValidTree(t, genesis) && head in t && headTime > 0
    requires n <= w && FirstOlder(t, genesis, head, w, headTime, updateFn)
    ensures var target := TargetAt(t, genesis, head, n, headBlock, headTime, updateFn);
            && target.1 == 0
            && (k <= target.0 <==> NoneForcesBelow(t, genesis, head, k, n, w + 1, updateFn))
    decreases w - n
  {
    NoneForcesStep(t, genesis, head, k, n, w + 1, updateFn);
    if n == w {
      TargetByTime(t, genesis, head, w + 1, headBlock, headTime, updateFn);
    } else {
      TargetAfterTime(t, genesis, head, n + 1, headBlock, headTime, w, k, updateFn);
    }
  }

  lemma {:induction false} FindFirstOlder(t: Store, genesis: Hash, head: Hash, n: nat, time: nat,
                                          updateFn: UpdateFn) returns (w: nat)
    requires ValidTree(t, genesis) && head in t && n <= t[head].number
    requires !NoneForcesOlder(t, genesis, head, n, time, updateFn)
    ensures n <= w && FirstOlder(t, genesis, head, w, time, updateFn)
    decreases t[head].number - n
  {
    if NoneForcesOlder(t, genesis, head, n + 1, time, updateFn) {
      w := n;
    } else {
      w := FindFirstOlder(t, genesis, head, n + 1, time, updateFn);
    }
  }

  lemma FirstOlderOnce(t: Store, genesis: Hash, head: Hash, w: nat, w': nat, time: nat,
                       updateFn: UpdateFn)
    requires ValidTree(t, genesis) && head in t
    requires FirstOlder(t, genesis, head, w, time, updateFn) && FirstOlder(t, genesis, head, w', time, updateFn)
    ensures w == w'
  {
    assert ForcesOlder(t, genesis, head, w, time, updateFn) && ForcesOlder(t, genesis, head, w', time, updateFn);
  }

  lemma MeetsExactly(t: Store, genesis: Hash, head: Hash, n: nat, headBlock: nat, headTime: nat,
                     updateFn: UpdateFn)
    requires ValidTree(t, genesis) && head in t && n <= t[head].number
    ensures MeetsTarget(t, genesis, head, n, headBlock, headTime, updateFn) <==>
            MayEndAt(t, genesis, head, n, headBlock, headTime, updateFn)
  {
    if headTime == 0 {
      TargetByNumber(t, genesis, head, n, headBlock, n, updateFn);
    } else if NoneForcesOlder(t, genesis, head, n, headTime, updateFn) {
      TargetByTime(t, genesis, head, n, headBlock, headTime, updateFn);
    } else {
      var w := FindFirstOlder(t, genesis, head, n, headTime, updateFn);
      TargetAfterTime(t, genesis, head, n, headBlock, headTime, w, n, updateFn);
      forall w': nat | n <= w' && FirstOlder(t, genesis, head, w', headTime, updateFn)
        ensures w' == w
      {
        FirstOlderOnce(t, genesis, head, w, w', headTime, updateFn);
      }
    }
  }

  /** The loop stops exactly where the rewind may end first. */
  lemma StopsExactly(t: Store, genesis: Hash, head: Hash, cur: Hash, headBlock: nat, headTime: nat,
                     updateFn: UpdateFn)
    requires ValidTree(t, genesis) && head in t && cur in t
    ensures StopsAt(t, genesis, head, cur, headBlock, headTime, updateFn) <==>
            RewindsTo(t, genesis, head, cur, headBlock, headTime, updateFn)
  {
    forall n: nat | n <= t[head].number
      ensures MeetsTarget(t, genesis, head, n, headBlock, headTime, updateFn) <==>
              MayEndAt(t, genesis, head, n, headBlock, headTime, updateFn)
    {
      MeetsExactly(t, genesis, head, n, headBlock, headTime, updateFn);
    }
  }

  /** A rewind by number ends at the lowest of the target and the headers that were forced on the
      way, and at nothing else. */
  lemma RewindByNumber(t: Store, genesis: Hash, head: Hash, cur: Hash, headBlock: nat,
                       updateFn: UpdateFn)
    requires ValidTree(t, genesis) && head in t && cur in t && headBlock < t[head].number
    requires RewindsTo(t, genesis, head, cur, headBlock, 0, updateFn)
    ensures t[cur].number <= headBlock
    ensures NoneForcesBelow(t, genesis, head, t[cur].number, t[cur].number, t[head].number, updateFn)
    ensures t[cur].number < headBlock ==>
              exists m: nat :: t[cur].number <= m < t[head].number && ForcedTo(t, genesis, head, m, t[cur].number,
                updateFn)
  {
    var n := t[cur].number;
    if n < headBlock {
      assert !MayEndAt(t, genesis, head, n + 1, headBlock, 0, updateFn);
      var m: nat :| n + 1 <= m < t[head].number && ForcedAt(t, genesis, head, m, updateFn).Some? &&
        n + 1 > ForcedAt(t, genesis, head, m, updateFn).value.number;
      assert ForcedTo(t, genesis, head, m, n, updateFn);
    }
  }

  /** In a rewind by time the first forced header older than the time takes over as target: the
      rewind ends where that header was demanded, or at the lowest header forced from there on.
      Without one it ends at the first block that is old enough. */
  lemma RewindByTime(t: Store, genesis: Hash, head: Hash, cur: Hash, headBlock: nat, headTime: nat, w: nat,
                     updateFn: UpdateFn)
    requires ValidTree(t, genesis) && head in t && cur in t && headTime > 0
    requires RewindsTo(t, genesis, head, cur, headBlock, headTime, updateFn)
    ensures t[cur].number <= w && FirstOlder(t, genesis, head, w, headTime, updateFn) ==>
              && NoneForcesBelow(t, genesis, head, t[cur].number, t[cur].number, w + 1, updateFn)
              && (t[cur].number == w || exists m: nat :: t[cur].number <= m <= w && ForcedTo(t, genesis, head, m,
                t[cur].number, updateFn))
              && TimesAbove(t, genesis, head, w, headTime)
    ensures NoneForcesOlder(t, genesis, head, t[cur].number, headTime, updateFn) ==>
              t[cur].time <= headTime && TimesAbove(t, genesis, head, t[cur].number, headTime)
  {
    var c := t[cur].number;
    forall n | c < n <= t[head].number && NoneForcesOlder(t, genesis, head, n, headTime, updateFn)
      ensures t[AncestorAt(t, genesis, head, n)].time > headTime
    {
      assert !MayEndAt(t, genesis, head, n, headBlock, headTime, updateFn);
    }
    if c <= w && FirstOlder(t, genesis, head, w, headTime, updateFn) {
      OlderTakesOver(t, genesis, head, c, headBlock, headTime, w, updateFn);
      if c < w {
        OlderTakesOver(t, genesis, head, c + 1, headBlock, headTime, w, updateFn);
        assert !MayEndAt(t, genesis, head, c + 1, headBlock, headTime, updateFn);
        var m: nat :| c + 1 <= m <= w && ForcedAt(t, genesis, head, m, updateFn).Some? &&
          c + 1 > ForcedAt(t, genesis, head, m, updateFn).value.number;
        assert ForcedTo(t, genesis, head, m, c, updateFn);
      }
    }
  }

  lemma OlderTakesOver(t: Store, genesis: Hash, head: Hash, n: nat, headBlock: nat, headTime: nat, w: nat,
                       updateFn: UpdateFn)
    requires ValidTree(t, genesis) && head in t && headTime > 0
    requires n <= w && FirstOlder(t, genesis, head, w, headTime, updateFn)
    ensures MayEndAt(t, genesis, head, n, headBlock, headTime, updateFn) <==>
            NoneForcesBelow(t, genesis, head, n, n, w + 1, updateFn)
  {
    assert ForcesOlder(t, genesis, head, w, headTime, updateFn);
    forall v: nat | FirstOlder(t, genesis, head, v, headTime, updateFn)
      ensures v == w
    {
      FirstOlderOnce(t, genesis, head, v, w, headTime, updateFn);
    }
  }

  /** At height `m` the callback forces the rewind to height `k`. */
  ghost predicate ForcedTo(t: Store, genesis: Hash, head: Hash, m: nat, k: nat, updateFn: UpdateFn)
    requires ValidTree(t, genesis) && head in t
  {
    m <= t[head].number && var x := ForcedAt(t, genesis, head, m, updateFn); x.Some? && x.value.number == k
  }

  /** The blocks on the path of `head` above height `n` are younger than the time. */
  ghost predicate TimesAbove(t: Store, genesis: Hash, head: Hash, n: nat, time: nat)
    requires ValidTree(t, genesis) && head in t
  {
    forall m :: n < m <= t[head].number ==> t[AncestorAt(t, genesis, head, m)].time > time
  }

  /** The callbacks force the same headers. */
  ghost predicate SameForces(t: Store, genesis: Hash, head: Hash, f: UpdateFn, g: UpdateFn)
    requires ValidTree(t, genesis) && head in t
  {
    forall n: nat {:trigger ForcedAt(t, genesis, head, n, f)} {:trigger ForcedAt(t, genesis, head, n, g)} ::
      n <= t[head].number ==> ForcedAt(t, genesis, head, n, f) == ForcedAt(t, genesis, head, n, g)
  }

  /** Only forced answers matter: callbacks that force the same headers lead to the same head. */
  lemma UnforcedHasNoEffect(t: Store, genesis: Hash, head: Hash, cur: Hash, cur': Hash, headBlock: nat, headTime: nat,
                            f: UpdateFn, g: UpdateFn)
    requires ValidTree(t, genesis) && head in t && cur in t && cur' in t && SameForces(t, genesis, head, f, g)
    requires RewindsTo(t, genesis, head, cur, headBlock, headTime, f)
    requires RewindsTo(t, genesis, head, cur', headBlock, headTime, g)
    ensures cur == cur'
  {
    EndsAlike(t, genesis, head, t[cur].number, headBlock, headTime, f, g);
    EndsAlike(t, genesis, head, t[cur'].number, headBlock, headTime, g, f);
  }

  lemma EndsAlike(t: Store, genesis: Hash, head: Hash, n: nat, headBlock: nat, headTime: nat, f: UpdateFn, g: UpdateFn)
    requires ValidTree(t, genesis) && head in t && n <= t[head].number && SameForces(t, genesis, head, f, g)
    requires MayEndAt(t, genesis, head, n, headBlock, headTime, f)
    ensures MayEndAt(t, genesis, head, n, headBlock, headTime, g)
  {
    if headTime > 0 {
      forall m: nat | m < t[head].number
        ensures ForcesOlder(t, genesis, head, m, headTime, f) == ForcesOlder(t, genesis, head, m, headTime, g)
      {
      }
      if !NoneForcesOlder(t, genesis, head, n, headTime, f) {
        var w: nat :| n <= w && FirstOlder(t, genesis, head, w, headTime, f) &&
          NoneForcesBelow(t, genesis, head, n, n, w + 1, f);
        assert FirstOlder(t, genesis, head, w, headTime, g);
      }
    }
  }

  ghost predicate NoneDoneAbove(t: Store, genesis: Hash, head: Hash, cur: Hash, headBlock: nat, headTime: nat)
    requires ValidTree(t, genesis) && head in t && cur in t
  {
    forall n :: t[cur].number < n <= t[head].number ==>
      !Chain.Done(t[AncestorAt(t, genesis, head, n)], headBlock, headTime)
  }

  /** A header short of the target has a parent, which is on the path of the head as well. */
  lemma NotDoneHasParent(t: Store, genesis: Hash, head: Hash, cur: Hash, headBlock: nat, headTime: nat)
    requires ValidTree(t, genesis) && head in t && cur in t && IsAncestor(t, genesis, cur, head)
    requires !Chain.Done(t[cur], headBlock, headTime)
    requires headTime > 0 ==> t[genesis].time <= headTime
    ensures t[cur].parent in t && t[t[cur].parent].hash == t[cur].parent
    ensures t[t[cur].parent].number + 1 == t[cur].number
    ensures IsAncestor(t, genesis, t[cur].parent, head)
  {
    assert Linked(t, genesis, cur);
    assert Linked(t, genesis, genesis);
    AncestorParent(t, genesis, head, t[cur].number);
  }

  /** The occupied heights above `num`, highest first. The upward sweep stops at the first
      empty height; because heights have no gaps it misses nothing. */
  method HeightsAbove(t: Store, genesis: Hash, num: nat) returns (nums: seq<nat>)
    requires ValidTree(t, genesis)
    ensures forall k :: k in nums ==> num < k && AllHashes(t, k) != {}
    ensures forall h :: h in t && num < t[h].number ==> t[h].number in nums
  {
    nums := [];
    var n := num + 1;
    while AllHashes(t, n) != {}
      invariant num < n
      invariant forall k: nat :: k in nums <==> num < k < n
      invariant forall k :: k in nums ==> AllHashes(t, k) != {}
      decreases set h | h in t && t[h].number >= n
    {
      ghost var h :| h in AllHashes(t, n);
      ghost var left, rest := set x | x in t && t[x].number >= n, set x | x in t && t[x].number >= n + 1;
      assert rest <= left && h in left && h !in rest;
      nums := [n] + nums;
      n := n + 1;
    }
    HeightsHaveNoGaps(t, genesis, n);
  }

  /** The hashes stored at any of the given heights. */
  method GatherHashes(t: Store, nums: seq<nat>) returns (hashes: set<Hash>)
    ensures hashes == set h | h in t && t[h].number in nums
  {
    hashes := {};
    for i := 0 to |nums|
      invariant hashes == set h | h in t && t[h].number in nums[..i]
    {
      hashes := hashes + AllHashes(t, nums[i]);
      assert nums[..i + 1] == nums[..i] + [nums[i]];
    }
    assert nums[..|nums|] == nums;
  }

  /** Deleting what a rewind marked leaves a valid chain with `a` as head. */
  lemma Truncated(t: Store, genesis: Hash, td: map<Hash, nat>, head: Hash, a: Hash, dropped: set<Hash>, nums: set<nat>)
    requires ValidTree(t, genesis) && DifficultiesOf(t, genesis, td)
    requires head in t && a in t && IsAncestor(t, genesis, a, head)
    requires Rewound(t, head, t[a].number, dropped, nums)
    ensures t - dropped == Below(t, t[a].number)
    ensures ValidTree(t - dropped, genesis) && a in t - dropped
    ensures DifficultiesOf(t - dropped, genesis, td - dropped)
    ensures PathOf(t, genesis, head) - nums == PathOf(t - dropped, genesis, a)
  {
    var t' := Below(t, t[a].number);
    assert t - dropped == t';
    CutTree(t, genesis, t[a].number);
    PathStable(t', t, genesis, a);
    forall h | h in t' {
      TotalDifficultyStable(t', t, genesis, h);
    }
    forall n: nat | n <= t[a].number {
      AncestorTrans(t, genesis, head, t[a].number, n);
    }
    assert PathOf(t, genesis, head) - nums == PathOf(t, genesis, a);
  }

  /** The index agrees with the ancestors of `top` below height `k` and has no entry above `top`. */
  ghost predicate OnPathBelow(t: Store, genesis: Hash, canon: Index, top: Hash, k: nat)
    requires ValidTree(t, genesis) && top in t && k <= t[top].number + 1
  {
    && (forall n :: n in canon ==> n <= t[top].number)
    && (forall n: nat :: n < k ==> n in canon && canon[n] == AncestorAt(t, genesis, top, n))
  }

  /** Drops the canonical assignments from height `from` upwards, stopping at the first gap:
      since the index has no gaps, nothing is left above. */
  method DropFrom(canon: Index, from: nat, ghost height: nat) returns (batch: Index)
    requires forall n: nat :: n in canon <==> n <= height
    ensures batch == map n | n in canon && n < from :: canon[n]
  {
    batch := canon;
    var i := from;
    while i in canon
      invariant from <= i
      invariant batch == map n | n in canon && (n < from || n >= i) :: canon[n]
      decreases height + 1 - i
    {
      batch := batch - {i};
      i := i + 1;
    }
  }

  /** Overwrites stale assignments from `first` downwards until the cross link with the
      canonical chain, so that the index follows the new chain up to and including `first`. */
  method RewriteToCrossLink(t: Store, genesis: Hash, canon: Index, dropped: Index, first: Header,
                            ghost current: Hash, ghost top: Hash) returns (batch: Index)
    requires ValidTree(t, genesis) && current in t && canon == PathOf(t, genesis, current)
    requires top in t && first.hash in t && t[first.hash] == first && first.number <= t[top].number
    requires AncestorAt(t, genesis, top, first.number) == first.hash
    requires dropped == map n | n in canon && n < t[top].number + 1 :: canon[n]
    ensures OnPathBelow(t, genesis, batch, top, first.number + 1)
  {
    batch := dropped;
    var header := first;
    var headNumber: nat, headHash: Hash := first.number, first.hash;
    while !(headNumber in canon && canon[headNumber] == headHash)
      invariant headNumber <= first.number && headHash in t && header == t[headHash]
      invariant headHash == AncestorAt(t, genesis, top, headNumber)
      invariant forall n :: n in batch ==> n <= t[top].number
      invariant forall n: nat :: headNumber < n <= first.number ==>
                  n in batch && batch[n] == AncestorAt(t, genesis, top, n)
      invariant forall n: nat :: n <= headNumber ==>
                  (n in batch <==> n in canon) && (n in batch ==> batch[n] == canon[n])
      decreases headNumber
    {
      if headNumber == 0 {
        break;
      }
      batch := batch[headNumber := headHash];
      AncestorParent(t, genesis, top, headNumber);
      headHash, headNumber := header.parent, headNumber - 1;
      header := t[headHash];
    }
    if headNumber == 0 {
      OnlyGenesisAtZero(t, genesis, headHash);
      OnlyGenesisAtZero(t, genesis, AncestorAt(t, genesis, current, 0));
    }
    forall n: nat | n <= headNumber
      ensures AncestorAt(t, genesis, current, n) == AncestorAt(t, genesis, top, n)
    {
      AncestorsMerge(t, genesis, current, top, headNumber, n);
    }
  }

  /** Extends the canonical chain with the new headers. */
  method AppendSegment(t: Store, genesis: Hash, below: Index, hs: seq<Header>) returns (batch: Index)
    requires StoredSegment(t, genesis, hs)
    requires forall i :: 0 <= i < |hs| ==> OnPath(t, genesis, hs[i], hs[|hs| - 1].hash)
    requires OnPath(t, genesis, hs[0], hs[|hs| - 1].hash)
    requires OnPathBelow(t, genesis, below, hs[|hs| - 1].hash, hs[0].number)
    ensures batch == PathOf(t, genesis, hs[|hs| - 1].hash)
  {
    batch := below;
    for i := 0 to |hs| - 1
      invariant hs[0].number + i <= hs[|hs| - 1].number
      invariant OnPathBelow(t, genesis, batch, hs[|hs| - 1].hash, hs[0].number + i)
    {
      ContiguousNumbers(hs, i);
      ContiguousNumbers(hs, i + 1);
      assert OnPath(t, genesis, hs[i + 1], hs[|hs| - 1].hash);
      assert OnPath(t, genesis, hs[i], hs[|hs| - 1].hash);
      var hash := hs[i + 1].parent;
      batch := batch[hs[i].number := hash];
    }
    ContiguousNumbers(hs, |hs| - 1);
    batch := batch[hs[|hs| - 1].number := hs[|hs| - 1].hash];
  }

  /** A segment built on the head needs no rewriting: the index already follows its parent. */
  lemma ExtendsHead(t: Store, genesis: Hash, first: Hash, top: Hash)
    requires ValidTree(t, genesis) && first in t && top in t && first != genesis
    requires IsAncestor(t, genesis, first, top)
    ensures t[first].parent in t
    ensures OnPathBelow(t, genesis, PathOf(t, genesis, t[first].parent), top, t[first].number)
  {
    assert Linked(t, genesis, first);
    AncestorParent(t, genesis, top, t[first].number);
    forall n: nat | n < t[first].number
      ensures AncestorAt(t, genesis, t[first].parent, n) == AncestorAt(t, genesis, top, n)
    {
      AncestorTrans(t, genesis, top, t[first].number - 1, n);
    }
  }

  /** A non-empty contiguous segment whose headers are all stored. */
  ghost predicate StoredSegment(t: Store, genesis: Hash, hs: seq<Header>) {
    && ValidTree(t, genesis) && Contiguous(hs) && hs != []
    && forall i :: 0 <= i < |hs| ==> hs[i].hash in t && t[hs[i].hash] == hs[i] && hs[i].hash != genesis
  }

  /** Header `x` is the ancestor of `top` at its own height. */
  ghost predicate OnPath(t: Store, genesis: Hash, x: Header, top: Hash)
    requires ValidTree(t, genesis) && top in t
  {
    x.number <= t[top].number && AncestorAt(t, genesis, top, x.number) == x.hash
  }

  /** The headers of a stored segment are the ancestors of its last header. */
  lemma {:induction false} SegmentOnPath(t: Store, genesis: Hash, hs: seq<Header>)
    requires StoredSegment(t, genesis, hs)
    ensures forall i :: 0 <= i < |hs| ==> OnPath(t, genesis, hs[i], hs[|hs| - 1].hash)
  {
    var n := |hs| - 1;
    if n > 0 {
      var init := hs[..n];
      SegmentOnPath(t, genesis, init);
      assert Linked(t, genesis, hs[n].hash);
      forall i | 0 <= i < n
        ensures OnPath(t, genesis, hs[i], hs[n].hash)
      {
        assert OnPath(t, genesis, init[i], init[n - 1].hash);
      }
    }
  }

  /** The header that `hs[i]`, or the end of the segment, builds on. */
  function Parent(hs: seq<Header>, i: nat): (p: Hash)
    requires i <= |hs| && hs != []
  {
    if i == 0 then hs[0].parent else hs[i - 1].hash
  }

  /** A segment that may be written on top of store `t`. */
  ghost predicate Writable(t: Store, genesis: Hash, hs: seq<Header>) {
    && Contiguous(hs) && hs != []
    && (forall i :: 0 <= i < |hs| ==> hs[i].hash != genesis)
    && (forall i :: 0 <= i < |hs| && hs[i].hash in t ==> t[hs[i].hash] == hs[i])
    && hs[0].parent in t && t[hs[0].parent].number + 1 == hs[0].number
  }

  /** The first `i` headers of `hs` have been written to `t0`, the last `n` of them anew. */
  ghost predicate Written(t0: Store, genesis: Hash, t: Store, td: map<Hash, nat>, hs: seq<Header>, i: nat, n: nat) {
    && Writable(t0, genesis, hs) && i <= |hs| && n <= i
    && ValidTree(t0, genesis) && ValidTree(t, genesis) && DifficultiesOf(t, genesis, td)
    && t == StoreAll(t0, hs[..i]) && Extends(t0, t)
    && Parent(hs, i) in t && t[Parent(hs, i)].number + 1 == hs[0].number + i
    && forall j :: 0 <= j < i ==> (hs[j].hash in t0 <==> j < i - n)
  }

  lemma SegmentStored(t0: Store, genesis: Hash, t: Store, td: map<Hash, nat>, hs: seq<Header>, n: nat)
    requires Written(t0, genesis, t, td, hs, |hs|, n)
    ensures StoredSegment(t, genesis, hs)
  {
    assert hs[..|hs|] == hs;
    forall i | 0 <= i < |hs| {
      StoreAllHolds(t0, hs, i);
    }
  }

  lemma WriteStep(t0: Store, genesis: Hash, t: Store, td: map<Hash, nat>, hs: seq<Header>, i: nat, n: nat)
    requires Written(t0, genesis, t, td, hs, i, n) && i < |hs|
    ensures var x := hs[i];
            var td' := td[x.hash := td[Parent(hs, i)] + x.difficulty];
            if n == 0 && x.hash in t
            then Written(t0, genesis, t, td, hs, i + 1, n) && td[x.hash] == td[Parent(hs, i)] + x.difficulty
            else Written(t0, genesis, t[x.hash := x], td', hs, i + 1, n + 1)
  {
    var x := hs[i];
    assert hs[..i + 1][..i] == hs[..i];
    ContiguousNumbers(hs, i);
    StoreAllElsewhere(t0, hs[..i], x.hash);
    if x.hash in t0 {
      assert Linked(t0, genesis, x.hash);
      assert t == t[x.hash := x];
    } else {
      DifficultiesGrow(t, genesis, td, x);
    }
  }
}
