/** The transaction indexer: which heights keep lookup entries below the head (core/txindexer.go,
    core/rawdb/chain_iterator.go). */
module TxIndexer {
  import opened Wrappers
  import opened Naturals

  function Range(from: nat, end: nat): (r: set<nat>)
    ensures forall h: nat :: h in r <==> from <= h < end
  {
    if end <= from then {} else Range(from, end - 1) + {end - 1}
  }

  function Numbers(s: seq<nat>): (r: set<nat>) { set h | h in s }

  /** What the concurrent reader may deliver: heights of the range, each at most once, in any
      order; fewer than all of them when it is interrupted. */
  predicate Deliverable(s: seq<nat>, from: nat, end: nat) {
    (forall i :: 0 <= i < |s| ==> from <= s[i] < end) && (forall i, j :: 0 <= i < j < |s| ==> s[i] != s[j])
  }

  predicate Everything(s: seq<nat>, from: nat, end: nat) { Range(from, end) <= Numbers(s) }

  // ---------- Processing deliveries in order ----------

  predicate IsTop(s: set<nat>, m: nat, largest: bool) {
    m in s && forall x :: x in s ==> if largest then x <= m else m <= x
  }

  lemma {:induction false} HasTop(s: set<nat>, largest: bool) returns (m: nat)
    requires s != {}
    ensures IsTop(s, m, largest)
    decreases |s|
  {
    var x :| x in s;
    if s == {x} {
      m := x;
    } else {
      var rest := s - {x};
      m := HasTop(rest, largest);
      assert forall y :: y in s ==> y == x || y in rest;
      if if largest then x > m else x < m {
        m := x;
      }
    }
  }

  /** The element a priority queue of heights pops first. */
  method Peek(queue: set<nat>, largest: bool) returns (top: nat)
    requires queue != {}
    ensures IsTop(queue, top, largest)
  {
    ghost var m := HasTop(queue, largest);
    top :| IsTop(queue, top, largest);
  }

  /** A database write: the tail flag and the heights covered by all writes so far. */
  datatype Write = Write(tail: nat, covered: set<nat>)

  /** Downwards from `end`, the delivered heights reach exactly as far as `tail`. */
  predicate ReachesDown(got: set<nat>, from: nat, end: nat, tail: nat) {
    from <= tail <= end && Range(tail, end) <= got && (tail > 0 ==> tail - 1 !in got)
  }

  /** Upwards from `from`, the delivered heights reach exactly as far as `tail`. */
  predicate ReachesUp(got: set<nat>, from: nat, end: nat, tail: nat) {
    from <= tail <= end && Range(from, tail) <= got && tail !in got
  }

  /** Moves contiguous heights below `last` from the queue to the batch. */
  method DrainDown(got: set<nat>, from: nat, end: nat, pending: set<nat>, start: nat, written: set<nat>,
                   flushAt: set<nat>, before: seq<Write>)
    returns (last: nat, queue: set<nat>, indexed: set<nat>, writes: seq<Write>)
    requires from <= start <= end && got <= Range(from, end) && Range(start, end) <= got
    requires pending == got - Range(start, end) && written == Range(start, end)
    requires forall w :: w in before ==> w.covered == Range(w.tail, end)
    ensures ReachesDown(got, from, end, last) && queue == got - Range(last, end) && indexed == Range(last, end)
    ensures forall w :: w in writes ==> w.covered == Range(w.tail, end)
  {
    last, queue, indexed, writes := start, pending, written, before;
    while queue != {}
      invariant from <= last <= end && Range(last, end) <= got && queue == got - Range(last, end)
      invariant indexed == Range(last, end)
      invariant forall w :: w in writes ==> w.covered == Range(w.tail, end)
      decreases last
    {
      var top := Peek(queue, true);
      if top != last - 1 {
        break;
      }
      queue := queue - {top};
      last := top;
      indexed := indexed + {top};
      if top in flushAt {
        writes := writes + [Write(last, indexed)];
      }
    }
    assert last > 0 && last - 1 in got ==> last - 1 in queue;
  }

  /** Indexes downwards: whatever the order of delivery, the final tail is where the delivered
      heights stop being contiguous, and every write covers exactly the heights from its tail. */
  method IndexTransactions(from: nat, end: nat, deliveries: seq<nat>, flushAt: set<nat>)
    returns (tail: nat, writes: seq<Write>)
    requires from < end && Deliverable(deliveries, from, end)
    ensures ReachesDown(Numbers(deliveries), from, end, tail)
    ensures Everything(deliveries, from, end) ==> tail == from
    ensures writes != [] && writes[|writes| - 1].tail == tail
    ensures forall w :: w in writes ==> w.covered == Range(w.tail, end)
  {
    var queue: set<nat>, indexed: set<nat> := {}, {};
    tail, writes := end, [];
    for i := 0 to |deliveries|
      invariant ReachesDown(Numbers(deliveries[..i]), from, end, tail)
      invariant queue == Numbers(deliveries[..i]) - Range(tail, end) && indexed == Range(tail, end)
      invariant forall w :: w in writes ==> w.covered == Range(w.tail, end)
    {
      assert Numbers(deliveries[..i + 1]) == Numbers(deliveries[..i]) + {deliveries[i]};
      tail, queue, indexed, writes := DrainDown(Numbers(deliveries[..i + 1]), from, end, queue + {deliveries[i]},
                                                tail, indexed, flushAt, writes);
    }
    assert deliveries[..|deliveries|] == deliveries;
    writes := writes + [Write(tail, indexed)];
  }

  method DrainUp(got: set<nat>, from: nat, end: nat, pending: set<nat>, start: nat, written: set<nat>,
                 flushAt: set<nat>, before: seq<Write>)
    returns (next: nat, queue: set<nat>, removed: set<nat>, writes: seq<Write>)
    requires from <= start <= end && got <= Range(from, end) && Range(from, start) <= got
    requires pending == got - Range(from, start) && written == Range(from, start)
    requires forall w :: w in before ==> w.covered == Range(from, w.tail)
    ensures ReachesUp(got, from, end, next) && queue == got - Range(from, next) && removed == Range(from, next)
    ensures forall w :: w in writes ==> w.covered == Range(from, w.tail)
  {
    next, queue, removed, writes := start, pending, written, before;
    while queue != {}
      invariant from <= next <= end && Range(from, next) <= got && queue == got - Range(from, next)
      invariant removed == Range(from, next)
      invariant forall w :: w in writes ==> w.covered == Range(from, w.tail)
      decreases end - next
    {
      var top := Peek(queue, false);
      if top != next {
        break;
      }
      queue := queue - {top};
      next := top + 1;
      removed := removed + {top};
      if top in flushAt {
        writes := writes + [Write(next, removed)];
      }
    }
    assert next in got ==> next in queue;
  }

  /** Removes entries upwards; the mirror image of indexing. */
  method UnindexTransactions(from: nat, end: nat, deliveries: seq<nat>, flushAt: set<nat>)
    returns (tail: nat, writes: seq<Write>)
    requires from < end && Deliverable(deliveries, from, end)
    ensures ReachesUp(Numbers(deliveries), from, end, tail)
    ensures Everything(deliveries, from, end) ==> tail == end
    ensures writes != [] && writes[|writes| - 1].tail == tail
    ensures forall w :: w in writes ==> w.covered == Range(from, w.tail)
  {
    var queue: set<nat>, removed: set<nat> := {}, {};
    tail, writes := from, [];
    for i := 0 to |deliveries|
      invariant ReachesUp(Numbers(deliveries[..i]), from, end, tail)
      invariant queue == Numbers(deliveries[..i]) - Range(from, tail) && removed == Range(from, tail)
      invariant forall w :: w in writes ==> w.covered == Range(from, w.tail)
    {
      assert Numbers(deliveries[..i + 1]) == Numbers(deliveries[..i]) + {deliveries[i]};
      tail, queue, removed, writes := DrainUp(Numbers(deliveries[..i + 1]), from, end, queue + {deliveries[i]},
                                              tail, removed, flushAt, writes);
    }
    assert deliveries[..|deliveries|] == deliveries;
    writes := writes + [Write(tail, removed)];
  }

  // ---------- The indexer ----------

  /** The lowest height to keep indexed: the last `limit` blocks, all of them for zero, and
      nothing below the cutoff. */
  function WindowStart(limit: nat, cutoff: nat, head: nat): (r: nat) {
    Max(if limit != 0 && head >= limit then head - limit + 1 else 0, cutoff)
  }

  /** The window holds exactly the heights up to the head that are not below the cutoff and, with a
      limit, are among the last `limit`. */
  lemma WindowExact(limit: nat, cutoff: nat, head: nat, n: nat)
    ensures WindowStart(limit, cutoff, head) <= n <= head <==>
              cutoff <= n <= head && (limit == 0 || head - n < limit)
    ensures limit > 0 && cutoff == 0 && limit <= head + 1 ==>
              |Range(WindowStart(limit, cutoff, head), head + 1)| == limit
  {
    RangeSize(WindowStart(limit, cutoff, head), head + 1);
  }

  lemma {:induction false} RangeSize(from: nat, end: nat)
    ensures |Range(from, end)| == if from <= end then end - from else 0
    decreases end
  {
    if from < end {
      RangeSize(from, end - 1);
      assert Range(from, end) == Range(from, end - 1) + {end - 1};
    } else {
      assert Range(from, end) == {};
    }
  }

  /** What the background reader delivers for each task; `complete` when it is never interrupted. */
  datatype Reader = Reader(deliver: (nat, nat) -> seq<nat>, flushAt: set<nat>) {
    ghost predicate Valid() { forall from: nat, end: nat :: Deliverable(deliver(from, end), from, end) }
    ghost predicate Complete() { forall from: nat, end: nat :: Everything(deliver(from, end), from, end) }
  }

  /** The indexer's configuration and what its database holds. */
  class Indexer {
    const limit: nat
    const stateless: bool
    const offset: nat          // first height of the ancient store that is not pruned
    var cutoff: nat
    var tail: Option<nat>      // the tail flag in the database
    var blocks: set<nat>       // heights whose transactions have lookup entries

    constructor (limit: nat, stateless: bool, offset: nat, cutoff: nat, tail: Option<nat>, blocks: set<nat>)
      ensures this.limit == limit && this.stateless == stateless && this.offset == offset
      ensures this.cutoff == cutoff && this.tail == tail && this.blocks == blocks
    {
      this.limit, this.stateless, this.offset := limit, stateless, offset;
      this.cutoff, this.tail, this.blocks := cutoff, tail, blocks;
    }

    /** Every height from the tail to the head is indexed, and nothing above the head. */
    ghost predicate Sound(head: nat)
      reads this
    {
      blocks <= Range(0, head + 1) &&
      (tail.Some? ==> tail.value <= head + 1 && Range(tail.value, head + 1) <= blocks)
    }

    /** The indexed heights are exactly those from the tail to the head. */
    ghost predicate Exact(head: nat)
      reads this
    {
      Sound(head) && tail.Some? && blocks == Range(tail.value, head + 1)
    }

    /** Importing a canonical block indexes it. */
    method Import(head: nat)
      requires Sound(head)
      modifies this`blocks
      ensures Sound(head + 1) && (old(Exact(head)) ==> Exact(head + 1))
    {
      blocks := blocks + {head + 1};
    }

    method IndexDown(low: nat, end: nat, head: nat, reader: Reader)
      requires reader.Valid() && end <= head + 1
      requires Sound(head) && (if tail.Some? then tail.value == end else end == head + 1)
      modifies this`tail, this`blocks
      ensures Sound(head)
      ensures Max(low, offset) >= end ==> tail == old(tail) && blocks == old(blocks)
      ensures Max(low, offset) < end ==> tail.Some? && Max(low, offset) <= tail.value <= end &&
                                         blocks == old(blocks) + Range(tail.value, end)
      ensures Max(low, offset) < end && reader.Complete() ==> tail.value == Max(low, offset)
      ensures old(Exact(head)) ==> Exact(head)
    {
      var from := Max(low, offset);
      if from >= end {
        return;
      }
      assert Deliverable(reader.deliver(from, end), from, end);
      assert reader.Complete() ==> Everything(reader.deliver(from, end), from, end);
      var t, writes := IndexTransactions(from, end, reader.deliver(from, end), reader.flushAt);
      var last := writes[|writes| - 1];
      assert last in writes;
      tail, blocks := Some(last.tail), blocks + last.covered;
    }

    method UnindexUp(end: nat, head: nat, reader: Reader)
      requires reader.Valid() && Sound(head) && tail.Some? && tail.value <= end <= head + 1
      modifies this`tail, this`blocks
      ensures Sound(head) && tail.Some?
      ensures var from := Max(old(tail).value, offset);
        if from >= end then tail == old(tail) && blocks == old(blocks)
        else from <= tail.value <= end && blocks == old(blocks) - Range(from, tail.value) &&
             (reader.Complete() ==> tail.value == end)
      ensures old(Exact(head)) ==> (Exact(head) <==> !(old(tail).value < offset < end))
    {
      var from := Max(tail.value, offset);
      if from >= end {
        return;
      }
      assert Deliverable(reader.deliver(from, end), from, end);
      assert reader.Complete() ==> Everything(reader.deliver(from, end), from, end);
      var t, writes := UnindexTransactions(from, end, reader.deliver(from, end), reader.flushAt);
      var last := writes[|writes| - 1];
      assert last in writes;
      tail, blocks := Some(last.tail), blocks - last.covered;
      assert old(Exact(head)) ==> old(tail).value in old(blocks);
    }

    /** No tail below the cutoff. */
    ghost predicate Aligned()
      reads this
    {
      tail.Some? ==> cutoff <= tail.value
    }

    /** The tail a task starts from: in stateless mode it is first lifted to the cutoff. */
    function Lifted(): (r: Option<nat>)
      reads this
    {
      if stateless && tail.Some? && tail.value < cutoff then Some(cutoff) else tail
    }

    /** Moves an existing tail down or up to the window. */
    method Adjust(head: nat, reader: Reader)
      requires reader.Valid() && Sound(head) && tail.Some? && cutoff <= tail.value && head > 0 && cutoff <= head
      modifies this`tail, this`blocks
      ensures Sound(head) && tail.Some? && cutoff <= tail.value
      ensures var start, t := WindowStart(limit, cutoff, head), old(tail).value;
        && (reader.Complete() ==> (tail == Some(start) <==>
            offset < start || t == start || (offset == start && start < t)))
        && (old(Exact(head)) ==> (Exact(head) <==> !(t < offset < start)))
      ensures forall h :: h in old(blocks) && h < cutoff ==> h in blocks
    {
      if limit == 0 || head < limit {
        if tail.value > 0 {
          IndexDown(Max(0, cutoff), tail.value, head, reader);
        }
        return;
      }
      var from := Max(head - limit + 1, cutoff);
      if from < tail.value {
        IndexDown(from, tail.value, head, reader);
      } else {
        UnindexUp(from, head, reader);
      }
    }

    /** One indexing task. Interrupted or not, it keeps the index sound. An uninterrupted task
        ends at the configured window unless pruned ancients stand in the way; an exact index
        stays exact unless a tail was lifted or the blocks to unindex are pruned. */
    method Run(head: nat, pruned: nat, reader: Reader)
      requires reader.Valid() && Sound(head) && (!stateless ==> Aligned())
      modifies this
      ensures cutoff == (if stateless then pruned else old(cutoff))
      ensures Sound(head) && (!stateless ==> Aligned())
      ensures head == 0 || head < cutoff ==> tail == old(tail) && blocks == old(blocks)
      ensures head > 0 && head >= cutoff ==>
        var start := WindowStart(limit, cutoff, head);
        var before := if stateless && old(tail).Some? then Some(Max(old(tail).value, cutoff)) else old(tail);
        && Aligned()
        && (reader.Complete() ==> (tail == Some(start) <==>
              offset < start || before == Some(start) ||
              (offset == start && !(before.Some? && before.value < start))))
        && (old(Exact(head)) ==> (Exact(head) <==> before == old(tail) && !(before.value < offset < start)))
        && (old(tail).None? ==> blocks == old(blocks) + (if tail.Some? then Range(tail.value, head + 1) else {}))
    {
      if stateless {
        cutoff := pruned;
      }
      if head == 0 || head < cutoff {
        return;
      }
      if tail.None? {
        var from := if limit != 0 && head >= limit then head - limit + 1 else 0;
        IndexDown(Max(from, cutoff), head + 1, head, reader);
        return;
      }
      tail := Lifted();
      Adjust(head, reader);
      assert tail.value >= cutoff;
      if old(Exact(head)) && old(tail).value < cutoff {
        assert old(tail).value in blocks;
      }
    }

    /** At startup: drops an index above the head or entirely below the cutoff, and trims one
        that starts below the cutoff. */
    method Repair(head: nat)
      requires tail.Some? && tail.value <= head ==> Sound(head)
      requires tail.None? ==> Sound(head)
      modifies this`tail, this`blocks
      ensures Sound(head) && Aligned()
      ensures tail.Some? <==> old(tail).Some? && old(tail).value <= head && cutoff <= head
      ensures tail.Some? ==> tail.value == Max(old(tail).value, cutoff) <= head
      ensures old(tail).Some? && tail.None? ==> blocks == {}
      ensures old(Exact(head)) && tail.Some? ==> Exact(head)
    {
      if tail.None? {
        return;
      }
      if tail.value > head || head < cutoff {
        tail, blocks := None, {};
        return;
      }
      if tail.value < cutoff {
        tail, blocks := Some(cutoff), set h | h in blocks && h >= cutoff;
      }
    }
  }

  // ---------- Progress ----------

  const U64: nat := 0x1_0000_0000_0000_0000

  datatype Progress = Progress(indexed: nat, remaining: nat)

  /** The reported progress, in wrapping 64-bit arithmetic. */
  function Report(limit: nat, cutoff: nat, head: nat, tail: Option<nat>): (r: Progress)
    requires head < U64 - 1
  {
    if head < cutoff then Progress(0, 0)
    else
      var wanted := if limit == 0 || limit > head then head + 1 else limit;
      var length := head - cutoff + 1;
      var total := if wanted > length then length else wanted;
      var indexed := match tail case None => 0 case Some(t) => (head - t + 1) % U64;
      Progress(indexed, if indexed < total then total - indexed else 0)
  }

  /** Below the cutoff nothing is reported. With a tail at most one above the head the report is
      right: nothing remains exactly when the window is indexed, and what remains is the part of the
      window below the tail. Above that the count of indexed blocks wraps and nothing is ever
      reported to remain. */
  lemma ReportIsExact(limit: nat, cutoff: nat, head: nat, tail: Option<nat>)
    requires head < U64 - 1 && (tail.Some? ==> tail.value < U64)
    ensures head < cutoff ==> Report(limit, cutoff, head, tail) == Progress(0, 0)
    ensures cutoff <= head ==>
      var r := Report(limit, cutoff, head, tail);
      var start := WindowStart(limit, cutoff, head);
      && (tail.None? ==> r == Progress(0, head + 1 - start))
      && (tail.Some? && tail.value <= head + 1 ==>
            r.indexed == head + 1 - tail.value && r.remaining == Max(tail.value, start) - start)
      && (tail.Some? && tail.value > head + 1 ==> r == Progress(U64 + head + 1 - tail.value, 0))
  {
    if tail.Some? && tail.value > head + 1 {
      assert (head - tail.value + 1) + U64 == (head - tail.value + 1) % U64;
    }
  }
}
