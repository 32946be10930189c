/** A block stays canonical only if it was verified, or published as known. */
module PipelineRejection {
  import opened Wrappers
  import opened HeaderTree
  import opened CanonicalIndex
  import opened Convergence
  import opened NodeOps
  import opened Pipeline
  import opened PipelineBatches
  import opened PipelineInvariant
  import opened PipelineFloor

  function TaskHash(s: State, k: nat): (h: Hash)
    requires Idx(s, k)
  {
    HashOf(s.tasks[k].b)
  }

  /** Task `k` verified the block with hash `h`. */
  predicate Verified(env: Env, s: State, k: nat, h: Hash) {
    ClosedAt(s, k) && TaskHash(s, k) == h && Good(env, s.tasks[k])
  }

  /** Some attempt to verify the block succeeded, or the block was published as known. */
  ghost predicate Cleared(env: Env, s: State, h: Hash) {
    || (exists k: nat {:trigger Verified(env, s, k, h)} :: Verified(env, s, k, h))
    || (exists i {:trigger s.skipped[i]} :: 0 <= i < |s.skipped| && HashOf(s.skipped[i].b) == h)
  }

  /** If the block of task `k` is canonical it is the unsettled head or it is cleared. */
  ghost predicate StandsOk(env: Env, s: State, k: nat)
    requires Idx(s, k)
  {
    Canonical(s.chain, TaskHash(s, k)) ==>
      (Tip(s).Some? && TaskHash(s, k) == s.chain.head) || Cleared(env, s, TaskHash(s, k))
  }

  ghost predicate RejectedOk(env: Env, s: State) {
    forall k: nat {:trigger StandsOk(env, s, k)} :: Idx(s, k) ==> StandsOk(env, s, k)
  }

  /** Later states keep what was verified or skipped. */
  lemma ClearedStays(env: Env, s: State, s': State, h: Hash)
    requires Cleared(env, s, h) && s.skipped <= s'.skipped && |s.tasks| <= |s'.tasks|
    requires forall k: nat {:trigger SameWork(s, s', k)} :: Idx(s, k) ==> SameWork(s, s', k)
    ensures Cleared(env, s', h)
  {
    if k: nat :| Verified(env, s, k, h) {
      assert SameWork(s, s', k);
      assert Verified(env, s', k, h);
    } else {
      var i :| 0 <= i < |s.skipped| && HashOf(s.skipped[i].b) == h;
      assert s'.skipped[i] == s.skipped[i];
    }
  }

  /** The settled head is cleared. */
  ghost predicate HeadCleared(env: Env, s: State) { Tip(s).Some? ==> Cleared(env, s, s.chain.head) }

  /** A step that keeps the tasks and whose canonical blocks were canonical before, or are the
      new unsettled head, or are cleared. */
  lemma StandsOn(env: Env, s: State, s': State, k: nat)
    requires RejectedOk(env, s) && Idx(s, k) && s.skipped <= s'.skipped && |s.tasks| <= |s'.tasks|
    requires forall j: nat {:trigger SameWork(s, s', j)} :: Idx(s, j) ==> SameWork(s, s', j)
    requires Canonical(s'.chain, TaskHash(s, k)) ==>
               || Canonical(s.chain, TaskHash(s, k))
               || (Tip(s').Some? && TaskHash(s, k) == s'.chain.head)
               || Cleared(env, s', TaskHash(s, k))
    requires (Tip(s').Some? && s'.chain.head ==
             s.chain.head) || HeadCleared(env, s) || !Canonical(s'.chain, s.chain.head)
    ensures StandsOk(env, s', k)
  {
    assert SameWork(s, s', k) && StandsOk(env, s, k);
    var h := TaskHash(s, k);
    if Cleared(env, s, h) {
      ClearedStays(env, s, s', h);
    }
  }

  /** Rollback leaves only blocks canonical that were canonical, and not the rolled-back one. */
  lemma RollbackShrinks(c: Node, h: Hash)
    requires ValidNode(c) && c.head != c.genesis
    requires CanRollBack(c, c.head) && Canonical(Rollback(c, c.head), h)
    ensures Canonical(c, h) && h != c.head
  {
    RollbackKeepsValid(c, c.head);
    assert Linked(c.headers, c.genesis, c.head);
    AncestorParent(c.headers, c.genesis, c.head, c.headers[c.head].number);
  }

  lemma RecoverRejected(env: Env, init: View, s: State, k: nat)
    requires Inv(env, init, s) && RejectedOk(env, s) && Tip(s) == Some(k) && CanRollBack(s.chain, TaskHash(s, k))
    ensures RejectedOk(env, Recover(env, s, k))
  {
    var s' := Recover(env, s, k);
    TipRollsBack(env, s);
    forall i: nat | Idx(s', i)
      ensures StandsOk(env, s', i)
    {
      if Canonical(s'.chain, TaskHash(s', i)) {
        RollbackShrinks(s.chain, TaskHash(s, i));
      }
      if Canonical(s'.chain, s.chain.head) {
        RollbackShrinks(s.chain, s.chain.head);
      }
      StandsOn(env, s, s', i);
    }
  }

  /** Publishing the next block, when the old head is settled. */
  lemma WriteHeadCanonical(c: Node, h: Hash, x: Hash)
    requires ValidNode(c) && h in c.headers && h != c.genesis && c.headers[h].parent == c.head
    requires Canonical(WriteHead(c, h), x)
    ensures x == h || Canonical(c, x)
  {
    assert Linked(c.headers, c.genesis, h);
  }

  /** The head is cleared once its task is closed with success. */
  lemma TipCleared(env: Env, init: View, s: State)
    requires Inv(env, init, s) && Tip(s).Some? && ClosedAt(s, Tip(s).value) && !Doomed(env, s)
    ensures Cleared(env, s, s.chain.head)
  {
    assert Verified(env, s, Tip(s).value, s.chain.head);
  }

  /** Publishing keeps every canonical block cleared but the head. */
  lemma PublishRejected(env: Env, s: State, s': State, h: Hash)
    requires ValidNode(s.chain) && RejectedOk(env, s) && HeadCleared(env, s) && ReadyChild(s.chain, h)
    requires CanCrown(s.chain, h) && s'.chain == Crown(s.chain, h)
    requires s'.tasks == s.tasks && s.skipped <= s'.skipped && (Tip(s').Some? || Cleared(env, s', h))
    ensures RejectedOk(env, s')
  {
    CrownsChild(s.chain, h);
    forall i: nat | Idx(s', i)
      ensures StandsOk(env, s', i)
    {
      if Canonical(s'.chain, TaskHash(s, i)) {
        WriteHeadCanonical(s.chain, h, TaskHash(s, i));
      }
      StandsOn(env, s, s', i);
    }
  }

  lemma ExposeRejected(env: Env, init: View, s: State)
    requires Inv(env, init, s) && RejectedOk(env, s) && s.phase.Exposing? && StepEnabled(s)
    ensures RejectedOk(env, NextStep(env, s))
  {
    if Tip(s).Some? {
      assert TaskFine(env, s, Tip(s).value);
      TipCleared(env, init, s);
    }
    PublishRejected(env, s, NextStep(env, s), HashOf(s.rest[0]));
  }

  lemma SkipRejected(env: Env, init: View, s: State)
    requires Inv(env, init, s) && RejectedOk(env, s) && Enabled(s, SkipKnown)
    ensures RejectedOk(env, NextSkip(s))
  {
    var s' := NextSkip(s);
    var h := HashOf(s.rest[0]);
    assert Linked(s.chain.headers, s.chain.genesis, s.chain.genesis);
    assert Cleared(env, s', h) by { assert HashOf(s'.skipped[|s.skipped|].b) == h; }
    PublishRejected(env, s, s', h);
  }

  /** Handing a block to SRC: it is not canonical yet. */
  lemma SpawnRejected(env: Env, init: View, s: State)
    requires Inv(env, init, s) && RejectedOk(env, s) && s.phase.Spawning? && StepEnabled(s)
    ensures RejectedOk(env, NextStep(env, s))
  {
    var s' := NextStep(env, s);
    assert Linked(s.chain.headers, s.chain.genesis, HashOf(s.rest[0]));
    forall i: nat | Idx(s', i)
      ensures StandsOk(env, s', i)
    {
      if Idx(s, i) {
        StandsOn(env, s, s', i);
      }
    }
  }

  /** Steps that neither publish, roll back nor add a task. */
  lemma QuietRejected(env: Env, s: State, s': State)
    requires RejectedOk(env, s) && |s'.tasks| == |s.tasks| && s'.skipped == s.skipped
    requires forall j: nat {:trigger SameWork(s, s', j)} :: Idx(s, j) ==> SameWork(s, s', j)
    requires s'.chain.canon == s.chain.canon && s'.chain.head == s.chain.head
    requires forall k: nat {:trigger TaskHash(s, k)} :: Idx(s, k) && TaskHash(s, k) in s'.chain.headers ==>
               TaskHash(s, k) in s.chain.headers && s'.chain.headers[TaskHash(s, k)] == s.chain.headers[TaskHash(s, k)]
    requires Tip(s').Some? || HeadCleared(env, s)
    ensures RejectedOk(env, s')
  {
    forall i: nat | Idx(s', i)
      ensures StandsOk(env, s', i)
    {
      assert SameWork(s, s', i);
      StandsOn(env, s, s', i);
    }
  }

  lemma StepRejected(env: Env, init: View, s: State)
    requires Inv(env, init, s) && RejectedOk(env, s) && StepEnabled(s)
    ensures RejectedOk(env, NextStep(env, s))
  {
    var s' := NextStep(env, s);
    if s.phase.Collecting? && s.pending.Some? && s.tasks[s.pending.value].col.root.None? {
      RecoverRejected(env, init, s, s.pending.value);
    } else if s.phase.Flushing? && s.tasks[s.phase.k].col.root.None? {
      RecoverRejected(env, init, s, s.phase.k);
    } else if s.phase.Exposing? {
      ExposeRejected(env, init, s);
    } else if s.phase.Spawning? {
      SpawnRejected(env, init, s);
    } else {
      forall k: nat | Idx(s, k)
        ensures TaskHash(s, k) in s.chain.headers
      {
        assert TaskFine(env, s, k);
      }
      if s.phase.Flushing? {
        assert TaskFine(env, s, s.phase.k);
        TipCleared(env, init, s);
      }
      if s.phase.Storing? {
        StoreKeepsChain(s.chain, s.rest[0], s.chain.head);
      }
      StepSame(env, s);
      QuietRejected(env, s, s');
    }
  }

  /** What the remaining steps leave alone. */
  lemma StepSame(env: Env, s: State)
    requires StepEnabled(s) && !s.phase.Exposing? && !s.phase.Spawning?
    requires s.phase.Registering? ==> s.tasks[s.phase.k].col.NotStarted?
    requires s.phase.Storing? ==> Extends(s.chain.headers, StoreBlock(s.chain, s.rest[0]).headers)
    requires !(s.phase.Collecting? && s.pending.Some? && s.tasks[s.pending.value].col.root.None?)
    requires !(s.phase.Flushing? && s.tasks[s.phase.k].col.root.None?)
    ensures var s' := NextStep(env, s);
            && |s'.tasks| == |s.tasks| && s'.skipped == s.skipped
            && s'.chain.canon == s.chain.canon && s'.chain.head == s.chain.head
            && Extends(s.chain.headers, s'.chain.headers)
            && (forall j: nat {:trigger SameWork(s, s', j)} :: Idx(s, j) ==> SameWork(s, s', j))
            && (s.phase.Flushing? || Tip(s') == Tip(s))
  {
  }

  lemma BackgroundWork(s: State, s': State)
    requires Background(s, s')
    ensures forall j: nat {:trigger SameWork(s, s', j)} :: Idx(s, j) ==> SameWork(s, s', j)
  {
    forall j: nat | Idx(s, j)
      ensures SameWork(s, s', j)
    {
      assert SameJob(s, s', j);
    }
  }

  lemma PrunedRejected(env: Env, init: View, s: State, batch: seq<Block>)
    requires Inv(env, init, s) && RejectedOk(env, s) && Enabled(s, OfferPruned(batch))
    ensures RejectedOk(env, NextPruned(env, s, batch))
  {
    var k, s' := s.pending.value, NextPruned(env, s, batch);
    PrunedShape(env, init, s, batch);
    if StoredOn(s, s') {
      StoredRejected(env, s, s');
    } else {
      RecoverRejected(env, init, s, k);
      StoredRejected(env, Recover(env, s, k), s');
    }
  }

  lemma StoredRejected(env: Env, s: State, s': State)
    requires TasksOk(env, s) && RejectedOk(env, s) && StoredOn(s, s')
    ensures RejectedOk(env, s')
  {
    forall k: nat | Idx(s, k)
      ensures TaskHash(s, k) in s.chain.headers && SameWork(s, s', k)
    {
      assert TaskFine(env, s, k);
    }
    QuietRejected(env, s, s');
  }

  lemma RejectedKept(env: Env, init: View, s: State, e: Event)
    requires Inv(env, init, s) && RejectedOk(env, s) && Enabled(s, e) && !e.SkipAbove?
    ensures RejectedOk(env, Next(env, s, e))
  {
    if e.Step? {
      StepRejected(env, init, s);
    } else if e.SkipKnown? {
      SkipRejected(env, init, s);
    } else if e.OfferPruned? {
      PrunedRejected(env, init, s, e.batch);
    } else {
      QuietEventRejected(env, s, e);
    }
  }

  lemma QuietEventRejected(env: Env, s: State, e: Event)
    requires TasksOk(env, s) && RejectedOk(env, s) && Enabled(s, e)
    requires e.Offer? || e.Flush? || e.SrcStep? || e.CollectStep?
    ensures RejectedOk(env, Next(env, s, e))
  {
    var s' := Next(env, s, e);
    if e.SrcStep? {
      assert TaskFine(env, s, e.k);
      SrcResults(env, s, e.k);
      BackgroundWork(s, s');
    } else if e.CollectStep? {
      assert TaskFine(env, s, e.k);
      CollectResults(env, s, e.k);
      BackgroundWork(s, s');
    }
    QuietRejected(env, s, s');
  }

  // ---------- Cleared blocks stay canonical ----------

  /** Block `h` is the unsettled head and will be verified. */
  ghost predicate HeadHolds(env: Env, s: State, h: Hash) {
    Tip(s).Some? && h == s.chain.head && Canonical(s.chain, h) && !Doomed(env, s)
  }

  /** If block `h` is cleared it is canonical, for good. */
  ghost predicate ClearedAt(env: Env, s: State, h: Hash)
    requires s.chain.head in s.chain.headers
  {
    Cleared(env, s, h) ==> Permanent(s, h) || HeadHolds(env, s, h)
  }

  ghost predicate ClearedOk(env: Env, s: State)
    requires s.chain.head in s.chain.headers
  {
    forall h {:trigger ClearedAt(env, s, h)} :: ClearedAt(env, s, h)
  }

  /** A head that will be verified is never rolled back. */
  lemma HeadStays(env: Env, init: View, s: State, e: Event)
    requires Inv(env, init, s) && Enabled(s, e) && !e.SkipAbove? && TipOk(Next(env, s, e))
    requires HeadHolds(env, s, s.chain.head)
    ensures Permanent(Next(env, s, e), s.chain.head) || HeadHolds(env, Next(env, s, e), s.chain.head)
  {
    assert TaskFine(env, s, Tip(s).value);
    if e.Step? {
      StepHolds(env, init, s);
    } else if e.SrcStep? {
      assert TaskFine(env, s, e.k);
      SrcResults(env, s, e.k);
      HoldsOn(env, s, Next(env, s, e));
    } else if e.CollectStep? {
      assert TaskFine(env, s, e.k);
      CollectResults(env, s, e.k);
      HoldsOn(env, s, Next(env, s, e));
    } else if e.OfferPruned? {
      PrunedIsDoomed(env, init, s, e.batch);
    }
  }

  lemma HoldsOn(env: Env, s: State, s': State)
    requires Background(s, s') && TipOk(s) && HeadHolds(env, s, s.chain.head)
    ensures HeadHolds(env, s', s.chain.head)
  {
    assert SameJob(s, s', Tip(s).value);
  }

  /** The head and the task behind it stay the same. */
  lemma HeadSame(env: Env, s: State, s': State)
    requires TipOk(s) && HeadHolds(env, s, s.chain.head) && Tip(s') == Tip(s) && Idx(s', Tip(s).value)
    requires SameWork(s, s', Tip(s).value) && SameMarkers(s.chain, s'.chain)
    ensures HeadHolds(env, s', s.chain.head)
  {
  }

  lemma StepHolds(env: Env, init: View, s: State)
    requires Inv(env, init, s) && StepEnabled(s) && TipOk(NextStep(env, s)) && HeadHolds(env, s, s.chain.head)
    ensures Permanent(NextStep(env, s), s.chain.head) || HeadHolds(env, NextStep(env, s), s.chain.head)
  {
    if s.phase.Exposing? {
      ExposeHolds(env, s);
    } else if s.phase.Spawning? {
      SpawnHolds(env, s);
    } else {
      HoldFacts(env, init, s);
      WaitHolds(env, s);
    }
  }

  lemma HoldFacts(env: Env, init: View, s: State)
    requires Inv(env, init, s) && StepEnabled(s) && HeadHolds(env, s, s.chain.head)
    ensures !RollsBack(s) && (s.phase.Registering? ==> s.tasks[s.phase.k].col.NotStarted?)
    ensures s.phase.Storing? ==> Extends(s.chain.headers, StoreBlock(s.chain, s.rest[0]).headers)
  {
    assert TaskFine(env, s, Tip(s).value);
    if s.phase.Storing? {
      StoreKeepsChain(s.chain, s.rest[0], s.chain.head);
    }
  }

  lemma SpawnHolds(env: Env, s: State)
    requires TipOk(s) && StepEnabled(s) && s.phase.Spawning? && HeadHolds(env, s, s.chain.head)
    ensures HeadHolds(env, NextStep(env, s), s.chain.head)
  {
    HeadSame(env, s, NextStep(env, s));
  }

  /** Steps that neither publish nor start anything. */
  lemma WaitHolds(env: Env, s: State)
    requires TipOk(s) && StepEnabled(s) && TipOk(NextStep(env, s)) && HeadHolds(env, s, s.chain.head) && !RollsBack(s)
    requires !s.phase.Exposing? && !s.phase.Spawning?
    requires s.phase.Registering? ==> s.tasks[s.phase.k].col.NotStarted?
    requires s.phase.Storing? ==> Extends(s.chain.headers, StoreBlock(s.chain, s.rest[0]).headers)
    ensures Permanent(NextStep(env, s), s.chain.head) || HeadHolds(env, NextStep(env, s), s.chain.head)
  {
    var s' := NextStep(env, s);
    StepSame(env, s);
    StepMarkers(env, s);
    if !s.phase.Flushing? {
      assert SameWork(s, s', Tip(s).value);
      HeadSame(env, s, s');
    }
  }

  lemma StepMarkers(env: Env, s: State)
    requires StepEnabled(s) && s.chain.head in s.chain.headers && !s.phase.Exposing? && !RollsBack(s)
    requires s.phase.Storing? ==> Extends(s.chain.headers, StoreBlock(s.chain, s.rest[0]).headers)
    ensures SameMarkers(s.chain, NextStep(env, s).chain)
  {
  }

  lemma ExposeHolds(env: Env, s: State)
    requires ValidNode(s.chain) && TipOk(s) && StepEnabled(s) && s.phase.Exposing? && Canonical(s.chain, s.chain.head)
    requires StoredNext(s.chain, s.rest[0])
    ensures NextStep(env, s).chain.head in NextStep(env, s).chain.headers
    ensures Permanent(NextStep(env, s), s.chain.head)
  {
    CrownsChild(s.chain, HashOf(s.rest[0]));
    assert Linked(s.chain.headers, s.chain.genesis, HashOf(s.rest[0]));
  }

  /** Task `k` was closed with the same job before. */
  predicate ClosedBefore(s: State, s': State, k: nat) {
    ClosedAt(s', k) ==>
      && ClosedAt(s, k) && s'.tasks[k].b == s.tasks[k].b && s'.tasks[k].diff == s.tasks[k].diff
      && s'.tasks[k].base == s.tasks[k].base && s'.tasks[k].attempt == s.tasks[k].attempt
  }

  /** No further task is closed and no further block was skipped. */
  ghost predicate NoNews(s: State, s': State) {
    s'.skipped == s.skipped && forall k: nat {:trigger ClosedBefore(s, s', k)} :: ClosedBefore(s, s', k)
  }

  lemma NoNewsClears(env: Env, s: State, s': State, h: Hash)
    requires NoNews(s, s') && Cleared(env, s', h)
    ensures Cleared(env, s, h)
  {
    if k: nat :| Verified(env, s', k, h) {
      assert ClosedBefore(s, s', k);
      assert Verified(env, s, k, h);
    } else {
      var i :| 0 <= i < |s'.skipped| && HashOf(s'.skipped[i].b) == h;
      assert s.skipped[i] == s'.skipped[i];
    }
  }

  lemma StepNews(env: Env, s: State)
    requires StepEnabled(s)
    ensures NoNews(s, NextStep(env, s))
  {
    if s.phase.Spawning? || s.phase.Registering? {
      TaskNews(env, s);
    } else {
      StepFrame(env, s);
    }
  }

  /** Starting or registering a task closes none. */
  lemma TaskNews(env: Env, s: State)
    requires StepEnabled(s) && (s.phase.Spawning? || s.phase.Registering?)
    ensures NoNews(s, NextStep(env, s))
  {
  }

  lemma StepFrame(env: Env, s: State)
    requires StepEnabled(s) && !s.phase.Spawning? && !s.phase.Registering?
    ensures NextStep(env, s).tasks == s.tasks && NextStep(env, s).skipped == s.skipped
  {
  }

  lemma PrunedNews(env: Env, s: State, batch: seq<Block>)
    requires Enabled(s, OfferPruned(batch))
    ensures NoNews(s, NextPruned(env, s, batch))
  {
    PrunedFrame(env, s, batch);
  }

  lemma PrunedFrame(env: Env, s: State, batch: seq<Block>)
    requires Enabled(s, OfferPruned(batch))
    ensures NextPruned(env, s, batch).tasks == s.tasks && NextPruned(env, s, batch).skipped == s.skipped
  {
    RecoverFrame(env, s, s.pending.value);
  }

  lemma RecoverFrame(env: Env, s: State, k: nat)
    requires Idx(s, k) && CanRollBack(s.chain, HashOf(s.tasks[k].b))
    ensures Recover(env, s, k).tasks == s.tasks && Recover(env, s, k).skipped == s.skipped
  {
  }

  lemma QuietNews(env: Env, s: State, e: Event)
    requires Enabled(s, e) && (e.Offer? || e.Flush? || e.SrcStep?)
    ensures NoNews(s, Next(env, s, e))
  {
  }

  /** A collector that closes its task clears at most the block of that task. */
  lemma CollectNews(env: Env, s: State, k: nat, h: Hash)
    requires Enabled(s, CollectStep(k)) && Cleared(env, NextCollect(env, s, k), h) && !Cleared(env, s, h)
    ensures TaskHash(s, k) == h && Good(env, s.tasks[k])
  {
    var s' := NextCollect(env, s, k);
    if j: nat :| Verified(env, s', j, h) {
      assert !Verified(env, s, j, h);
    }
  }

  lemma SkipNews(env: Env, s: State, h: Hash)
    requires Enabled(s, SkipKnown) && Cleared(env, NextSkip(s), h) && h != HashOf(s.rest[0])
    ensures Cleared(env, s, h)
  {
    var s' := NextSkip(s);
    if k: nat :| Verified(env, s', k, h) {
      assert Verified(env, s, k, h);
    } else {
      var i :| 0 <= i < |s'.skipped| && HashOf(s'.skipped[i].b) == h;
      assert s.skipped[i] == s'.skipped[i];
    }
  }

  /** What an event clears: a known block that it publishes, or the head if it closes the head's
      collector with success. */
  lemma NewlyCleared(env: Env, init: View, s: State, e: Event, h: Hash)
    requires Inv(env, init, s) && Enabled(s, e) && !e.SkipAbove? && Cleared(env, Next(env, s, e), h)
    requires !Cleared(env, s, h)
    ensures (e.SkipKnown? && h == HashOf(s.rest[0])) || HeadHolds(env, s, h)
  {
    if e.CollectStep? {
      CollectNews(env, s, e.k, h);
      CollectCleared(env, s, e.k);
    } else if e.SkipKnown? {
      if h != HashOf(s.rest[0]) {
        SkipNews(env, s, h);
      }
    } else {
      EventNews(env, s, e);
      NoNewsClears(env, s, Next(env, s, e), h);
    }
  }

  lemma EventNews(env: Env, s: State, e: Event)
    requires Enabled(s, e) && !e.CollectStep? && !e.SkipKnown? && !e.SkipAbove?
    ensures NoNews(s, Next(env, s, e))
  {
    if e.Step? {
      StepNews(env, s);
    } else if e.OfferPruned? {
      PrunedNews(env, s, e.batch);
    } else {
      QuietNews(env, s, e);
    }
  }

  /** A collector works only for the head. */
  lemma CollectCleared(env: Env, s: State, k: nat)
    requires ValidNode(s.chain) && TipOk(s) && TasksOk(env, s) && Enabled(s, CollectStep(k))
    requires s.phase.Exposing? ==> s.tasks[s.phase.k].col.NotStarted?
    ensures Tip(s) == Some(k) && TaskHash(s, k) == s.chain.head && Canonical(s.chain, s.chain.head)
  {
    assert TaskFine(env, s, k);
  }

  /** Every cleared block is canonical and stays so. */
  lemma ClearedKept(env: Env, init: View, s: State, e: Event)
    requires Inv(env, init, s) && ClearedOk(env, s) && Enabled(s, e) && !e.SkipAbove?
    requires ValidNode(Next(env, s, e).chain) && TipOk(Next(env, s, e))
    ensures ClearedOk(env, Next(env, s, e))
  {
    var s' := Next(env, s, e);
    forall h
      ensures ClearedAt(env, s', h)
    {
      if Cleared(env, s', h) {
        assert ClearedAt(env, s, h);
        if !Cleared(env, s, h) {
          NewlyCleared(env, init, s, e, h);
        }
        if Permanent(s, h) {
          PermanentStays(env, init, s, e, h);
        } else if HeadHolds(env, s, h) {
          HeadStays(env, init, s, e);
        } else {
          SkipClears(env, init, s);
        }
      }
    }
  }

  lemma SkipClears(env: Env, init: View, s: State)
    requires Inv(env, init, s) && Enabled(s, SkipKnown) && TipOk(NextSkip(s))
    ensures Permanent(NextSkip(s), HashOf(s.rest[0]))
  {
    assert Linked(s.chain.headers, s.chain.genesis, s.chain.genesis);
    CrownsChild(s.chain, HashOf(s.rest[0]));
  }
}
