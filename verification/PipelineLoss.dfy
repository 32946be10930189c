/** When a rollback takes the state of its block's parent along. */
module PipelineLoss {
  import opened Wrappers
  import opened HeaderTree
  import opened CanonicalIndex
  import opened NodeOps
  import opened Pipeline
  import opened PipelineInvariant

  /** Rolling back task `k` would give up the last reference to the state of its block's parent:
      SRC computed that very state, it is not on disk, and at most one reference is held. */
  predicate WouldDrop(env: Env, s: State, k: nat)
    requires Idx(s, k)
  {
    var t := s.tasks[k];
    && env.hashScheme && t.base.Of? && SrcState(t) == Some(t.base.world)
    && t.base.world !in s.disk && s.refs[t.base.world] <= 1
  }

  /** The logged rollback did so. */
  predicate Dropped(env: Env, s: State, f: Freed) {
    && env.hashScheme && Idx(s, f.k) && s.tasks[f.k].base.Of?
    && SrcState(s.tasks[f.k]) == Some(s.tasks[f.k].base.world) && !f.onDisk && f.refs <= 1
  }

  ghost predicate HeadLost(env: Env, s: State) {
    exists i {:trigger s.freed[i]} :: 0 <= i < |s.freed| && Dropped(env, s, s.freed[i])
  }

  /** Rolled-back tasks are finished. */
  ghost predicate FreedOk(s: State) {
    forall i {:trigger s.freed[i]} :: 0 <= i < |s.freed| ==> ClosedAt(s, s.freed[i].k)
  }

  /** The state of a settled head is missing exactly if a rollback took it along, and then no
      overlay stands in for it. */
  ghost predicate LossOk(env: Env, s: State)
    requires s.chain.head in s.chain.headers
  {
    && FreedOk(s) && (HeadLost(env, s) ==> s.overlay == None)
    && (HeadLost(env, s) <==> Tip(s).None? && !IsCommitted(s, s.chain.headers[s.chain.head].root))
  }

  /** Giving up a reference undoes taking it, and does nothing to a state on disk. */
  lemma HoldThenRelease(env: Env, s: State, w: World)
    requires env.hashScheme && w in s.committed && w !in s.disk
    ensures Hold(env, s, w).committed == s.committed
    ensures env.archive ==> Release(Hold(env, s, w), w) == Hold(env, s, w) && w in Hold(env, s, w).disk
    ensures !env.archive ==>
              var s' := Release(Hold(env, s, w), w);
              && s'.refs == s.refs && s'.disk == s.disk
              && s'.committed == if s.refs[w] > 0 then s.committed else s.committed - {w}
  {
    assert s.refs + multiset{w} - multiset{w} == s.refs;
  }

  /** None of the steps modelled here applies to a node that lost the state of its head. The node
      itself can recompute the state by importing the head again, which is not modelled. */
  lemma LostIsFinal(env: Env, init: View, s: State, e: Event)
    requires Inv(env, init, s) && LossOk(env, s) && HeadLost(env, s)
    ensures !Enabled(s, e)
  {
    if (e.SrcStep? || e.CollectStep?) && Idx(s, e.k) {
      assert TaskFine(env, s, e.k);
    }
  }

  /** Steps that give up no reference and leave a committed state at the head. */
  lemma LossKept(env: Env, s: State, s': State)
    requires s.chain.head in s.chain.headers && LossOk(env, s) && !HeadLost(env, s)
    requires s'.chain.head in s'.chain.headers && s'.freed == s.freed && |s.tasks| <= |s'.tasks|
    requires forall k: nat {:trigger SameWork(s, s', k)} :: Idx(s, k) ==> SameWork(s, s', k)
    requires Tip(s').None? ==> IsCommitted(s', s'.chain.headers[s'.chain.head].root)
    ensures LossOk(env, s')
  {
    forall i | 0 <= i < |s'.freed|
      ensures ClosedAt(s', s'.freed[i].k) && !Dropped(env, s', s'.freed[i])
    {
      assert ClosedAt(s, s.freed[i].k) && SameWork(s, s', s.freed[i].k);
      assert !Dropped(env, s, s.freed[i]);
    }
  }

  /** Under the hash scheme the rollback loses the head's state exactly if it would drop it. */
  lemma RecoverLoss(env: Env, s: State, k: nat)
    requires s.chain.head in s.chain.headers && LossOk(env, s) && Tip(s) == Some(k) && ClosedAt(s, k)
    requires CanRollBack(s.chain, HashOf(s.tasks[k].b)) && IsCommitted(s, s.tasks[k].base)
    requires s.chain.headers[s.chain.headers[HashOf(s.tasks[k].b)].parent].root == s.tasks[k].base
    ensures Recover(env, s, k).chain.head in Recover(env, s, k).chain.headers
    ensures LossOk(env, Recover(env, s, k))
    ensures HeadLost(env, Recover(env, s, k)) <==> WouldDrop(env, s, k)
  {
    var s' := Recover(env, s, k);
    assert forall i :: 0 <= i < |s.freed| ==> s'.freed[i] == s.freed[i] && !Dropped(env, s, s.freed[i]);
    if |s'.freed| > |s.freed| {
      assert Dropped(env, s', s'.freed[|s.freed|]) <==> WouldDrop(env, s, k);
    }
  }

  /** The other steps of the importer. */
  lemma ForwardLoss(env: Env, s: State)
    requires TipOk(s) && LossOk(env, s) && StepEnabled(s) && TipOk(NextStep(env, s))
    requires !(s.phase.Collecting? && s.pending.Some? && s.tasks[s.pending.value].col.root.None?)
    requires s.phase.Flushing? ==>
               s.tasks[s.phase.k].col.root.Some? && IsCommitted(s, s.chain.headers[s.chain.head].root)
    requires s.phase.Registering? ==> s.tasks[s.phase.k].col.NotStarted?
    ensures LossOk(env, NextStep(env, s))
  {
    assert Tip(s).Some? || IsCommitted(s, s.chain.headers[s.chain.head].root);
    LossKept(env, s, NextStep(env, s));
  }

  lemma StepLoss(env: Env, init: View, s: State)
    requires Inv(env, init, s) && LossOk(env, s) && StepEnabled(s) && TipOk(NextStep(env, s))
    ensures LossOk(env, NextStep(env, s))
  {
    if Tip(s).Some? {
      assert TaskFine(env, s, Tip(s).value);
    }
    if s.phase.Collecting? && s.pending.Some? && s.tasks[s.pending.value].col.root.None? {
      RecoverLoss(env, s, s.pending.value);
    } else if s.phase.Flushing? && s.tasks[s.phase.k].col.root.None? {
      RecoverLoss(env, s, s.phase.k);
    } else {
      ForwardLoss(env, s);
    }
  }

  lemma SkipLoss(env: Env, init: View, s: State)
    requires Inv(env, init, s) && LossOk(env, s) && Enabled(s, SkipKnown) && TipOk(NextSkip(s))
    ensures LossOk(env, NextSkip(s))
  {
    assert Linked(s.chain.headers, s.chain.genesis, s.chain.genesis);
    CrownsChild(s.chain, HashOf(s.rest[0]));
    LossKept(env, s, NextSkip(s));
  }

  lemma PrunedLoss(env: Env, init: View, s: State, batch: seq<Block>)
    requires Inv(env, init, s) && LossOk(env, s) && Enabled(s, OfferPruned(batch))
    ensures NextPruned(env, s, batch).chain.head in NextPruned(env, s, batch).chain.headers
    ensures LossOk(env, NextPruned(env, s, batch))
  {
    var k, s' := s.pending.value, NextPruned(env, s, batch);
    PrunedShape(env, init, s, batch);
    if StoredOn(s, s') {
      StoredLoss(env, s, s');
    } else {
      assert TaskFine(env, s, k);
      RecoverLoss(env, s, k);
      StoredLoss(env, Recover(env, s, k), s');
    }
  }

  /** Storing blocks neither loses nor restores a state. */
  lemma StoredLoss(env: Env, s: State, s': State)
    requires s.chain.head in s.chain.headers && LossOk(env, s) && StoredOn(s, s')
    ensures LossOk(env, s')
  {
    assert forall i :: 0 <= i < |s.freed| ==> Dropped(env, s', s.freed[i]) == Dropped(env, s, s.freed[i]);
    assert HeadLost(env, s') == HeadLost(env, s);
  }

  lemma EnabledIsNotLost(env: Env, init: View, s: State, e: Event)
    requires Inv(env, init, s) && LossOk(env, s) && Enabled(s, e)
    ensures !HeadLost(env, s)
  {
    if HeadLost(env, s) {
      LostIsFinal(env, init, s, e);
    }
  }

  lemma EventLoss(env: Env, init: View, s: State, e: Event)
    requires Inv(env, init, s) && LossOk(env, s) && Enabled(s, e) && !e.SkipAbove? && TipOk(Next(env, s, e))
    ensures LossOk(env, Next(env, s, e))
  {
    EnabledIsNotLost(env, init, s, e);
    if e.Step? {
      StepLoss(env, init, s);
    } else if e.SkipKnown? {
      SkipLoss(env, init, s);
    } else if e.OfferPruned? {
      PrunedLoss(env, init, s, e.batch);
    } else {
      QuietEventLoss(env, s, e);
    }
  }

  lemma QuietEventLoss(env: Env, s: State, e: Event)
    requires s.chain.head in s.chain.headers && TasksOk(env, s) && LossOk(env, s) && !HeadLost(env, s) && Enabled(s, e)
    requires e.Offer? || e.Flush? || e.SrcStep? || e.CollectStep?
    ensures LossOk(env, Next(env, s, e))
  {
    if e.SrcStep? {
      assert TaskFine(env, s, e.k);
      SrcResults(env, s, e.k);
    } else if e.CollectStep? {
      assert TaskFine(env, s, e.k);
      CollectResults(env, s, e.k);
    }
    QuietLoss(env, s, Next(env, s, e));
  }

  lemma QuietLoss(env: Env, s: State, s': State)
    requires s.chain.head in s.chain.headers && LossOk(env, s) && !HeadLost(env, s)
    requires s'.chain == s.chain && s'.freed == s.freed && Tip(s') == Tip(s) && s.committed <= s'.committed
    requires |s'.tasks| == |s.tasks|
    requires forall k: nat {:trigger SameJob(s, s', k)} :: Idx(s, k) ==> SameJob(s, s', k)
    ensures LossOk(env, s')
  {
    forall k: nat | Idx(s, k)
      ensures SameWork(s, s', k)
    {
      assert SameJob(s, s', k);
    }
    LossKept(env, s, s');
  }
}
