/** What the overlay that serves the newest block holds. */
module PipelineOverlay {
  import opened Wrappers
  import opened HeaderTree
  import opened CanonicalIndex
  import opened Pipeline
  import opened PipelineInvariant

  /** The overlay already belongs to the block being written, which is not the head yet. */
  predicate NextUp(s: State) { s.phase.Storing? || s.phase.Spawning? || s.phase.Exposing? }

  /** The changes and the base that the block being written was executed with. */
  function NextJob(s: State): (j: (FlatDiff, Root))
    requires NextUp(s) && (s.phase.Exposing? ==> Idx(s, s.phase.k))
  {
    if s.phase.Exposing? then (s.tasks[s.phase.k].diff, s.tasks[s.phase.k].base) else (s.phase.diff, s.phase.base)
  }

  ghost predicate OverlayOk(s: State)
    requires TipOk(s)
  {
    if NextUp(s) then
      && s.rest != [] && (s.phase.Exposing? ==> Idx(s, s.phase.k))
      && s.overlay == Some(FlatBase(NextJob(s).0, s.rest[0].header.number, NextJob(s).1, s.rest[0].header.root))
    else if Tip(s).Some? then s.overlay.Some? && ServesHead(s, s.overlay.value)
    else s.overlay.Some? ==> Truthful(s, s.overlay.value)
  }

  /** The overlay gives the state of the root it was recorded for. */
  predicate Truthful(s: State, o: FlatBase) {
    IsCommitted(s, o.base) && o.root == Of(Overlay(o.base.world, o.diff))
  }

  /** The overlay was recorded for the head and gives the head's state. */
  ghost predicate ServesHead(s: State, o: FlatBase)
    requires TipOk(s)
  {
    var h := s.chain.headers[s.chain.head];
    && o.number == h.number && o.root == h.root
    && IsCommitted(s, o.base) && Overlay(o.base.world, o.diff) == HeadWorld(s)
  }

  lemma OverlayBackground(s: State, s': State)
    requires TipOk(s) && TipOk(s') && Background(s, s') && OverlayOk(s)
    ensures OverlayOk(s')
  {
    if Tip(s).Some? {
      assert SameJob(s, s', Tip(s).value);
    }
    if s.phase.Exposing? {
      assert SameJob(s, s', s.phase.k);
    }
  }

  /** The facts about the chain that the overlay relies on when the importer moves. */
  ghost predicate StepFacts(s: State)
    requires TipOk(s)
  {
    && (s.phase.Flushing? && ClosedAt(s, s.phase.k) && s.tasks[s.phase.k].col.root.Some? ==>
          s.chain.headers[s.chain.head].root == Of(HeadWorld(s)))
    && (s.phase.Exposing? ==>
          && s.rest != [] && Idx(s, s.phase.k) && s.tasks[s.phase.k].b == s.rest[0] &&
            IsCommitted(s, s.tasks[s.phase.k].base)
          && HashOf(s.rest[0]) in s.chain.headers && s.chain.headers[HashOf(s.rest[0])] == s.rest[0].header)
  }

  lemma InvGivesStepFacts(env: Env, init: View, s: State)
    requires Inv(env, init, s)
    ensures StepFacts(s)
  {
    if (s.phase.Flushing? || s.phase.Exposing?) && Idx(s, s.phase.k) {
      assert TaskFine(env, s, s.phase.k);
    }
  }

  lemma OverlayStep(env: Env, s: State)
    requires TipOk(s) && StepEnabled(s) && TipOk(NextStep(env, s)) && OverlayOk(s) && StepFacts(s)
    ensures OverlayOk(NextStep(env, s))
  {
    if s.phase.Overlaying? || NextUp(s) {
      OverlayWriting(env, s);
    } else {
      OverlayWaiting(env, s);
    }
  }

  /** The steps that write the next block. */
  lemma OverlayWriting(env: Env, s: State)
    requires TipOk(s) && StepEnabled(s) && TipOk(NextStep(env, s)) && OverlayOk(s) && StepFacts(s)
    requires s.phase.Overlaying? || NextUp(s)
    ensures OverlayOk(NextStep(env, s))
  {
  }

  /** The other steps leave the overlay alone or, in a rollback, clear it. */
  lemma OverlayWaiting(env: Env, s: State)
    requires TipOk(s) && StepEnabled(s) && TipOk(NextStep(env, s)) && OverlayOk(s) && StepFacts(s)
    requires !s.phase.Overlaying? && !NextUp(s)
    ensures OverlayOk(NextStep(env, s))
  {
  }

  lemma OverlayKept(env: Env, init: View, s: State, e: Event)
    requires Inv(env, init, s) && OverlayOk(s) && Enabled(s, e) && !e.SkipAbove? && TipOk(Next(env, s, e))
    ensures OverlayOk(Next(env, s, e))
  {
    if e.Step? {
      InvGivesStepFacts(env, init, s);
      OverlayStep(env, s);
    } else if e.SrcStep? {
      assert TaskFine(env, s, e.k);
      SrcResults(env, s, e.k);
      OverlayBackground(s, Next(env, s, e));
    } else if e.CollectStep? {
      assert TaskFine(env, s, e.k);
      CollectResults(env, s, e.k);
      OverlayBackground(s, Next(env, s, e));
    } else if e.OfferPruned? {
      PrunedShape(env, init, s, e.batch);
      OverlayPruned(env, s, e.batch);
    } else {
      OverlayUntouched(env, s, e);
    }
  }

  lemma OverlayUntouched(env: Env, s: State, e: Event)
    requires TipOk(s) && OverlayOk(s) && Enabled(s, e) && TipOk(Next(env, s, e))
    requires e.Offer? || e.Flush? || e.SkipKnown?
    ensures OverlayOk(Next(env, s, e))
  {
  }

  /** Storing blocks leaves the overlay alone, and a rollback clears it. */
  lemma OverlayPruned(env: Env, s: State, batch: seq<Block>)
    requires TipOk(s) && OverlayOk(s) && Enabled(s, OfferPruned(batch)) && TipOk(NextPruned(env, s, batch))
    requires var s', r := NextPruned(env, s, batch), Recover(env, s, s.pending.value);
             StoredOn(s, s') || StoredOn(r, s')
    ensures OverlayOk(NextPruned(env, s, batch))
  {
    var s' := NextPruned(env, s, batch);
    if StoredOn(s, s') {
      assert HeadWorld(s') == HeadWorld(s);
    } else {
      assert s'.overlay == None && Tip(s').None?;
    }
  }
}
