/** When a known block finds a pending one below it: not in a node whose side blocks all hang off the
    canonical chain, until a batch is offered on a rejected head whose state is missing. */
module PipelineKnown {
  import opened HeaderTree
  import opened Convergence
  import opened NodeOps
  import opened Pipeline
  import opened PipelineInvariant
  import opened PipelineFloor
  import opened PipelineAbove
  import opened PipelineTheorems

  predicate ParentPermanent(s: State, x: Hash)
    requires x in s.chain.headers && s.chain.head in s.chain.headers
  {
    x == s.chain.genesis || Permanent(s, s.chain.headers[x].parent)
  }

  /** The parent of every stored block is permanent. */
  ghost predicate Trimmed(s: State)
    requires s.chain.head in s.chain.headers
  {
    forall x {:trigger ParentPermanent(s, x)} :: x in s.chain.headers ==> ParentPermanent(s, x)
  }

  /** A step that keeps what is permanent and stores only children of permanent blocks. */
  lemma TrimmedOn(s: State, s': State)
    requires s.chain.head in s.chain.headers && s'.chain.head in s'.chain.headers && Trimmed(s)
    requires Extends(s.chain.headers, s'.chain.headers) && s'.chain.genesis == s.chain.genesis
    requires forall p {:trigger Permanent(s, p)} :: Permanent(s, p) ==> Permanent(s', p)
    requires forall x {:trigger ParentPermanent(s', x)} :: x in s'.chain.headers && x !in s.chain.headers ==>
               ParentPermanent(s', x)
    ensures Trimmed(s')
  {
    forall x | x in s'.chain.headers
      ensures ParentPermanent(s', x)
    {
      if x in s.chain.headers {
        assert ParentPermanent(s, x);
        if x != s.chain.genesis {
          assert Permanent(s, s.chain.headers[x].parent);
        }
      }
    }
  }

  /** Storing a child of the settled head. */
  lemma StoreTrimmed(env: Env, s: State)
    requires ValidNode(s.chain) && Trimmed(s) && s.phase.Storing? && StepEnabled(s) &&
             BuildsOn(s.chain, s.rest[0], s.chain.head)
    ensures NextStep(env, s).chain.head in NextStep(env, s).chain.headers && Trimmed(NextStep(env, s))
  {
    var s' := NextStep(env, s);
    StoreKeepsChain(s.chain, s.rest[0], s.chain.head);
    assert Permanent(s', s.chain.head);
    TrimmedOn(s, s');
  }

  /** Only the writing of a block stores one. */
  lemma StepStores(env: Env, s: State)
    requires StepEnabled(s) && !s.phase.Storing?
    ensures NextStep(env, s).chain.headers == s.chain.headers && NextStep(env, s).chain.genesis == s.chain.genesis
  {
  }

  lemma EventStores(env: Env, s: State, e: Event)
    requires Enabled(s, e) && !e.OfferPruned? && !e.SkipAbove? && !(e.Step? && s.phase.Storing?)
    ensures Next(env, s, e).chain.headers == s.chain.headers && Next(env, s, e).chain.genesis == s.chain.genesis
  {
    if e.Step? {
      StepStores(env, s);
    }
  }

  lemma EventTrimmed(env: Env, init: View, s: State, e: Event)
    requires Inv(env, init, s) && Trimmed(s) && Enabled(s, e) && !e.OfferPruned? && !e.SkipAbove?
    requires TipOk(Next(env, s, e))
    ensures Trimmed(Next(env, s, e))
  {
    if e.Step? && s.phase.Storing? {
      StoreTrimmed(env, s);
    } else {
      EventStores(env, s, e);
      forall p | Permanent(s, p)
        ensures Permanent(Next(env, s, e), p)
      {
        PermanentStays(env, init, s, e, p);
      }
      TrimmedOn(s, Next(env, s, e));
    }
  }

  /** No batch among the events is offered on a head whose state is missing. */
  predicate NonePruned(es: seq<Event>) { forall i :: 0 <= i < |es| ==> !es[i].OfferPruned? }

  lemma {:induction false} RunTrimmed(env: Env, init: View, s: State, es: seq<Event>, s': State)
    requires FullInv(env, init, s) && Trimmed(s) && Leads(env, s, es, s') && NonePruned(es)
    ensures FullInv(env, init, s') && Trimmed(s')
    decreases |es|
  {
    if es != [] {
      NothingAbove(env, init, s);
      EventKeeps(env, init, s, es[0]);
      EventTrimmed(env, init, s, es[0]);
      RunTrimmed(env, init, Next(env, s, es[0]), es[1..], s');
    }
  }

  /** No known block is published above a pending one. */
  lemma NothingAbove(env: Env, init: View, s: State)
    requires Inv(env, init, s) && Trimmed(s)
    ensures !Enabled(s, SkipAbove)
  {
    if s.phase.Ready? && HashOf(s.rest[0]) in s.chain.headers {
      assert Linked(s.chain.headers, s.chain.genesis, s.chain.genesis);
      StoredIsSettled(s, HashOf(s.rest[0]));
    }
  }

  /** When a block is up next that is stored already, nothing is pending, in every run from a node
      without side branches in which no batch is offered on a head whose state is missing. So no
      known block is published above a pending one. */
  lemma StoredFindsNothingPending(env: Env, s0: State, es: seq<Event>, s: State)
    requires Start(s0) && Trimmed(s0) && Leads(env, s0, es, s) && NonePruned(es)
    ensures !s.phase.Above?
    ensures s.phase.Ready? && s.rest != [] && HashOf(s.rest[0]) in s.chain.headers ==>
              && s.pending.None?
              && (IsCommitted(s, s.rest[0].header.root) ==> Enabled(s, SkipKnown))
  {
    StartFull(env, s0);
    RunTrimmed(env, StartView(s0), s0, es, s);
    if s.phase.Ready? && HashOf(s.rest[0]) in s.chain.headers {
      assert Linked(s.chain.headers, s.chain.genesis, s.chain.genesis);
      StoredIsSettled(s, HashOf(s.rest[0]));
      CrownsChild(s.chain, HashOf(s.rest[0]));
    }
  }

  /** A stored child of the head means that the head is settled. */
  lemma StoredIsSettled(s: State, h: Hash)
    requires s.chain.head in s.chain.headers && Trimmed(s) && s.phase.Ready?
    requires h in s.chain.headers && h != s.chain.genesis && s.chain.headers[h].parent == s.chain.head
    ensures s.pending.None?
  {
    assert ParentPermanent(s, h);
  }
}
