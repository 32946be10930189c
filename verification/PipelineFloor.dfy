/** Which canonical blocks are never rolled back. */
module PipelineFloor {
  import opened Wrappers
  import opened HeaderTree
  import opened CanonicalIndex
  import opened Convergence
  import opened NodeOps
  import opened Pipeline
  import opened PipelineInvariant

  predicate Canonical(c: Node, h: Hash) {
    h in c.headers && c.headers[h].number in c.canon && c.canon[c.headers[h].number] == h
  }

  /** Block `p` is canonical and not above the lowest height the head can fall back to. */
  predicate Permanent(s: State, p: Hash)
    requires s.chain.head in s.chain.headers
  {
    Canonical(s.chain, p) && s.chain.headers[p].number <= Floor(s)
  }

  /** Block `h` is a stored child of the head, with positive difficulty. */
  predicate ReadyChild(c: Node, h: Hash) {
    h in c.headers && h != c.genesis && c.headers[h].parent == c.head && c.headers[h].difficulty > 0
  }

  predicate RollsBack(s: State) {
    || (s.phase.Collecting? && s.pending.Some? && ClosedAt(s, s.pending.value) &&
      s.tasks[s.pending.value].col.root.None?)
    || (s.phase.Flushing? && ClosedAt(s, s.phase.k) && s.tasks[s.phase.k].col.root.None?)
  }

  /** Rolling back the head keeps the blocks below it canonical. */
  lemma RollbackKeepsBelow(c: Node, p: Hash)
    requires ValidNode(c) && c.head != c.genesis && CanRollBack(c, c.head)
    requires Canonical(c, p) && c.headers[p].number < c.headers[c.head].number
    ensures var d := Rollback(c, c.head);
            && d.head in d.headers && d.headers[d.head].number == c.headers[c.head].number - 1 && Canonical(d, p)
  {
    assert Linked(c.headers, c.genesis, c.head);
    AncestorParent(c.headers, c.genesis, c.head, c.headers[c.head].number);
  }

  lemma RecoverFloor(env: Env, s: State, k: nat, p: Hash)
    requires ValidNode(s.chain) && TipOk(s) && TasksOk(env, s) && Tip(s) == Some(k) && Permanent(s, p)
    requires s.phase.Collecting? || s.phase.Flushing? || s.phase.Idle?
    requires Idx(s, k) && CanRollBack(s.chain, HashOf(s.tasks[k].b))
    requires TipOk(Recover(env, s, k))
    ensures Permanent(Recover(env, s, k), p)
  {
    TipRollsBack(env, s);
    RollbackKeepsBelow(s.chain, p);
  }

  /** Publishing a child of the head keeps what is permanent. */
  lemma PublishFloor(s: State, s': State, h: Hash, p: Hash)
    requires ValidNode(s.chain) && ReadyChild(s.chain, h) && CanCrown(s.chain, h) && s'.chain == Crown(s.chain, h)
    requires s'.phase.Idle? || s'.phase.Ready? ==> Tip(s').None?
    requires Permanent(s, p)
    ensures s'.chain.head in s'.chain.headers && Permanent(s', p)
  {
    CrownsChild(s.chain, h);
    assert Linked(s.chain.headers, s.chain.genesis, h);
  }

  /** Steps that neither write nor roll back leave the chain alone and lower no floor. */
  lemma QuietStep(env: Env, s: State)
    requires StepEnabled(s) && s.chain.head in s.chain.headers && !RollsBack(s) && !s.phase.Exposing? &&
             !s.phase.Storing?
    ensures NextStep(env, s).chain == s.chain && Floor(s) <= Floor(NextStep(env, s))
  {
  }

  lemma StepFloor(env: Env, init: View, s: State, p: Hash)
    requires Inv(env, init, s) && StepEnabled(s) && TipOk(NextStep(env, s)) && Permanent(s, p)
    ensures Permanent(NextStep(env, s), p)
  {
    if RollsBack(s) {
      RecoverFloor(env, s, Tip(s).value, p);
    } else if s.phase.Exposing? {
      PublishFloor(s, NextStep(env, s), HashOf(s.rest[0]), p);
    } else if s.phase.Storing? {
      StoreKeepsChain(s.chain, s.rest[0], s.chain.head);
    } else {
      QuietStep(env, s);
    }
  }

  lemma SkipFloor(env: Env, init: View, s: State, p: Hash)
    requires Inv(env, init, s) && Enabled(s, SkipKnown) && TipOk(NextSkip(s)) && Permanent(s, p)
    ensures Permanent(NextSkip(s), p)
  {
    assert Linked(s.chain.headers, s.chain.genesis, s.chain.genesis);
    PublishFloor(s, NextSkip(s), HashOf(s.rest[0]), p);
  }

  lemma PrunedFloor(env: Env, init: View, s: State, batch: seq<Block>, p: Hash)
    requires Inv(env, init, s) && Enabled(s, OfferPruned(batch)) && Permanent(s, p)
    requires TipOk(NextPruned(env, s, batch))
    ensures Permanent(NextPruned(env, s, batch), p)
  {
    var k, s' := s.pending.value, NextPruned(env, s, batch);
    PrunedShape(env, init, s, batch);
    if StoredOn(s, s') {
      StoredFloor(s, s', p);
    } else {
      RecoverFloor(env, s, k, p);
      StoredFloor(Recover(env, s, k), s', p);
    }
  }

  /** Storing blocks moves no marker. */
  lemma StoredFloor(s: State, s': State, p: Hash)
    requires StoredOn(s, s') && Permanent(s, p)
    ensures Permanent(s', p)
  {
  }

  lemma QuietEvent(env: Env, s: State, e: Event)
    requires Enabled(s, e) && s.chain.head in s.chain.headers
    requires e.Offer? || e.Flush? || e.SrcStep? || e.CollectStep?
    ensures Next(env, s, e).chain == s.chain && Floor(s) <= Floor(Next(env, s, e))
  {
  }

  /** A permanent block stays canonical and permanent, whatever happens: rollbacks never reach it. */
  lemma PermanentStays(env: Env, init: View, s: State, e: Event, p: Hash)
    requires Inv(env, init, s) && Enabled(s, e) && !e.SkipAbove? && TipOk(Next(env, s, e)) && Permanent(s, p)
    ensures Permanent(Next(env, s, e), p)
  {
    if e.SkipKnown? {
      SkipFloor(env, init, s, p);
    } else if e.Step? {
      StepFloor(env, init, s, p);
    } else if e.OfferPruned? {
      PrunedFloor(env, init, s, e.batch, p);
    } else {
      QuietEvent(env, s, e);
    }
  }
}
