/** Runs of the pipelined import that show where its guarantees end. */
module PipelineRuns {
  import opened Wrappers
  import opened HeaderTree
  import opened CanonicalIndex
  import opened Convergence
  import opened NodeOps
  import opened Pipeline
  import opened PipelineInvariant
  import opened PipelineLoss
  import opened PipelineTheorems

  // ---------- Building runs ----------

  /** One more event at the end of a run. */
  lemma {:induction false} LeadsOn(env: Env, s: State, es: seq<Event>, s': State, e: Event)
    requires Leads(env, s, es, s') && Enabled(s', e)
    ensures Leads(env, s, es + [e], Next(env, s', e))
    decreases |es|
  {
    if es == [] {
      assert (es + [e])[1..] == [];
    } else {
      assert (es + [e])[1..] == es[1..] + [e];
      LeadsOn(env, Next(env, s, es[0]), es[1..], s', e);
    }
  }

  lemma Advance(env: Env, s0: State, es: seq<Event>, s: State, e: Event) returns (es': seq<Event>, s': State)
    requires Leads(env, s0, es, s) && Enabled(s, e)
    ensures Leads(env, s0, es', s') && s' == Next(env, s, e)
  {
    es', s' := es + [e], Next(env, s, e);
    LeadsOn(env, s0, es, s, e);
  }

  /** Nothing is in flight and the state of the head is committed. */
  ghost predicate Resting(s: State) {
    && ValidNode(s.chain) && IsCommitted(s, s.chain.headers[s.chain.head].root)
    && s.phase.Idle? && s.pending.None? && s.rest == []
  }

  function RestWorld(s: State): (w: World)
    requires s.chain.head in s.chain.headers && s.chain.headers[s.chain.head].root.Of?
  {
    s.chain.headers[s.chain.head].root.world
  }

  /** Block `b` extends the head and executes, with the changes `diff`. */
  ghost predicate Executes(env: Env, s: State, b: Block, diff: FlatDiff) {
    Resting(s) && Attaches(s.chain, b) && CheapExec(env, b, RestWorld(s)) == Some(diff)
  }

  lemma RunToCollected(env: Env, s0: State, es: seq<Event>, s: State, b: Block, diff: FlatDiff)
    returns (es': seq<Event>, s': State)
    requires Leads(env, s0, es, s) && Executes(env, s, b, diff)
    ensures Leads(env, s0, es', s')
    ensures s' == s.(phase := Overlaying(diff, Of(RestWorld(s))), rest := [b], offered := s.offered + [[b]])
  {
    es', s' := Advance(env, s0, es, s, Offer([b]));
    es', s' := Advance(env, s0, es', s', Step);
    es', s' := Advance(env, s0, es', s', Step);
    es', s' := Advance(env, s0, es', s', Step);
  }

  /** A block that attaches to the head, once stored, is crowned. */
  lemma PublishCrowns(c: Node, b: Block)
    requires ValidNode(c) && Attaches(c, b)
    ensures CanCrown(StoreBlock(c, b), b.header.hash) && Crown(StoreBlock(c, b), b.header.hash) == Publish(c, b)
    ensures ValidNode(StoreBlock(c, b)) && b.header.hash != c.genesis
  {
    assert Linked(c.headers, c.genesis, c.genesis);
    StoreKeepsChain(c, b, c.head);
    CrownsChild(StoreBlock(c, b), b.header.hash);
  }

  lemma RunToRegistered(env: Env, s0: State, es: seq<Event>, s: State, b: Block) returns (es': seq<Event>, s': State)
    requires Leads(env, s0, es, s) && s.phase.Overlaying? && s.rest == [b]
    requires ValidNode(s.chain) && Attaches(s.chain, b)
    ensures Leads(env, s0, es', s')
    ensures s' == s.(phase := Idle, rest := [], pending := Some(|s.tasks|), chain := Publish(s.chain, b),
                     overlay := Some(FlatBase(s.phase.diff, b.header.number, s.phase.base, b.header.root)),
                     tasks := s.tasks + [Task(b, s.phase.diff, s.phase.base, |s.offered|, Running, Waiting, 0, 0)])
  {
    PublishCrowns(s.chain, b);
    es', s' := Advance(env, s0, es, s, Step);
    es', s' := Advance(env, s0, es', s', Step);
    es', s' := Advance(env, s0, es', s', Step);
    es', s' := Advance(env, s0, es', s', Step);
    es', s' := Advance(env, s0, es', s', Step);
  }

  /** The last task was just registered. */
  predicate JustRegistered(s: State, k: nat) {
    && s.phase.Idle? && s.rest == [] && s.pending == Some(k) && |s.tasks| == k + 1
    && s.tasks[k].src.Running? && s.tasks[k].col.Waiting?
  }

  lemma RunToClosed(env: Env, s0: State, es: seq<Event>, s: State, k: nat) returns (es': seq<Event>, s': State)
    requires Leads(env, s0, es, s) && JustRegistered(s, k)
    requires s.tasks[k].base.Of? && s.tasks[k].b.header.root != Of(PostWorld(s.tasks[k]))
    ensures Leads(env, s0, es', s') && Quiescent(s') && UncollectedFailure(s')
    ensures s' == s.(tasks := s'.tasks, committed := s'.committed)
    ensures s.committed <= s'.committed <= s.committed + {PostWorld(s.tasks[k])}
    ensures |s'.tasks| == k + 1 && s'.tasks[..k] == s.tasks[..k]
    ensures SameWork(s, s', k)
  {
    es', s' := RunSrc(env, s0, es, s, k);
    es', s' := RunCollector(env, s0, es', s', k);
  }

  /** The collector of a task with a wrong root records the failure and closes its channel. */
  lemma RunCollector(env: Env, s0: State, es: seq<Event>, s: State, k: nat) returns (es': seq<Event>, s': State)
    requires Leads(env, s0, es, s) && |s.tasks| == k + 1 && s.tasks[k].col.Waiting? && s.tasks[k].src.Finished?
    requires s.tasks[k].src.root != Some(s.tasks[k].b.header.root)
    ensures Leads(env, s0, es', s')
    ensures s' == s.(tasks := s.tasks[k := s.tasks[k].(col := Closed(None), closes := s.tasks[k].closes + 1)])
  {
    CollectsFailure(env, s, k);
    es', s' := Advance(env, s0, es, s, CollectStep(k));
    es', s' := Advance(env, s0, es', s', CollectStep(k));
  }

  lemma CollectsFailure(env: Env, s: State, k: nat)
    requires Idx(s, k) && s.tasks[k].col.Waiting? && s.tasks[k].src.Finished?
    requires s.tasks[k].src.root != Some(s.tasks[k].b.header.root)
    ensures Enabled(s, CollectStep(k)) && Enabled(NextCollect(env, s, k), CollectStep(k))
    ensures NextCollect(env, NextCollect(env, s, k), k) ==
            s.(tasks := s.tasks[k := s.tasks[k].(col := Closed(None), closes := s.tasks[k].closes + 1)])
  {
    var t := s.tasks[k];
    var u, v := t.(col := Decided(None)), t.(col := Closed(None), closes := t.closes + 1);
    assert NextCollect(env, s, k) == s.(tasks := s.tasks[k := u]);
    assert s.tasks[k := u][k := v] == s.tasks[k := v];
  }

  lemma RunSrc(env: Env, s0: State, es: seq<Event>, s: State, k: nat) returns (es': seq<Event>, s': State)
    requires Leads(env, s0, es, s) && JustRegistered(s, k)
    requires s.tasks[k].base.Of? && s.tasks[k].b.header.root != Of(PostWorld(s.tasks[k]))
    ensures Leads(env, s0, es', s') && |s'.tasks| == k + 1
    ensures s.committed <= s'.committed <= s.committed + {PostWorld(s.tasks[k])}
    ensures s'.tasks[k].src.Finished? && s'.tasks[k].src.root != Some(s.tasks[k].b.header.root)
    ensures s' == s.(tasks := s.tasks[k := s.tasks[k].(src := s'.tasks[k].src, dones := s'.tasks[k].dones)],
                     committed := s'.committed)
  {
    es', s' := Advance(env, s0, es, s, SrcStep(k));
    es', s' := Advance(env, s0, es', s', SrcStep(k));
  }

  // ---------- A rejected head that stays ----------

  /** Any block that executes but claims a wrong root gives a run that ends with nothing in
      flight and the rejected block still published as head, while the sequential importer is
      where it started. */
  lemma RejectedHeadStays(env: Env, s0: State, b: Block, diff: FlatDiff) returns (es: seq<Event>, s: State)
    requires Start(s0) && Executes(env, s0, b, diff) && b.header.root != Of(Overlay(RestWorld(s0), diff))
    ensures Leads(env, s0, es, s) && Quiescent(s) && UncollectedFailure(s)
    ensures s.chain == Publish(s0.chain, b) && s.offered == [[b]] && s.skipped == []
    ensures s0.committed <= s.committed <= s0.committed + {Overlay(RestWorld(s0), diff)}
    ensures s.pending == Some(0) && |s.tasks| == 1 && s.rest == []
    ensures s.refs == s0.refs && s.disk == s0.disk && s.freed == []
    ensures s.tasks[0].b == b && s.tasks[0].base == Of(RestWorld(s0)) && s.tasks[0].diff == diff
    ensures s.tasks[0].attempt == 1
    ensures SeqAll(env, StartView(s0), s.offered) == StartView(s0) && s.chain.head != s0.chain.head
  {
    assert Leads(env, s0, [], s0);
    es, s := RunToCollected(env, s0, [], s0, b, diff);
    es, s := RunToRegistered(env, s0, es, s, b);
    es, s := RunToClosed(env, s0, es, s, 0);
    WrongRootRejected(env, b, RestWorld(s0), diff, 1);
    assert SeqAll(env, StartView(s0), [[b]]) == SeqBatch(env, StartView(s0), [b], 1);
    PublishCrowns(s0.chain, b);
    assert Linked(StoreBlock(s0.chain, b).headers, s0.chain.genesis, b.header.hash);
  }

  // ---------- A rejected block rolled back ----------

  /** A block with these changes would compute the state of the head, whose last reference would go
      with its rollback. */
  predicate Drops(env: Env, s: State, diff: FlatDiff)
    requires s.chain.head in s.chain.headers && s.chain.headers[s.chain.head].root.Of?
  {
    && env.hashScheme && Overlay(RestWorld(s), diff) == RestWorld(s)
    && RestWorld(s) !in s.disk && s.refs[RestWorld(s)] <= 1
  }

  /** Collecting the failure rolls the block back, which stays stored. */
  lemma RunToRolledBack(env: Env, s0: State, b: Block, diff: FlatDiff) returns (es: seq<Event>, s: State)
    requires Start(s0) && Executes(env, s0, b, diff) && b.header.root != Of(Overlay(RestWorld(s0), diff))
    ensures Leads(env, s0, es, s) && s.chain == StoreBlock(s0.chain, b) && ValidNode(s.chain)
    ensures s.phase.Idle? && s.pending.None? && s.rest == [] && s.overlay == None
    ensures s.offered == [[b]] && s.skipped == []
    ensures forall v :: v in s0.committed && v != Overlay(RestWorld(s0), diff) ==> v in s.committed
    ensures s.chain.headers[s.chain.head].root == Of(RestWorld(s0))
    ensures Has(s.chain, b) && Attaches(s.chain, b) && b.header.hash != s.chain.genesis
    ensures |s.tasks| == 1 && s.tasks[0].b == b && s.tasks[0].base == Of(RestWorld(s0)) && s.tasks[0].diff == diff
    ensures s.tasks[0].attempt == 1
    ensures RestWorld(s0) in s.committed <==> !(Drops(env, s0, diff) && !CommitFails(env, b, 1))
  {
    es, s := RejectedHeadStays(env, s0, b, diff);
    PublishedBack(s0.chain, b);
    ComputedState(env, s0, es, s);
    RecoverStates(env, s, 0);
    es, s := RunFlush(env, s0, es, s, 0);
  }

  /** Rolling a block back leaves it stored, ready to be attached again. */
  lemma PublishedBack(c: Node, b: Block)
    requires ValidNode(c) && Attaches(c, b)
    ensures var d := StoreBlock(c, b);
            && ValidNode(d) && Has(d, b) && Attaches(d, b) && b.header.hash != d.genesis
            && d.head == c.head && d.headers[d.head] == c.headers[c.head]
            && CanRollBack(Publish(c, b), b.header.hash) && Rollback(Publish(c, b), b.header.hash) == d
  {
    PublishCrowns(c, b);
    RollbackUndoesWriteHead(StoreBlock(c, b), b.header.hash);
    assert Linked(c.headers, c.genesis, c.head);
  }

  /** What SRC computed for the first task. */
  lemma ComputedState(env: Env, s0: State, es: seq<Event>, s: State)
    requires Start(s0) && Leads(env, s0, es, s) && Idx(s, 0) && s.tasks[0].col.Closed?
    ensures var t := s.tasks[0];
            t.base.Of? && SrcState(t) == if CommitFails(env, t.b, t.attempt) then None else Some(PostWorld(t))
  {
    ReachableTasks(env, s0, es, s);
    assert TaskFine(env, s, 0);
  }

  /** A rollback keeps every state but the one computed, and that one unless its last reference
      goes. */
  lemma RecoverStates(env: Env, s: State, k: nat)
    requires Idx(s, k) && CanRollBack(s.chain, HashOf(s.tasks[k].b))
    ensures var w, after := SrcState(s.tasks[k]), Recover(env, s, k).committed;
            && (forall v :: v in s.committed && w != Some(v) ==> v in after)
            && (w.Some? && w.value in s.committed ==>
                  (w.value in after <==> !(env.hashScheme && w.value !in s.disk && s.refs[w.value] <= 1)))
  {
  }

  lemma RunFlush(env: Env, s0: State, es: seq<Event>, s: State, k: nat) returns (es': seq<Event>, s': State)
    requires Leads(env, s0, es, s) && s.phase.Idle? && s.pending == Some(k) && ClosedAt(s, k)
    requires s.tasks[k].col.root.None? && CanRollBack(s.chain, HashOf(s.tasks[k].b))
    ensures Leads(env, s0, es', s') && s' == Recover(env, s, k)
  {
    es', s' := Advance(env, s0, es, s, Flush);
    es', s' := Advance(env, s0, es', s', Step);
  }

  /** The node is at rest again, unless the rollback took the head's state along. */
  lemma RolledBackRests(env: Env, s0: State, b: Block, diff: FlatDiff) returns (es: seq<Event>, s: State)
    requires Start(s0) && Executes(env, s0, b, diff) && b.header.root != Of(Overlay(RestWorld(s0), diff))
    requires !Drops(env, s0, diff)
    ensures Leads(env, s0, es, s) && Resting(s) && RestWorld(s) == RestWorld(s0) && s.overlay == None
    ensures s.chain == StoreBlock(s0.chain, b) && s.offered == [[b]] && s.skipped == []
    ensures forall v :: v in s0.committed && v != Overlay(RestWorld(s0), diff) ==> v in s.committed
    ensures Has(s.chain, b) && Attaches(s.chain, b) && b.header.hash != s.chain.genesis
    ensures |s.tasks| == 1 && s.tasks[0].b == b && s.tasks[0].base == Of(RestWorld(s0)) && s.tasks[0].diff == diff
    ensures s.tasks[0].col.Closed?
  {
    es, s := RunToRolledBack(env, s0, b, diff);
    ReachableInv(env, s0, es, s);
    assert TaskFine(env, s, 0);
  }

  // ---------- A descendant of a rejected block ----------

  /** Any block with a wrong root that belongs to no committed state, and any new child of it that
      claims the root of a committed state, give a run in which the child becomes the head above the
      rejected block: it is stored because the state of its parent is missing, and offered again it
      counts as known. */
  lemma KnownAboveRejected(env: Env, s0: State, b: Block, diff: FlatDiff, c: Block)
    returns (es: seq<Event>, s: State)
    requires Start(s0) && Executes(env, s0, b, diff) && b.header.root != Of(Overlay(RestWorld(s0), diff))
    requires !IsCommitted(s0, b.header.root) && IsCommitted(s0, c.header.root)
    requires Attaches(Publish(s0.chain, b), c) && c.header.hash !in s0.chain.headers && c.header.hash != b.header.hash
    ensures Leads(env, s0, es, s) && s.phase == Above(0) && s.chain.head == c.header.hash
    ensures |s.tasks| == 1 && s.tasks[0].b == b && s.tasks[0].col == Closed(None) && RejectedBelow(env, s)
  {
    es, s := RejectedHeadStays(env, s0, b, diff);
    PublishCrowns(s0.chain, b);
    ReachableTasks(env, s0, es, s);
    es, s := RunToStored(env, s0, es, s, c);
    es, s := Advance(env, s0, es, s, Offer([c]));
    es, s := Advance(env, s0, es, s, SkipAbove);
    RejectedBelowExactly(env, s0, es, s);
  }

  /** A child of the rejected head that claims a committed root is stored, and known from then on. */
  lemma RunToStored(env: Env, s0: State, es: seq<Event>, s: State, c: Block) returns (es': seq<Event>, s': State)
    requires Leads(env, s0, es, s) && ValidNode(s.chain) && Attaches(s.chain, c) && c.header.hash !in s.chain.headers
    requires s.phase.Idle? && s.pending == Some(0) && ClosedAt(s, 0) && !HasHeadState(s)
    requires CanRollBack(s.chain, HashOf(s.tasks[0].b)) && IsCommitted(s, c.header.root)
    ensures Leads(env, s0, es', s')
    ensures s' == s.(chain := StoreBlock(s.chain, c), offered := s.offered + [[c]])
    ensures Extending(s'.chain, [c]) && IsKnown(s', c)
    ensures Crown(s'.chain, c.header.hash).head == c.header.hash
  {
    ExtendingOne(s.chain, c);
    PrunedStores(env, s, c);
    es', s' := Advance(env, s0, es, s, OfferPruned([c]));
    PublishedBack(s.chain, c);
    PublishCrowns(s.chain, c);
    ExtendingOne(s'.chain, c);
  }

  lemma ExtendingOne(c: Node, b: Block)
    requires Attaches(c, b)
    ensures Extending(c, [b])
  {
  }

  lemma PrunedStores(env: Env, s: State, c: Block)
    requires Enabled(s, OfferPruned([c])) && IsCommitted(s, c.header.root)
    ensures NextPruned(env, s, [c]) == s.(chain := StoreBlock(s.chain, c), offered := s.offered + [[c]])
  {
    assert [c][..PrunedCount(s, [c])] == [c];
    assert StoreBlocks(s.chain, [c]) == StoreBlock(s.chain, c);
  }

  // ---------- A rejected block offered again ----------

  /** Any block with a wrong root that belongs to some committed state gives a run that ends with
      nothing in flight and no failure to collect, but with that block as head: offered again
      after its rollback it counts as known and is not executed. */
  lemma LiarBecomesKnown(env: Env, s0: State, b: Block, diff: FlatDiff) returns (es: seq<Event>, s: State)
    requires Start(s0) && Executes(env, s0, b, diff) && b.header.root != Of(Overlay(RestWorld(s0), diff))
    requires IsCommitted(s0, b.header.root) && !Drops(env, s0, diff)
    ensures Leads(env, s0, es, s) && Quiescent(s) && !UncollectedFailure(s) && Diverged(env, s)
    ensures s.chain.head == b.header.hash && s.pending.None?
  {
    es, s := RolledBackRests(env, s0, b, diff);
    var w := RestWorld(s);
    CrownsChild(s.chain, b.header.hash);
    ExtendingOne(s.chain, b);
    es, s := RunToSkipped(env, s0, es, s, b);
    WrongRootRejected(env, b, w, diff, 2);
    assert !Honest(env, s.skipped[0]);
  }

  /** A known block offered to a node at rest is published as it is. */
  lemma RunToSkipped(env: Env, s0: State, es: seq<Event>, s: State, b: Block) returns (es': seq<Event>, s': State)
    requires Leads(env, s0, es, s) && Enabled(s, Offer([b])) && s.pending.None? && s.rest == []
    requires CanCrown(s.chain, b.header.hash) && b.header.parent == s.chain.head && IsCommitted(s, b.header.root)
    requires Crown(s.chain, b.header.hash) == WriteHead(s.chain, b.header.hash)
    ensures Leads(env, s0, es', s')
    ensures s' == s.(chain := WriteHead(s.chain, b.header.hash), offered := s.offered + [[b]],
                     skipped := s.skipped + [Skip(b, s.chain.headers[s.chain.head].root, |s.offered| + 1)])
  {
    es', s' := Advance(env, s0, es, s, Offer([b]));
    SkipsOne(s', b);
    es', s' := Advance(env, s0, es', s', SkipKnown);
  }

  lemma SkipsOne(s: State, b: Block)
    requires s.phase.Ready? && s.rest == [b] && s.pending.None? && CanCrown(s.chain, b.header.hash)
    requires b.header.parent == s.chain.head && IsCommitted(s, b.header.root)
    requires Crown(s.chain, b.header.hash) == WriteHead(s.chain, b.header.hash)
    ensures Enabled(s, SkipKnown)
    ensures NextSkip(s) ==
            s.(chain := WriteHead(s.chain, b.header.hash), rest := [], phase := Idle,
               skipped := s.skipped + [Skip(b, s.chain.headers[s.chain.head].root, |s.offered|)])
  {
  }

  /** The state of a rejected block is served again when the block is offered again. */
  lemma RejectedServedAgain(env: Env, s0: State, b: Block, diff: FlatDiff) returns (es: seq<Event>, s: State)
    requires Start(s0) && Executes(env, s0, b, diff) && b.header.root != Of(Overlay(RestWorld(s0), diff))
    requires !Drops(env, s0, diff)
    ensures Leads(env, s0, es, s) && |s.tasks| == 2 && s.tasks[0].b == b && s.tasks[0].col.Closed?
    ensures s.tasks[0].base.Of? && PostWorld(s.tasks[0]) == Overlay(RestWorld(s0), diff)
    ensures Shows(s, b.header, PostWorld(s.tasks[0]))
  {
    es, s := RolledBackRests(env, s0, b, diff);
    es, s := RunToCollected(env, s0, es, s, b, diff);
    es, s := RunToRegistered(env, s0, es, s, b);
  }

  // ---------- A rollback that takes the head's state along ----------

  /** Any block that changes nothing but claims another root gives a run that ends with nothing in
      flight, nothing to collect and no divergence, but without the state of the head: SRC
      computed that state, and the rollback gives up the one reference held on it. */
  lemma EmptyLiarTakesHeadState(env: Env, s0: State, b: Block, diff: FlatDiff) returns (es: seq<Event>, s: State)
    requires Start(s0) && Executes(env, s0, b, diff) && b.header.root != Of(Overlay(RestWorld(s0), diff))
    requires Drops(env, s0, diff) && !CommitFails(env, b, 1)
    ensures Leads(env, s0, es, s) && Quiescent(s) && !UncollectedFailure(s) && !Diverged(env, s) && HeadLost(env, s)
    ensures s.chain.head == s0.chain.head && s.chain.head in s.chain.headers
    ensures PostExecState(s, s.chain.headers[s.chain.head]) == None
  {
    es, s := RunToRolledBack(env, s0, b, diff);
    ReachableInv(env, s0, es, s);
    assert TaskFine(env, s, 0);
  }

  // ---------- A head hidden by the overlay of the next block ----------

  /** Any block that changes the state but claims the head's root gives a run in which readers of
      the head see the state of that block instead. */
  lemma HeadHiddenByOverlay(env: Env, s0: State, b: Block, diff: FlatDiff) returns (es: seq<Event>, s: State)
    requires Start(s0) && Executes(env, s0, b, diff) && Overlay(RestWorld(s0), diff) != RestWorld(s0)
    requires b.header.root == s0.chain.headers[s0.chain.head].root
    ensures Leads(env, s0, es, s) && s.chain == s0.chain
    ensures PostExecState(s, s.chain.headers[s.chain.head]).Some?
    ensures PostExecState(s, s.chain.headers[s.chain.head]) != Some(RestWorld(s0))
  {
    assert Leads(env, s0, [], s0);
    es, s := RunToCollected(env, s0, [], s0, b, diff);
    es, s := Advance(env, s0, es, s, Step);
  }
}
