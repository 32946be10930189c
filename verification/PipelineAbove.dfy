/** What every state of a run keeps, up to and after the moment when a known block is published
    above a pending one. */
module PipelineAbove {
  import opened Wrappers
  import opened HeaderTree
  import opened CanonicalIndex
  import opened Convergence
  import opened NodeOps
  import opened Pipeline
  import opened PipelineInvariant
  import opened PipelineFloor
  import opened PipelineRejection
  import opened PipelineLoss
  import opened PipelineOverlay

  ghost predicate FullInv(env: Env, init: View, s: State) {
    Inv(env, init, s) && OverlayOk(s) && RejectedOk(env, s) && LossOk(env, s) && ClearedOk(env, s)
  }

  lemma EventKeeps(env: Env, init: View, s: State, e: Event)
    requires FullInv(env, init, s) && Enabled(s, e) && !e.SkipAbove?
    ensures FullInv(env, init, Next(env, s, e))
  {
    StepKeeps(env, init, s, e);
    RejectedKept(env, init, s, e);
    OverlayKept(env, init, s, e);
    EventLoss(env, init, s, e);
    ClearedKept(env, init, s, e);
  }

  // ---------- After publishing a known block above a pending one ----------

  /** The head is a child of the block of the pending task `k`, the newest one. */
  ghost predicate OnTop(s: State, k: nat) {
    && s.phase == Above(k) && s.pending == Some(k) && |s.tasks| == k + 1
    && ValidNode(s.chain) && s.chain.head != s.chain.genesis
    && s.chain.headers[s.chain.head].parent == TaskHash(s, k) && Canonical(s.chain, TaskHash(s, k))
  }

  /** The overlay still belongs to the pending block, and the state the head claims is committed or
      is the one the pending block claims. */
  ghost predicate OverlayBelow(s: State, k: nat)
    requires Idx(s, k) && s.chain.head in s.chain.headers
  {
    var t, r := s.tasks[k], s.chain.headers[s.chain.head].root;
    && t.base.Of? && s.overlay.Some?
    && s.overlay.value.number == t.b.header.number && s.overlay.value.root == t.b.header.root
    && IsCommitted(s, s.overlay.value.base)
    && Overlay(s.overlay.value.base.world, s.overlay.value.diff) == PostWorld(t)
    && (IsCommitted(s, r) || r == t.b.header.root)
  }

  /** If the block of task `j` is canonical it is the block of the pending task `k` or is cleared. */
  ghost predicate StandsAbove(env: Env, s: State, k: nat, j: nat)
    requires Idx(s, k) && Idx(s, j)
  {
    Canonical(s.chain, TaskHash(s, j)) ==> TaskHash(s, j) == TaskHash(s, k) || Cleared(env, s, TaskHash(s, j))
  }

  ghost predicate AboveInv(env: Env, s: State) {
    && s.phase.Above? && OnTop(s, s.phase.k) && TasksOk(env, s) && OverlayBelow(s, s.phase.k)
    && (forall j: nat {:trigger StandsAbove(env, s, s.phase.k, j)} :: Idx(s, j) ==> StandsAbove(env, s, s.phase.k, j))
    && (!Good(env, s.tasks[s.phase.k]) ==> !Cleared(env, s, TaskHash(s, s.phase.k)))
  }

  /** Publishing a known block above a pending one. */
  lemma SkipAboveLeads(env: Env, init: View, s: State)
    requires FullInv(env, init, s) && Enabled(s, SkipAbove)
    ensures AboveInv(env, NextAbove(s))
  {
    var s', k := NextAbove(s), s.pending.value;
    AbovePublishes(env, init, s);
    TasksUnmoved(env, s, s');
    forall j: nat | Idx(s', j)
      ensures StandsAbove(env, s', k, j)
    {
      AboveStands(env, s, j);
    }
    AboveUncleared(env, s);
  }

  /** A pending block that will be rejected was never cleared. */
  lemma AboveUncleared(env: Env, s: State)
    requires TipOk(s) && ClearedOk(env, s) && Enabled(s, SkipAbove)
    requires TaskHash(s, s.pending.value) == s.chain.head && HashOf(s.rest[0]) != s.chain.head
    ensures !Good(env, s.tasks[s.pending.value]) ==> !Cleared(env, NextAbove(s), s.chain.head)
  {
    assert ClearedAt(env, s, s.chain.head);
    AboveClears(env, s, s.chain.head);
  }

  lemma AbovePublishes(env: Env, init: View, s: State)
    requires Inv(env, init, s) && OverlayOk(s) && Enabled(s, SkipAbove)
    ensures var s', k := NextAbove(s), s.pending.value;
            && OnTop(s', k) && OverlayBelow(s', k) && s'.chain.headers == s.chain.headers
            && TaskHash(s, k) == s.chain.head && HashOf(s.rest[0]) != s.chain.head
            && s'.chain == WriteHead(s.chain, HashOf(s.rest[0])) && ReadyChild(s.chain, HashOf(s.rest[0]))
  {
    assert TaskFine(env, s, s.pending.value);
    PublishesOnTop(s.chain, s.rest[0]);
  }

  lemma PublishesOnTop(c: Node, b: Block)
    requires ValidNode(c) && Attaches(c, b) && CanCrown(c, HashOf(b))
    ensures ReadyChild(c, HashOf(b)) && Has(c, b) && HashOf(b) != c.head
    ensures Crown(c, HashOf(b)) == WriteHead(c, HashOf(b))
    ensures var d := WriteHead(c, HashOf(b));
            ValidNode(d) && Canonical(d, c.head) && d.head != d.genesis && d.headers[d.head].parent == c.head
  {
    assert Linked(c.headers, c.genesis, c.genesis) && Linked(c.headers, c.genesis, HashOf(b));
    CrownsChild(c, HashOf(b));
    WriteHeadKeepsValid(c, HashOf(b));
  }

  /** Skipping clears the skipped block and no other. */
  lemma AboveClears(env: Env, s: State, h: Hash)
    requires Enabled(s, SkipAbove)
    ensures Cleared(env, NextAbove(s), h) <==> Cleared(env, s, h) || h == HashOf(s.rest[0])
  {
    var s' := NextAbove(s);
    assert s'.skipped[|s.skipped|].b == s.rest[0];
    assert forall i :: 0 <= i < |s.skipped| ==> s'.skipped[i] == s.skipped[i];
    assert forall j: nat :: Verified(env, s', j, h) == Verified(env, s, j, h);
  }

  lemma AboveStands(env: Env, s: State, j: nat)
    requires ValidNode(s.chain) && RejectedOk(env, s) && Enabled(s, SkipAbove) && Idx(s, j)
    requires Idx(s, s.pending.value) && TaskHash(s, s.pending.value) == s.chain.head
    requires ReadyChild(s.chain, HashOf(s.rest[0]))
    requires NextAbove(s).chain == WriteHead(s.chain, HashOf(s.rest[0]))
    ensures StandsAbove(env, NextAbove(s), s.pending.value, j)
  {
    assert StandsOk(env, s, j);
    AboveClears(env, s, TaskHash(s, j));
    if Canonical(NextAbove(s).chain, TaskHash(s, j)) {
      WriteHeadCanonical(s.chain, HashOf(s.rest[0]), TaskHash(s, j));
    }
  }

  /** From then on only the background computations go on. */
  lemma AboveKept(env: Env, s: State, e: Event)
    requires AboveInv(env, s) && Enabled(s, e)
    ensures AboveInv(env, Next(env, s, e))
  {
    var s', k := Next(env, s, e), s.phase.k;
    assert TaskFine(env, s, e.k);
    if e.SrcStep? {
      SrcResults(env, s, e.k);
      QuietNews(env, s, e);
    } else {
      CollectResults(env, s, e.k);
    }
    BackgroundWork(s, s');
    ProgressKeepsTasks(env, s, s', e.k);
    assert SameWork(s, s', k);
    forall j: nat | Idx(s', j)
      ensures StandsAbove(env, s', k, j)
    {
      assert SameWork(s, s', j) && StandsAbove(env, s, k, j);
      if Cleared(env, s, TaskHash(s, j)) {
        ClearedStays(env, s, s', TaskHash(s, j));
      }
    }
    if !Good(env, s.tasks[k]) && Cleared(env, s', TaskHash(s, k)) {
      if e.SrcStep? {
        NoNewsClears(env, s, s', TaskHash(s, k));
      } else {
        CollectNews(env, s, e.k, TaskHash(s, k));
      }
    }
  }
}
