/** Whole-run results about the pipelined import. */
module PipelineTheorems {
  import opened Wrappers
  import opened HeaderTree
  import opened Convergence
  import opened NodeOps
  import opened Pipeline
  import opened PipelineInvariant
  import opened PipelineFloor
  import opened PipelineRejection
  import opened PipelineLoss
  import opened PipelineOverlay
  import opened PipelineAbove

  /** The events lead from `s` to `s'`, each enabled when it happens. */
  ghost predicate Leads(env: Env, s: State, es: seq<Event>, s': State)
    decreases |es|
  {
    if es == [] then s' == s
    else Enabled(s, es[0]) && Leads(env, Next(env, s, es[0]), es[1..], s')
  }

  /** What every reachable state satisfies. */
  ghost predicate RunInv(env: Env, init: View, s: State) {
    FullInv(env, init, s) || AboveInv(env, s)
  }

  /** Every state of every run satisfies the invariant. */
  lemma {:induction false} RunKeeps(env: Env, init: View, s: State, es: seq<Event>, s': State)
    requires RunInv(env, init, s) && Leads(env, s, es, s')
    ensures RunInv(env, init, s')
    decreases |es|
  {
    if es != [] {
      NextInv(env, init, s, es[0]);
      RunKeeps(env, init, Next(env, s, es[0]), es[1..], s');
    }
  }

  lemma NextInv(env: Env, init: View, s: State, e: Event)
    requires RunInv(env, init, s) && Enabled(s, e)
    ensures RunInv(env, init, Next(env, s, e))
  {
    if s.phase.Above? {
      AboveKept(env, s, e);
    } else if e.SkipAbove? {
      SkipAboveLeads(env, init, s);
    } else {
      EventKeeps(env, init, s, e);
    }
  }

  lemma ReachableInv(env: Env, s0: State, es: seq<Event>, s: State)
    requires Start(s0) && Leads(env, s0, es, s)
    ensures if s.phase.Above? then AboveInv(env, s) else FullInv(env, StartView(s0), s)
  {
    StartFull(env, s0);
    RunKeeps(env, StartView(s0), s0, es, s);
    WhichInv(env, StartView(s0), s);
  }

  lemma WhichInv(env: Env, init: View, s: State)
    requires RunInv(env, init, s)
    ensures if s.phase.Above? then AboveInv(env, s) else FullInv(env, init, s)
  {
  }

  lemma StartFull(env: Env, s: State)
    requires Start(s)
    ensures FullInv(env, StartView(s), s)
  {
    StartInv(env, s);
  }

  lemma ReachableTasks(env: Env, s0: State, es: seq<Event>, s: State)
    requires Start(s0) && Leads(env, s0, es, s)
    ensures ValidNode(s.chain) && TasksOk(env, s)
  {
    ReachableInv(env, s0, es, s);
  }

  // ---------- Refinement ----------

  /** Nothing is in flight: the importer is idle and every collector is done. */
  predicate Quiescent(s: State) { s.phase.Idle? && AllClosed(s) }

  /** The last block was rejected and nobody has collected the failure yet. */
  predicate UncollectedFailure(s: State) {
    s.pending.Some? && Idx(s, s.pending.value) && s.tasks[s.pending.value].col == Closed(None)
  }

  /** What clients observe: the markers, and the state served at the head. */
  function Observed(s: State): (v: Option<View>)
    requires s.chain.head in s.chain.headers
  {
    var w := PostExecState(s, s.chain.headers[s.chain.head]);
    if w.Some? then Some(View(s.chain.head, s.chain.canon, s.chain.lookup, w.value)) else None
  }

  /** Refinement: in every run, under every interleaving, also when blocks are offered again,
      once nothing is in flight the node shows exactly what importing the same batches block by
      block with the full root check shows, if and only if no failure is left uncollected, no
      known block was published that the full check rejects, and no rollback took the state of
      the head along. In the last case alone everything but that state still agrees; with an
      uncollected failure alone the sequential importer is at the parent of the rejected head. */
  lemma PipelineRefinesSequential(env: Env, s0: State, es: seq<Event>, s: State)
    requires Start(s0) && Leads(env, s0, es, s) && Quiescent(s)
    ensures s.chain.head in s.chain.headers
    ensures Observed(s) == Some(SeqAll(env, StartView(s0), s.offered)) <==>
              !UncollectedFailure(s) && !Diverged(env, s) && !HeadLost(env, s)
    ensures HeadLost(env, s) ==> Observed(s) == None && !UncollectedFailure(s)
    ensures !UncollectedFailure(s) && !Diverged(env, s) ==>
              var v := SeqAll(env, StartView(s0), s.offered);
              v.head == s.chain.head && v.canon == s.chain.canon && v.lookup == s.chain.lookup
    ensures UncollectedFailure(s) && !Diverged(env, s) ==>
              && CanRollBack(s.chain, s.chain.head)
              && SeqAll(env, StartView(s0), s.offered).head == s.chain.headers[s.chain.head].parent
  {
    ReachableInv(env, s0, es, s);
    QuiescentHead(env, StartView(s0), s);
    HeadIsServed(env, StartView(s0), s);
  }

  /** At rest the sequential head is the published one, its parent, or stuck below. */
  lemma QuiescentHead(env: Env, init: View, s: State)
    requires Inv(env, init, s) && Quiescent(s)
    ensures UncollectedFailure(s) <==> Doomed(env, s)
    ensures !Doomed(env, s) && !Diverged(env, s) ==>
              SeqAll(env, init, s.offered) == View(s.chain.head, s.chain.canon, s.chain.lookup, HeadWorld(s))
    ensures Diverged(env, s) ==> SeqAll(env, init, s.offered).head != s.chain.head
    ensures Doomed(env, s) && !Diverged(env, s) ==>
              && CanRollBack(s.chain, s.chain.head) && s.chain.headers[s.chain.head].parent != s.chain.head
              && SeqAll(env, init, s.offered).head == s.chain.headers[s.chain.head].parent
  {
    if s.pending.Some? {
      assert TaskFine(env, s, s.pending.value);
      TipRollsBack(env, s);
      RollbackKeepsValid(s.chain, s.chain.head);
      assert Linked(s.chain.headers, s.chain.genesis, s.chain.head);
    }
  }

  /** Collecting the failure restores agreement with the sequential importer, unless it has
      diverged or the rollback drops the state of the parent. */
  lemma FlushRestores(env: Env, s0: State, es: seq<Event>, s: State)
    requires Start(s0) && Leads(env, s0, es, s) && Quiescent(s) && UncollectedFailure(s)
    ensures Enabled(s, Flush) && Enabled(Next(env, s, Flush), Step)
    ensures var s' := Next(env, Next(env, s, Flush), Step);
            && Quiescent(s') && s'.pending == None && s'.overlay == None
            && s'.chain.head in s'.chain.headers
            && (Observed(s') == Some(SeqAll(env, StartView(s0), s.offered)) <==>
                  !Diverged(env, s) && !WouldDrop(env, s, s.pending.value))
  {
    ReachableInv(env, s0, es, s);
    FlushCollects(env, StartView(s0), s);
    var s' := Next(env, Next(env, s, Flush), Step);
    QuiescentHead(env, StartView(s0), s');
    HeadIsServed(env, StartView(s0), s');
  }

  /** Flushing an uncollected failure is a rollback. */
  lemma FlushCollects(env: Env, init: View, s: State)
    requires FullInv(env, init, s) && Quiescent(s) && UncollectedFailure(s)
    ensures Enabled(s, Flush) && Enabled(Next(env, s, Flush), Step)
    ensures var s' := Next(env, Next(env, s, Flush), Step);
            && FullInv(env, init, s') && Quiescent(s') && s'.pending == None && s'.overlay == None
            && s'.offered == s.offered && s'.skipped == s.skipped
            && (HeadLost(env, s') <==> WouldDrop(env, s, s.pending.value))
  {
    var k, f := s.pending.value, Next(env, s, Flush);
    assert TaskFine(env, s, k);
    TipRollsBack(env, s);
    EventKeeps(env, init, s, Flush);
    EventKeeps(env, init, f, Step);
    FlushDrops(env, f, k);
  }

  /** A flush that rolls back loses the head's state exactly if the rollback drops it. */
  lemma FlushDrops(env: Env, f: State, k: nat)
    requires TipOk(f) && TasksOk(env, f) && LossOk(env, f) && f.phase == Flushing(k) && StepEnabled(f)
    requires f.tasks[k].col.root.None?
    ensures NextStep(env, f) == Recover(env, f, k)
    ensures HeadLost(env, NextStep(env, f)) <==> WouldDrop(env, f, k)
  {
    assert TaskFine(env, f, k);
    RecoverLoss(env, f, k);
  }

  // ---------- What readers see ----------

  /** In every run the head's state is served by both readers unless a rollback took it along.
      While the next block's overlay is already set, it is served unless that block claims the
      head's own root while changing the state. A known block published above a pending one is
      served the state of the root it claims, or that of the pending block if both claim one root. */
  lemma HeadServed(env: Env, s0: State, es: seq<Event>, s: State)
    requires Start(s0) && Leads(env, s0, es, s)
    ensures s.chain.head in s.chain.headers
    ensures !s.phase.Above? && !NextUp(s) ==>
              TipOk(s) && (ServedToAll(s) <==> !HeadLost(env, s)) && (ServedToAll(s) || ServedToNone(s))
    ensures NextUp(s) ==>
              && TipOk(s) && s.rest != [] && (s.phase.Exposing? ==> Idx(s, s.phase.k))
              && (ServedToAll(s) <==> !Hides(s)) && (Hides(s) ==> ServedToNone(s))
    ensures s.phase.Above? ==> Idx(s, s.phase.k) && ServedAbove(s, s.tasks[s.phase.k])
  {
    ReachableInv(env, s0, es, s);
    if s.phase.Above? {
      AboveIsServed(env, s);
    } else {
      HeadIsServed(env, StartView(s0), s);
    }
  }

  /** What both readers give of a head published above the block of task `t`. */
  predicate ServedAbove(s: State, t: Task)
    requires s.chain.head in s.chain.headers
  {
    var h := s.chain.headers[s.chain.head];
    && PostExecState(s, h) == StateAt(s, h.root)
    && if h.root == t.b.header.root then t.base.Of? && StateAt(s, h.root) == Some(PostWorld(t))
       else h.root.Of? && StateAt(s, h.root) == Some(h.root.world)
  }

  lemma AboveIsServed(env: Env, s: State)
    requires AboveInv(env, s)
    ensures ServedAbove(s, s.tasks[s.phase.k])
  {
    assert Linked(s.chain.headers, s.chain.genesis, s.chain.head);
    assert TaskFine(env, s, s.phase.k);
  }

  /** Both readers give the state that the head stands for. */
  ghost predicate ServedToAll(s: State)
    requires TipOk(s)
  {
    var h := s.chain.headers[s.chain.head];
    PostExecState(s, h) == Some(HeadWorld(s)) && StateAt(s, h.root) == Some(HeadWorld(s))
  }

  /** Neither reader does. */
  ghost predicate ServedToNone(s: State)
    requires TipOk(s)
  {
    var h := s.chain.headers[s.chain.head];
    PostExecState(s, h) != Some(HeadWorld(s)) && StateAt(s, h.root) != Some(HeadWorld(s))
  }

  /** The block being written claims the root of the head but changes its state. */
  ghost predicate Hides(s: State)
    requires TipOk(s) && NextUp(s) && s.rest != [] && (s.phase.Exposing? ==> Idx(s, s.phase.k))
  {
    && s.rest[0].header.root == s.chain.headers[s.chain.head].root
    && Overlay(HeadWorld(s), NextJob(s).0) != HeadWorld(s)
  }

  lemma HeadIsServed(env: Env, init: View, s: State)
    requires FullInv(env, init, s)
    ensures !NextUp(s) ==> (ServedToAll(s) <==> !HeadLost(env, s)) && (ServedToAll(s) || ServedToNone(s))
    ensures HeadLost(env, s) ==> PostExecState(s, s.chain.headers[s.chain.head]) == None
    ensures NextUp(s) ==>
              && s.rest != [] && (s.phase.Exposing? ==> Idx(s, s.phase.k))
              && (ServedToAll(s) <==> !Hides(s)) && (Hides(s) ==> ServedToNone(s))
  {
    if Tip(s).Some? {
      assert TaskFine(env, s, Tip(s).value);
    }
    if NextUp(s) {
      NextNumber(env, init, s);
    }
  }

  lemma NextNumber(env: Env, init: View, s: State)
    requires Inv(env, init, s) && NextUp(s)
    ensures s.rest != [] && s.rest[0].header.number == s.chain.headers[s.chain.head].number + 1
    ensures s.phase.Exposing? ==> Idx(s, s.phase.k)
    ensures NextJob(s).1 == s.chain.headers[s.chain.head].root == Of(HeadWorld(s)) && IsCommitted(s, NextJob(s).1)
  {
    if !s.phase.Storing? {
      assert Linked(s.chain.headers, s.chain.genesis, HashOf(s.rest[0]));
    }
  }

  /** Overlay agreement: while the newest block is in flight readers see its post-execution
      state, and once it is verified that is the committed state of its root. The newest block is
      the head unless a known block was published above it. */
  lemma OverlayAgreement(env: Env, s0: State, es: seq<Event>, s: State, k: nat)
    requires Start(s0) && Leads(env, s0, es, s) && Tip(s) == Some(k) && !NextUp(s)
    ensures Idx(s, k) && s.chain.head in s.chain.headers && s.tasks[k].base.Of?
    ensures var x := if s.phase.Above? then s.chain.headers[s.chain.head].parent else s.chain.head;
            HashOf(s.tasks[k].b) == x && x in s.chain.headers && s.chain.headers[x] == s.tasks[k].b.header
    ensures Agrees(s, s.tasks[k])
  {
    ReachableInv(env, s0, es, s);
    if s.phase.Above? {
      AgreesAbove(env, s);
    } else {
      AgreesIn(env, StartView(s0), s);
    }
    assert TaskFine(env, s, k);
  }

  /** Both readers of the task's block see the state execution computed. */
  predicate Agrees(s: State, t: Task)
    requires t.base.Of?
  {
    && PostExecState(s, t.b.header) == Some(PostWorld(t)) && StateAt(s, t.b.header.root) == Some(PostWorld(t))
    && (t.col.Closed? && t.col.root.Some? ==> OpenCommitted(s, t.b.header.root) == Some(PostWorld(t)))
  }

  lemma AgreesIn(env: Env, init: View, s: State)
    requires FullInv(env, init, s) && Tip(s).Some? && !NextUp(s)
    ensures Agrees(s, s.tasks[Tip(s).value])
  {
    assert TaskFine(env, s, Tip(s).value);
  }

  lemma AgreesAbove(env: Env, s: State)
    requires AboveInv(env, s)
    ensures Agrees(s, s.tasks[s.phase.k])
  {
    assert TaskFine(env, s, s.phase.k);
  }

  /** What readers of a header see whose claimed root is not the root of world `w`. */
  predicate Shows(s: State, x: Header, w: World) {
    PostExecState(s, x) == Some(w) || StateAt(s, x.root) == Some(w)
  }

  /** Task `k` computes world `w` for a block that claims root `r`. */
  predicate Computes(s: State, k: nat, r: Root, w: World) {
    Idx(s, k) && s.tasks[k].base.Of? && s.tasks[k].b.header.root == r && PostWorld(s.tasks[k]) == w
  }

  /** The state that a block with a wrong root computed is served under that root only while
      another attempt at the same outcome is not settled or is just being written. So a rollback
      ends it until such an attempt is made. */
  lemma RejectedStateServed(env: Env, s0: State, es: seq<Event>, s: State, k: nat)
    requires Start(s0) && Leads(env, s0, es, s) && Idx(s, k)
    ensures s.tasks[k].base.Of?
    ensures var x, w := s.tasks[k].b.header, PostWorld(s.tasks[k]);
            Of(w) != x.root ==> ShownExactly(s, x, w)
  {
    ReachableInv(env, s0, es, s);
    assert TaskFine(env, s, k);
    if s.phase.Above? {
      ShowsAbove(env, s, s.tasks[k].b.header, PostWorld(s.tasks[k]));
    } else {
      ShowsIn(env, StartView(s0), s, s.tasks[k].b.header, PostWorld(s.tasks[k]));
    }
  }

  /** Readers of header `x` see world `w` exactly if the unsettled task, or the block just being
      written, claims the same root and computes `w`; both readers agree on that. */
  ghost predicate ShownExactly(s: State, x: Header, w: World) {
    && (PostExecState(s, x) == Some(w) <==> StateAt(s, x.root) == Some(w))
    && (!NextUp(s) ==> (Shows(s, x, w) <==> Tip(s).Some? && Computes(s, Tip(s).value, x.root, w)))
    && (NextUp(s) ==>
          && TipOk(s) && s.rest != [] && (s.phase.Exposing? ==> Idx(s, s.phase.k))
          && (Shows(s, x, w) <==>
                s.rest[0].header.root == x.root && Overlay(HeadWorld(s), NextJob(s).0) == w))
  }

  lemma ShowsAbove(env: Env, s: State, x: Header, w: World)
    requires AboveInv(env, s)
    ensures Of(w) != x.root ==> ShownExactly(s, x, w)
  {
    assert TaskFine(env, s, s.phase.k);
  }

  lemma ShowsIn(env: Env, init: View, s: State, x: Header, w: World)
    requires FullInv(env, init, s)
    ensures Of(w) != x.root ==> ShownExactly(s, x, w)
  {
    if Tip(s).Some? {
      assert TaskFine(env, s, Tip(s).value);
    }
    if NextUp(s) {
      NextNumber(env, init, s);
    }
  }

  // ---------- Safety of every reachable state ----------

  /** At most one block handed to SRC is unverified; every SRC starts from the committed root of
      its block's parent; results are set before completion is signalled, exactly once. */
  lemma AtMostOneUnverified(env: Env, s0: State, es: seq<Event>, s: State, k: nat)
    requires Start(s0) && Leads(env, s0, es, s) && Idx(s, k)
    ensures !s.tasks[k].col.Closed? ==> k == |s.tasks| - 1
    ensures var t := s.tasks[k];
            && t.b.header.parent in s.chain.headers
            && t.base == s.chain.headers[t.b.header.parent].root && (Live(s, k) ==> IsCommitted(s, t.base))
            && t.dones <= 1 && (t.dones == 1 <==> t.src.Finished?)
            && t.closes <= 1 && (t.closes == 1 <==> t.col.Closed?)
            && (t.col.Closed? ==> t.col.root == if Good(env, t) then Some(t.b.header.root) else None)
  {
    ReachableTasks(env, s0, es, s);
    assert TaskFine(env, s, k);
  }

  /** A canonical block whose ancestor was rejected is that ancestor itself, still the unsettled
      head, unless another attempt verified the ancestor or it was published as known. The one
      exception is a known block published above the pending ancestor. */
  lemma NoDescendantOfRejected(env: Env, s0: State, es: seq<Event>, s: State, k: nat, x: Hash)
    requires Start(s0) && Leads(env, s0, es, s) && Idx(s, k) && !Good(env, s.tasks[k])
    requires x in s.chain.headers && Canonical(s.chain, x)
    requires ValidTree(s.chain.headers, s.chain.genesis) && TaskHash(s, k) in s.chain.headers
    requires IsAncestor(s.chain.headers, s.chain.genesis, TaskHash(s, k), x)
    ensures || (x == TaskHash(s, k) == s.chain.head && Tip(s).Some?) || Cleared(env, s, TaskHash(s, k))
            || (s.phase.Above? && Idx(s, s.phase.k) && TaskHash(s, k) == TaskHash(s, s.phase.k))
  {
    ReachableInv(env, s0, es, s);
    var c, h := s.chain, TaskHash(s, k);
    AncestorTrans(c.headers, c.genesis, c.head, c.headers[x].number, c.headers[h].number);
    assert Canonical(c, h);
    if s.phase.Above? {
      assert StandsAbove(env, s, s.phase.k, k);
    } else {
      assert StandsOk(env, s, k);
      assert c.headers[c.head].number >= c.headers[x].number;
    }
  }

  /** Task `k` is an attempt to verify block `h`. */
  predicate Attempt(s: State, k: nat, h: Hash) { Idx(s, k) && TaskHash(s, k) == h }

  /** Every attempt at block `h` fails, and it was not published as known. */
  ghost predicate Rejected(env: Env, s: State, h: Hash) {
    && (exists k: nat {:trigger Attempt(s, k, h)} :: Attempt(s, k, h))
    && (forall k: nat {:trigger Attempt(s, k, h)} :: Attempt(s, k, h) ==> !Good(env, s.tasks[k]))
    && forall i {:trigger s.skipped[i]} :: 0 <= i < |s.skipped| ==> HashOf(s.skipped[i].b) != h
  }

  /** The head descends from a rejected block. */
  ghost predicate RejectedBelow(env: Env, s: State) {
    exists h {:trigger Rejected(env, s, h)} :: Rejected(env, s, h) && Canonical(s.chain, h) && h != s.chain.head
  }

  /** A rejected block has canonical descendants in exactly those states of a run that follow the
      publication of a known block above it while it was pending. */
  lemma RejectedBelowExactly(env: Env, s0: State, es: seq<Event>, s: State)
    requires Start(s0) && Leads(env, s0, es, s)
    ensures RejectedBelow(env, s) <==>
              s.phase.Above? && Idx(s, s.phase.k) && !Good(env, s.tasks[s.phase.k])
  {
    ReachableInv(env, s0, es, s);
    if s.phase.Above? {
      RejectedAbove(env, s);
    } else {
      NoneRejectedBelow(env, StartView(s0), s);
    }
  }

  lemma NoneRejectedBelow(env: Env, init: View, s: State)
    requires FullInv(env, init, s)
    ensures !RejectedBelow(env, s)
  {
    forall h | Rejected(env, s, h) && Canonical(s.chain, h)
      ensures h == s.chain.head
    {
      var k: nat :| Attempt(s, k, h);
      assert StandsOk(env, s, k);
      UnclearedRejected(env, s, h);
    }
  }

  /** A rejected block is not cleared. */
  lemma UnclearedRejected(env: Env, s: State, h: Hash)
    requires Rejected(env, s, h)
    ensures !Cleared(env, s, h)
  {
    forall k: nat
      ensures !Verified(env, s, k, h)
    {
      assert Attempt(s, k, h) ==> !Good(env, s.tasks[k]);
    }
  }

  lemma RejectedAbove(env: Env, s: State)
    requires AboveInv(env, s)
    ensures RejectedBelow(env, s) <==> !Good(env, s.tasks[s.phase.k])
  {
    var k := s.phase.k;
    var b := TaskHash(s, k);
    assert Linked(s.chain.headers, s.chain.genesis, s.chain.head) && Attempt(s, k, b);
    if Good(env, s.tasks[k]) {
      forall h | Rejected(env, s, h) && Canonical(s.chain, h)
        ensures false
      {
        var j: nat :| Attempt(s, j, h);
        assert StandsAbove(env, s, k, j);
        UnclearedRejected(env, s, h);
      }
    } else {
      forall j: nat | Attempt(s, j, b)
        ensures !Good(env, s.tasks[j])
      {
        assert TaskFine(env, s, j) && !Verified(env, s, j, b);
      }
      assert Rejected(env, s, b);
    }
  }

  /** The condition can be read off before the block is published. */
  lemma SkipAboveExactly(env: Env, s0: State, es: seq<Event>, s: State)
    requires Start(s0) && Leads(env, s0, es, s) && Enabled(s, SkipAbove)
    ensures !RejectedBelow(env, s) && Idx(s, s.pending.value)
    ensures RejectedBelow(env, NextAbove(s)) <==> !Good(env, s.tasks[s.pending.value])
  {
    ReachableInv(env, s0, es, s);
    NoneRejectedBelow(env, StartView(s0), s);
    SkipAboveLeads(env, StartView(s0), s);
    RejectedAbove(env, NextAbove(s));
  }

  /** No attempt can verify a block whose root is wrong: only being published as known clears it. */
  lemma WrongRootIsNeverVerified(env: Env, s0: State, es: seq<Event>, s: State, k: nat)
    requires Start(s0) && Leads(env, s0, es, s) && Idx(s, k)
    ensures s.tasks[k].base.Of?
    ensures Of(PostWorld(s.tasks[k])) != s.tasks[k].b.header.root && Cleared(env, s, TaskHash(s, k)) ==>
              exists i :: 0 <= i < |s.skipped| && HashOf(s.skipped[i].b) == TaskHash(s, k)
  {
    ReachableTasks(env, s0, es, s);
    assert TaskFine(env, s, k);
    if Of(PostWorld(s.tasks[k])) != s.tasks[k].b.header.root {
      forall j: nat
        ensures !Verified(env, s, j, TaskHash(s, k))
      {
        if Idx(s, j) && TaskHash(s, j) == TaskHash(s, k) {
          SameHashSameTask(env, s, j, k);
        }
      }
    }
  }

  /** Two attempts at one block start from the same root and compute the same state. */
  lemma SameHashSameTask(env: Env, s: State, j: nat, k: nat)
    requires TasksOk(env, s) && Idx(s, j) && Idx(s, k) && TaskHash(s, j) == TaskHash(s, k)
    ensures s.tasks[j].b == s.tasks[k].b && s.tasks[j].base == s.tasks[k].base && s.tasks[j].diff == s.tasks[k].diff
  {
    assert TaskFine(env, s, j) && TaskFine(env, s, k);
  }

  // ---------- Progress ----------

  /** The importer waits for a collector while holding the chain lock. */
  predicate Blocked(s: State) {
    (s.phase.Collecting? || s.phase.Flushing?) && Tip(s).Some? && Idx(s, Tip(s).value) && !ClosedAt(s, Tip(s).value)
  }

  /** How many background steps the task still needs. */
  function StepsLeft(t: Task): (n: nat) {
    (if t.src.Running? then 2 else if t.src.Computed? then 1 else 0)
    + (if t.col.Closed? then 0 else if t.col.Decided? then 1 else 2)
  }

  /** Progress: an importer that waits is never deadlocked. SRC or the collector can step, each
      such step brings the end of the wait closer, and when none is left the wait is over. */
  lemma WaitIsBounded(env: Env, s0: State, es: seq<Event>, s: State) returns (e: Event)
    requires Start(s0) && Leads(env, s0, es, s) && Blocked(s)
    ensures e == SrcStep(Tip(s).value) || e == CollectStep(Tip(s).value)
    ensures Enabled(s, e)
    ensures var s' := Next(env, s, e);
            && s'.phase == s.phase && Tip(s') == Tip(s)
            && StepsLeft(s'.tasks[Tip(s).value]) < StepsLeft(s.tasks[Tip(s).value])
            && (!Blocked(s') ==> StepEnabled(s'))
  {
    ReachableInv(env, s0, es, s);
    TipRollsBack(env, s);
    assert TaskFine(env, s, Tip(s).value);
    e := NextBackgroundStep(env, s, Tip(s).value);
  }

  /** The importer is never stuck: if it has work and does not wait, it can step, as long as its
      steps are followed. */
  lemma ImporterNeverStuck(env: Env, s0: State, es: seq<Event>, s: State)
    requires Start(s0) && Leads(env, s0, es, s) && !s.phase.Idle? && !s.phase.Above? && !Blocked(s)
    ensures StepEnabled(s)
  {
    ReachableInv(env, s0, es, s);
    if Tip(s).Some? {
      TipRollsBack(env, s);
    }
    if s.phase.Exposing? {
      CrownsChild(s.chain, HashOf(s.rest[0]));
    }
  }

  lemma NextBackgroundStep(env: Env, s: State, k: nat) returns (e: Event)
    requires TipOk(s) && Blocked(s) && Tip(s) == Some(k) && CanRollBack(s.chain, s.chain.head)
    requires !s.tasks[k].col.NotStarted? && (s.tasks[k].col.Decided? ==> s.tasks[k].src.Finished?)
    ensures e == SrcStep(k) || e == CollectStep(k)
    ensures Enabled(s, e)
    ensures var s' := Next(env, s, e);
            && s'.phase == s.phase && Tip(s') == Tip(s)
            && StepsLeft(s'.tasks[k]) < StepsLeft(s.tasks[k])
            && (!Blocked(s') ==> StepEnabled(s'))
  {
    e := if s.tasks[k].src.Finished? then CollectStep(k) else SrcStep(k);
  }
}
