/** What every step of the pipelined import keeps. */
module PipelineInvariant {
  import opened Wrappers
  import opened HeaderTree
  import opened CanonicalIndex
  import opened Convergence
  import opened NodeOps
  import opened Validator
  import opened Pipeline
  import opened PipelineBatches

  function HashOf(b: Block): (h: Hash) { b.header.hash }

  /** The state after the task's block, as execution computed it. */
  function PostWorld(t: Task): (w: World)
    requires t.base.Of?
  {
    Overlay(t.base.world, t.diff)
  }

  /** The task will be verified: its commit succeeds and gives the root its header claims. */
  predicate Good(env: Env, t: Task) {
    t.base.Of? && !CommitFails(env, t.b, t.attempt) && Of(PostWorld(t)) == t.b.header.root
  }

  /** The task whose block is the published head and has not been settled by the importer. */
  function Tip(s: State): (k: Option<nat>) {
    match s.phase
    case Registering(k) => Some(k)
    case Flushing(k) => Some(k)
    case _ => s.pending
  }

  // ---------- Parts of the invariant ----------

  /** Task `k` started from the committed root of its block's parent with the changes execution
      makes there, and its results are the ones these determine. Each completion is signalled at
      most once, after its result. */
  ghost predicate TaskOk(env: Env, c: Node, phase: Phase, t: Task, k: nat) {
    var h := t.b.header;
    && t.base.Of?
    && Has(c, t.b) && h.hash != c.genesis && h.difficulty > 0
    && h.parent in c.headers && c.headers[h.parent].root == t.base
    && CheapExec(env, t.b, t.base.world) == Some(t.diff)
    && ResultsOk(env, t)
    && (t.col.NotStarted? ==> phase == Exposing(k) || phase == Registering(k))
  }

  ghost predicate ResultsOk(env: Env, t: Task)
    requires t.base.Of?
  {
    && (!t.src.Running? ==> t.src.root == if CommitFails(env, t.b, t.attempt) then None else Some(Of(PostWorld(t))))
    && t.dones == (if t.src.Finished? then 1 else 0)
    && (t.col.Decided? || t.col.Closed? ==>
          t.src.Finished? && t.col.root == if Good(env, t) then Some(t.b.header.root) else None)
    && t.closes == (if t.col.Closed? then 1 else 0)
  }

  /** Task `k` is not verified yet, or its block is the head. */
  predicate Live(s: State, k: nat)
    requires Idx(s, k)
  {
    !s.tasks[k].col.Closed? || Tip(s) == Some(k)
  }

  /** The state the task started from and the one it computed can be opened. */
  predicate StatesKept(t: Task, committed: set<World>)
    requires t.base.Of?
  {
    && t.base.world in committed
    && (!t.src.Running? && t.src.root.Some? ==> PostWorld(t) in committed)
  }

  /** Task `k` is in order, finished unless it is the newest, and has its states while it is live. */
  ghost predicate TaskFine(env: Env, s: State, k: nat)
    requires Idx(s, k)
  {
    && TaskOk(env, s.chain, s.phase, s.tasks[k], k) && (k + 1 < |s.tasks| ==> s.tasks[k].col.Closed?)
    && (Live(s, k) ==> StatesKept(s.tasks[k], s.committed))
  }

  ghost predicate TasksOk(env: Env, s: State) {
    forall k: nat {:trigger TaskFine(env, s, k)} :: Idx(s, k) ==> TaskFine(env, s, k)
  }

  predicate AllClosed(s: State) { s.tasks != [] ==> s.tasks[|s.tasks| - 1].col.Closed? }

  /** The tip is the newest task but for the moment between starting SRC for the next block and
      publishing it; without a tip the state of the head is committed whenever there is work. */
  ghost predicate TipOk(s: State) {
    && s.chain.head in s.chain.headers
    && (Tip(s).Some? ==>
          && Idx(s, Tip(s).value)
          && HashOf(s.tasks[Tip(s).value].b) == s.chain.head
          && s.tasks[Tip(s).value].base.Of?
          && (Tip(s).value == |s.tasks| - 1 || (s.phase.Exposing? && Tip(s).value == |s.tasks| - 2)))
    && (Tip(s).None? ==> s.chain.headers[s.chain.head].root.Of?)
    && (Tip(s).None? && !s.phase.Idle? ==> IsCommitted(s, s.chain.headers[s.chain.head].root))
    && (Tip(s).None? && !s.phase.Exposing? ==> AllClosed(s))
    && (s.phase.Exposing? || s.phase.Registering? ==> s.phase.k == |s.tasks| - 1)
  }

  /** The state that the published head stands for. */
  function HeadWorld(s: State): (w: World)
    requires TipOk(s)
  {
    if Tip(s).Some? then PostWorld(s.tasks[Tip(s).value]) else s.chain.headers[s.chain.head].root.world
  }

  /** The published head will be rejected. */
  predicate Doomed(env: Env, s: State) {
    Tip(s).Some? && Idx(s, Tip(s).value) && !Good(env, s.tasks[Tip(s).value])
  }

  /** Root `base` is the committed root of the head, which is verified. */
  ghost predicate Settled(env: Env, s: State, base: Root)
    requires TipOk(s)
  {
    !Doomed(env, s) && base == s.chain.headers[s.chain.head].root && base == Of(HeadWorld(s)) && IsCommitted(s, base)
  }

  /** Block `b` is stored on top of the head and repeats no canonical transaction. */
  ghost predicate StoredNext(c: Node, b: Block) {
    && HashOf(b) in c.headers && HashOf(b) in c.bodies && HashOf(b) != c.genesis
    && c.headers[HashOf(b)] == b.header && c.bodies[HashOf(b)] == b.txs
    && b.header.parent == c.head && b.header.difficulty > 0
    && forall tx :: tx in b.txs ==> tx !in c.lookup
  }

  ghost predicate PhaseOk(env: Env, s: State)
    requires TipOk(s)
  {
    match s.phase
    case Idle => s.rest == []
    case Ready => s.rest != [] && Extending(s.chain, s.rest)
    case Executing(base, over) =>
      && s.rest != [] && Extending(s.chain, s.rest) && IsCommitted(s, base)
      && HeadWorld(s) == if over.Some? then Overlay(base.world, over.value) else base.world
    case Collecting(diff) =>
      && s.rest != [] && Extending(s.chain, s.rest)
      && CheapExec(env, s.rest[0], HeadWorld(s)) == Some(diff)
    case Overlaying(diff, base) =>
      && s.rest != [] && Extending(s.chain, s.rest)
      && AllClosed(s) && Settled(env, s, base) && CheapExec(env, s.rest[0], HeadWorld(s)) == Some(diff)
    case Storing(diff, base) =>
      && s.rest != [] && Extending(s.chain, s.rest)
      && AllClosed(s) && Settled(env, s, base) && CheapExec(env, s.rest[0], HeadWorld(s)) == Some(diff)
    case Spawning(diff, base) =>
      && s.rest != [] && StoredNext(s.chain, s.rest[0]) && Extending(WriteHead(s.chain, HashOf(s.rest[0])), s.rest[1..])
      && AllClosed(s) && Settled(env, s, base) && CheapExec(env, s.rest[0], HeadWorld(s)) == Some(diff)
    case Exposing(k) =>
      && s.rest != [] && StoredNext(s.chain, s.rest[0]) && Extending(WriteHead(s.chain, HashOf(s.rest[0])), s.rest[1..])
      && s.tasks[k].b == s.rest[0] && s.tasks[k].col.NotStarted? && s.tasks[k].attempt == |s.offered|
      && Settled(env, s, s.tasks[k].base) && CheapExec(env, s.rest[0], HeadWorld(s)) == Some(s.tasks[k].diff)
    case Registering(k) => s.tasks[k].col.NotStarted? && Extending(s.chain, s.rest)
    case Flushing(k) => s.rest == [] && s.pending == None
    case Above(_) => false
  }

  /** What the sequential importer would show by now: a doomed head does not count. */
  ghost function Abs(env: Env, s: State): (v: View)
    requires TipOk(s) && ValidNode(s.chain)
    requires Doomed(env, s) ==> CanRollBack(s.chain, s.chain.head)
  {
    if Doomed(env, s) then
      var c := Rollback(s.chain, s.chain.head);
      View(c.head, c.canon, c.lookup, s.tasks[Tip(s).value].base.world)
    else
      View(s.chain.head, s.chain.canon, s.chain.lookup, HeadWorld(s))
  }

  ghost function AbsRest(env: Env, s: State): (r: seq<Block>) {
    if Doomed(env, s) then [] else s.rest
  }

  /** The sequential importer would have published the block too. */
  predicate Honest(env: Env, k: Skip) { k.base.Of? && Accepts(env, k.b, k.base.world, k.attempt) }

  /** A known block was published that the sequential importer rejects. */
  ghost predicate Diverged(env: Env, s: State) {
    exists i {:trigger s.skipped[i]} :: 0 <= i < |s.skipped| && !Honest(env, s.skipped[i])
  }

  /** The lowest height the head can fall back to. */
  function Floor(s: State): (n: int)
    requires s.chain.head in s.chain.headers
  {
    var settled := s.phase.Overlaying? || s.phase.Storing? || s.phase.Spawning? || s.phase.Exposing?;
    s.chain.headers[s.chain.head].number - (if Tip(s).None? || settled then 0 else 1)
  }

  /** Head `h` is below everything the node will ever have as head. */
  predicate Behind(s: State, h: Hash)
    requires s.chain.head in s.chain.headers
  {
    h in s.chain.headers && s.chain.headers[h].number < Floor(s)
  }

  /** Finishing the current batch one block at a time, from what the sequential importer would
      show, gives the sequential result of everything offered; after a divergence the sequential
      importer is stuck below. */
  ghost predicate Simulates(env: Env, init: View, s: State)
    requires TipOk(s) && ValidNode(s.chain)
  {
    && (Doomed(env, s) ==> CanRollBack(s.chain, s.chain.head))
    && if Diverged(env, s) then Behind(s, SeqAll(env, init, s.offered).head)
       else SeqBatch(env, Abs(env, s), AbsRest(env, s), |s.offered|) == SeqAll(env, init, s.offered)
  }

  ghost predicate Inv(env: Env, init: View, s: State) {
    && ValidNode(s.chain) && TipOk(s) && TasksOk(env, s) && PhaseOk(env, s) && Simulates(env, init, s)
  }

  /** A node at rest whose head state is committed. */
  ghost predicate Start(s: State) {
    && ValidNode(s.chain) && IsCommitted(s, s.chain.headers[s.chain.head].root)
    && s.overlay == None && s.tasks == [] && s.pending == None && s.phase == Idle && s.rest == []
    && s.offered == [] && s.skipped == [] && s.freed == []
  }

  ghost function StartView(s: State): (v: View)
    requires Start(s)
  {
    View(s.chain.head, s.chain.canon, s.chain.lookup, s.chain.headers[s.chain.head].root.world)
  }

  lemma StartInv(env: Env, s: State)
    requires Start(s)
    ensures Inv(env, StartView(s), s)
  {
  }

  // ---------- Preservation, step by step ----------

  /** The tip of a sound node can be rolled back. */
  lemma TipRollsBack(env: Env, s: State)
    requires ValidNode(s.chain) && TipOk(s) && TasksOk(env, s) && Tip(s).Some?
    ensures CanRollBack(s.chain, s.chain.head) && s.chain.head != s.chain.genesis
    ensures IsAncestor(s.chain.headers, s.chain.genesis, s.chain.head, s.chain.head)
  {
    assert TaskFine(env, s, Tip(s).value);
  }

  lemma OfferKeeps(env: Env, init: View, s: State, batch: seq<Block>)
    requires Inv(env, init, s) && Enabled(s, Offer(batch))
    ensures Inv(env, init, Next(env, s, Offer(batch)))
  {
    var s' := Next(env, s, Offer(batch));
    TasksUnmoved(env, s, s');
    assert s'.offered[..|s'.offered| - 1] == s.offered;
    if Doomed(env, s) {
      // The sequential importer never had this head, so it ignores the batch.
      TipRollsBack(env, s);
      RollbackKeepsValid(s.chain, s.chain.head);
    }
    assert Linked(s.chain.headers, s.chain.genesis, s.chain.head);
  }

  /** Steps of the importer that add no task and forget no header keep the tasks in order. */
  lemma TasksUnmoved(env: Env, s: State, s': State)
    requires TasksOk(env, s) && s'.tasks == s.tasks && s'.committed == s.committed
    requires Grows(s.chain, s'.chain)
    requires s.phase.Exposing? ==> s'.phase == Registering(s.phase.k)
    requires !s.phase.Registering?
    requires forall k: nat {:trigger Live(s', k)} :: Idx(s', k) && Live(s', k) ==> Live(s, k)
    ensures TasksOk(env, s')
  {
    forall k: nat | Idx(s', k)
      ensures TaskFine(env, s', k)
    {
      assert TaskFine(env, s, k);
    }
  }

  lemma FlushKeeps(env: Env, init: View, s: State)
    requires Inv(env, init, s) && Enabled(s, Flush)
    ensures Inv(env, init, Next(env, s, Flush))
  {
    TasksUnmoved(env, s, Next(env, s, Flush));
  }

  /** The task is the same in both states, except for its progress. */
  predicate SameWork(s: State, s': State, k: nat)
    requires Idx(s, k) && Idx(s', k)
  {
    && s'.tasks[k].b == s.tasks[k].b && s'.tasks[k].diff == s.tasks[k].diff && s'.tasks[k].base == s.tasks[k].base
    && s'.tasks[k].attempt == s.tasks[k].attempt
    && (s.tasks[k].col.Closed? ==> s'.tasks[k] == s.tasks[k])
  }

  /** It is known to the collector in both states or in neither. */
  predicate SameJob(s: State, s': State, k: nat)
    requires Idx(s, k) && Idx(s', k)
  {
    SameWork(s, s', k) && (s'.tasks[k].col.NotStarted? <==> s.tasks[k].col.NotStarted?)
  }

  /** Only the progress of the background computations differs. */
  ghost predicate Background(s: State, s': State) {
    && s' == s.(tasks := s'.tasks, committed := s'.committed, refs := s'.refs, disk := s'.disk)
    && s.committed <= s'.committed && |s'.tasks| == |s.tasks|
    && forall k: nat {:trigger SameJob(s, s', k)} :: Idx(s, k) ==> SameJob(s, s', k)
  }

  /** What a step must respect so that the sequential importer does not notice it. */
  lemma SimulatesOn(env: Env, init: View, s: State, s': State)
    requires TipOk(s) && ValidNode(s.chain) && Simulates(env, init, s) && TipOk(s') && ValidNode(s'.chain)
    requires s'.offered == s.offered && s'.skipped == s.skipped
    requires Extends(s.chain.headers, s'.chain.headers) && Floor(s) <= Floor(s')
    requires Doomed(env, s') ==> CanRollBack(s'.chain, s'.chain.head)
    requires !Diverged(env, s) ==>
               SeqBatch(env, Abs(env, s'), AbsRest(env, s'), |s.offered|) ==
                 SeqBatch(env, Abs(env, s), AbsRest(env, s), |s.offered|)
    ensures Simulates(env, init, s')
  {
    assert Diverged(env, s') == Diverged(env, s);
  }

  /** The same head with the same job behind it and the same blocks to come: a step between two
      such states is invisible to the sequential importer. */
  lemma SameMeaning(env: Env, init: View, s: State, s': State)
    requires TipOk(s) && ValidNode(s.chain) && Simulates(env, init, s) && TipOk(s') && ValidNode(s'.chain)
    requires Tip(s') == Tip(s) && (Tip(s).Some? ==> SameJob(s, s', Tip(s).value))
    requires s'.rest == s.rest && s'.offered == s.offered && s'.skipped == s.skipped && Floor(s) <= Floor(s')
    requires s'.chain == s.chain || (!Doomed(env, s) && SameMarkers(s.chain, s'.chain))
    ensures HeadWorld(s') == HeadWorld(s) && Simulates(env, init, s') && Doomed(env, s') == Doomed(env, s)
  {
    assert Abs(env, s') == Abs(env, s);
    SimulatesOn(env, init, s, s');
  }

  /** Background progress changes nothing the importer relies on. */
  lemma BackgroundKeeps(env: Env, init: View, s: State, s': State)
    requires Inv(env, init, s) && Background(s, s')
    ensures TipOk(s') && PhaseOk(env, s') && Simulates(env, init, s')
  {
    BackgroundTip(s, s');
    SameMeaning(env, init, s, s');
    BackgroundPhase(env, s, s');
  }

  lemma BackgroundTip(s: State, s': State)
    requires TipOk(s) && Background(s, s')
    ensures TipOk(s') && Tip(s') == Tip(s) && Floor(s') == Floor(s)
    ensures Tip(s).Some? ==> SameJob(s, s', Tip(s).value)
  {
    if Tip(s).Some? {
      assert SameJob(s, s', Tip(s).value);
    }
    if s.tasks != [] {
      assert SameJob(s, s', |s.tasks| - 1);
    }
  }

  lemma BackgroundPhase(env: Env, s: State, s': State)
    requires TipOk(s) && PhaseOk(env, s) && Background(s, s') && TipOk(s')
    requires HeadWorld(s') == HeadWorld(s) && Doomed(env, s') == Doomed(env, s)
    ensures PhaseOk(env, s')
  {
    if s.tasks != [] {
      assert SameJob(s, s', |s.tasks| - 1);
    }
  }

  /** Progress of one task leaves all tasks in order if its own results are. */
  lemma ProgressKeepsTasks(env: Env, s: State, s': State, k: nat)
    requires TasksOk(env, s) && Background(s, s') && Idx(s, k) && s'.tasks == s.tasks[k := s'.tasks[k]]
    requires s'.tasks[k].base.Of? && ResultsOk(env, s'.tasks[k]) && StatesKept(s'.tasks[k], s'.committed)
    ensures TasksOk(env, s')
  {
    assert SameJob(s, s', k);
    forall i: nat | Idx(s', i)
      ensures TaskFine(env, s', i)
    {
      assert TaskFine(env, s, i);
    }
  }

  lemma SrcKeeps(env: Env, init: View, s: State, k: nat)
    requires Inv(env, init, s) && Enabled(s, SrcStep(k))
    ensures Inv(env, init, Next(env, s, SrcStep(k)))
  {
    var s' := Next(env, s, SrcStep(k));
    assert TaskFine(env, s, k);
    SrcResults(env, s, k);
    BackgroundKeeps(env, init, s, s');
    ProgressKeepsTasks(env, s, s', k);
  }

  lemma SrcResults(env: Env, s: State, k: nat)
    requires Enabled(s, SrcStep(k)) && TaskFine(env, s, k)
    ensures var s' := Next(env, s, SrcStep(k));
            && Background(s, s') && s'.tasks == s.tasks[k := s'.tasks[k]]
            && s'.tasks[k].base.Of? && ResultsOk(env, s'.tasks[k]) && StatesKept(s'.tasks[k], s'.committed)
  {
  }

  lemma CollectKeeps(env: Env, init: View, s: State, k: nat)
    requires Inv(env, init, s) && Enabled(s, CollectStep(k))
    ensures Inv(env, init, Next(env, s, CollectStep(k)))
  {
    var s' := Next(env, s, CollectStep(k));
    assert TaskFine(env, s, k);
    CollectResults(env, s, k);
    BackgroundKeeps(env, init, s, s');
    ProgressKeepsTasks(env, s, s', k);
  }

  lemma CollectResults(env: Env, s: State, k: nat)
    requires Enabled(s, CollectStep(k)) && TaskFine(env, s, k)
    ensures var s' := Next(env, s, CollectStep(k));
            && Background(s, s') && s'.tasks == s.tasks[k := s'.tasks[k]]
            && s'.tasks[k].base.Of? && ResultsOk(env, s'.tasks[k]) && StatesKept(s'.tasks[k], s'.committed)
  {
  }

  /** The importer moves to another phase and leaves everything but the overlay alone. */
  ghost predicate Moves(s: State, s': State) {
    && s' == s.(phase := s'.phase, overlay := s'.overlay) && Tip(s') == Tip(s)
    && !s.phase.Exposing? && !s.phase.Registering? && !s'.phase.Exposing? && !s'.phase.Registering?
    && !s.phase.Idle?
  }

  lemma MoveKeeps(env: Env, init: View, s: State, s': State)
    requires TipOk(s) && ValidNode(s.chain) && TasksOk(env, s) && Simulates(env, init, s)
    requires Moves(s, s') && Floor(s) <= Floor(s')
    ensures TipOk(s') && TasksOk(env, s') && Simulates(env, init, s')
    ensures HeadWorld(s') == HeadWorld(s) && Doomed(env, s') == Doomed(env, s)
  {
    TasksUnmoved(env, s, s');
    SameMeaning(env, init, s, s');
  }

  /** Choosing the state to execute on: the pending block's base and changes, or the head's
      committed state, are the state of the head either way. */
  lemma ReadyKeeps(env: Env, init: View, s: State)
    requires Inv(env, init, s) && s.phase.Ready? && StepEnabled(s)
    ensures Inv(env, init, NextStep(env, s))
  {
    if s.pending.Some? {
      assert TaskFine(env, s, s.pending.value);
    }
    if HasHeadState(s) || IsKnown(s, s.rest[0]) {
      MoveKeeps(env, init, s, NextStep(env, s));
    } else {
      StopKeeps(env, init, s);
    }
  }

  /** A batch ends when the state of the head is missing, which means that the head was rejected. */
  lemma StopKeeps(env: Env, init: View, s: State)
    requires Inv(env, init, s) && s.phase.Ready? && !HasHeadState(s)
    ensures Inv(env, init, s.(phase := Idle, rest := [])) && Doomed(env, s)
  {
    var s' := s.(phase := Idle, rest := []);
    assert TaskFine(env, s, s.pending.value);
    TasksUnmoved(env, s, s');
    StopMeaning(env, init, s);
  }

  lemma StopMeaning(env: Env, init: View, s: State)
    requires TipOk(s) && ValidNode(s.chain) && Simulates(env, init, s) && s.phase.Ready? && Doomed(env, s)
    ensures TipOk(s.(phase := Idle, rest := [])) && Simulates(env, init, s.(phase := Idle, rest := []))
  {
    var s' := s.(phase := Idle, rest := []);
    assert Abs(env, s') == Abs(env, s);
    SimulatesOn(env, init, s, s');
  }

  /** A block that fails execution fails in the sequential importer too. */
  lemma ExecutingKeeps(env: Env, init: View, s: State)
    requires Inv(env, init, s) && s.phase.Executing? && StepEnabled(s)
    ensures Inv(env, init, NextStep(env, s))
  {
    if CheapExec(env, s.rest[0], HeadWorld(s)).Some? {
      MoveKeeps(env, init, s, NextStep(env, s));
    } else {
      AbortKeeps(env, init, s);
    }
  }

  lemma AbortKeeps(env: Env, init: View, s: State)
    requires Inv(env, init, s) && s.phase.Executing? && CheapExec(env, s.rest[0], HeadWorld(s)).None?
    ensures Inv(env, init, Abort(s))
  {
    TasksUnmoved(env, s, Abort(s));
    AbortTip(s);
    RestFails(env, init, s, Abort(s));
  }

  lemma AbortTip(s: State)
    requires TipOk(s) && s.phase.Executing?
    ensures TipOk(Abort(s)) && Tip(Abort(s)) == Tip(s) && Floor(Abort(s)) == Floor(s)
  {
  }

  /** Giving up on the rest of a batch whose first block cannot be executed. */
  lemma RestFails(env: Env, init: View, s: State, s': State)
    requires TipOk(s) && ValidNode(s.chain) && Simulates(env, init, s) && TipOk(s') && s'.chain == s.chain
    requires Tip(s') == Tip(s) && s'.tasks == s.tasks && Floor(s) <= Floor(s')
    requires s'.offered == s.offered && s'.skipped == s.skipped
    requires s.rest != [] && s'.rest == [] && CheapExec(env, s.rest[0], HeadWorld(s)).None?
    ensures Simulates(env, init, s')
  {
    assert HeadWorld(s') == HeadWorld(s) && Abs(env, s') == Abs(env, s);
    if !Doomed(env, s) {
      NotExecutable(env, s.rest[0], HeadWorld(s), |s.offered|);
    }
    SimulatesOn(env, init, s, s');
  }

  lemma NotExecutable(env: Env, b: Block, w: World, n: nat)
    requires CheapExec(env, b, w).None?
    ensures !Accepts(env, b, w, n)
  {
    var x := env.exec(b, w);
    if x.Some? {
      FullIsCheapPlusRoot(b.header.claims, b.header.root, Some(x.value.result), Of(Overlay(w, x.value.diff)));
    }
  }

  /** Rolling back a rejected head yields what the sequential importer shows. */
  lemma RecoverKeeps(env: Env, init: View, s: State, k: nat)
    requires Inv(env, init, s) && Tip(s) == Some(k) && k == |s.tasks| - 1
    requires Doomed(env, s) && (s.phase.Collecting? || s.phase.Flushing? || s.phase.Idle?)
    requires ClosedAt(s, k) && CanRollBack(s.chain, HashOf(s.tasks[k].b))
    ensures Inv(env, init, Recover(env, s, k))
  {
    var s' := Recover(env, s, k);
    TipRollsBack(env, s);
    RollbackKeepsValid(s.chain, s.chain.head);
    RecoverTasks(env, s, k);
    RecoverTip(env, s, k);
    RecoverMeaning(env, s, k);
    SimulatesOn(env, init, s, s');
  }

  /** After a rollback no task is live, so none needs its states. */
  lemma RecoverTasks(env: Env, s: State, k: nat)
    requires TasksOk(env, s) && k == |s.tasks| - 1 && ClosedAt(s, k) && CanRollBack(s.chain, HashOf(s.tasks[k].b))
    ensures TasksOk(env, Recover(env, s, k))
  {
    var s' := Recover(env, s, k);
    forall i: nat | Idx(s', i)
      ensures TaskFine(env, s', i)
    {
      assert TaskFine(env, s, i);
    }
  }

  lemma RecoverTip(env: Env, s: State, k: nat)
    requires TipOk(s) && TasksOk(env, s) && ValidNode(s.chain) && Tip(s) == Some(k) && k == |s.tasks| - 1
    requires s.phase.Collecting? || s.phase.Flushing? || s.phase.Idle?
    requires ClosedAt(s, k) && CanRollBack(s.chain, HashOf(s.tasks[k].b))
    ensures TipOk(Recover(env, s, k)) && Floor(s) <= Floor(Recover(env, s, k))
  {
    assert TaskFine(env, s, k);
    assert Linked(s.chain.headers, s.chain.genesis, s.chain.head);
  }

  lemma RecoverMeaning(env: Env, s: State, k: nat)
    requires TipOk(s) && TasksOk(env, s) && ValidNode(s.chain) && Tip(s) == Some(k) && Doomed(env, s)
    requires Idx(s, k) && CanRollBack(s.chain, HashOf(s.tasks[k].b))
    requires TipOk(Recover(env, s, k)) && ValidNode(Recover(env, s, k).chain)
    ensures !Doomed(env, Recover(env, s, k)) && Abs(env, Recover(env, s, k)) == Abs(env, s)
  {
    assert TaskFine(env, s, k);
  }

  lemma CollectingKeeps(env: Env, init: View, s: State)
    requires Inv(env, init, s) && s.phase.Collecting? && StepEnabled(s)
    ensures Inv(env, init, NextStep(env, s))
  {
    if s.pending.Some? {
      assert TaskFine(env, s, s.pending.value);
    }
    if s.pending.Some? && s.tasks[s.pending.value].col.root.None? {
      RecoverKeeps(env, init, s, s.pending.value);
    } else {
      MoveKeeps(env, init, s, NextStep(env, s));
    }
  }

  lemma FlushingKeeps(env: Env, init: View, s: State)
    requires Inv(env, init, s) && s.phase.Flushing? && StepEnabled(s)
    ensures Inv(env, init, NextStep(env, s))
  {
    var k := s.phase.k;
    assert TaskFine(env, s, k);
    if s.tasks[k].col.root.None? {
      RecoverKeeps(env, init, s, k);
    } else {
      TasksUnmoved(env, s, NextStep(env, s));
    }
  }

  lemma OverlayingKeeps(env: Env, init: View, s: State)
    requires Inv(env, init, s) && s.phase.Overlaying? && StepEnabled(s)
    ensures Inv(env, init, NextStep(env, s))
  {
    MoveKeeps(env, init, s, NextStep(env, s));
  }

  /** Storing a block that attaches to the head makes it ready to be published. */
  lemma StoredIsNext(c: Node, batch: seq<Block>)
    requires ValidNode(c) && batch != [] && Extending(c, batch)
    ensures var d := StoreBlock(c, batch[0]);
            && d.head in d.headers && d.headers[d.head] == c.headers[c.head] && Grows(c, d)
            && StoredNext(d, batch[0]) && Extending(WriteHead(d, HashOf(batch[0])), batch[1..])
  {
    assert Linked(c.headers, c.genesis, c.genesis);
  }

  lemma StoringTip(s: State, s': State)
    requires TipOk(s) && s.phase.Storing? && s'.phase.Spawning? && s'.pending == s.pending
    requires s'.tasks == s.tasks && s'.committed == s.committed && s'.chain.head == s.chain.head
    requires s.chain.head in s'.chain.headers && s'.chain.headers[s.chain.head] == s.chain.headers[s.chain.head]
    ensures TipOk(s') && Tip(s') == Tip(s)
  {
  }

  /** Writing the block stores it beside the canonical chain and changes no marker. */
  lemma StoringKeeps(env: Env, init: View, s: State)
    requires Inv(env, init, s) && s.phase.Storing? && StepEnabled(s)
    ensures Inv(env, init, NextStep(env, s))
  {
    var s' := NextStep(env, s);
    StoreKeepsChain(s.chain, s.rest[0], s.chain.head);
    StoredIsNext(s.chain, s.rest);
    TasksUnmoved(env, s, s');
    StoringTip(s, s');
    SameMeaning(env, init, s, s');
    StoringPhase(env, s);
  }

  lemma StoringPhase(env: Env, s: State)
    requires TipOk(s) && PhaseOk(env, s) && s.phase.Storing? && StepEnabled(s) && TipOk(NextStep(env, s))
    requires HeadWorld(NextStep(env, s)) == HeadWorld(s) && Doomed(env, NextStep(env, s)) == Doomed(env, s)
    requires NextStep(env, s).chain.headers[s.chain.head] == s.chain.headers[s.chain.head]
    requires var d := StoreBlock(s.chain, s.rest[0]);
             StoredNext(d, s.rest[0]) && Extending(WriteHead(d, HashOf(s.rest[0])), s.rest[1..])
    ensures PhaseOk(env, NextStep(env, s))
  {
  }

  lemma SpawningKeeps(env: Env, init: View, s: State)
    requires Inv(env, init, s) && s.phase.Spawning? && StepEnabled(s)
    ensures Inv(env, init, NextStep(env, s))
  {
    var s' := NextStep(env, s);
    forall i: nat | Idx(s', i)
      ensures TaskFine(env, s', i)
    {
      if i < |s.tasks| {
        assert TaskFine(env, s, i);
      }
    }
    assert TipOk(s') && HeadWorld(s') == HeadWorld(s);
    assert Abs(env, s') == Abs(env, s);
  }

  /** Publishing: a good block is one sequential import, a doomed one is invisible to the
      sequential importer because rollback would restore exactly the markers of its parent. */
  lemma ExposingKeeps(env: Env, init: View, s: State)
    requires Inv(env, init, s) && s.phase.Exposing? && StepEnabled(s)
    ensures Inv(env, init, NextStep(env, s))
  {
    var s' := NextStep(env, s);
    var h := HashOf(s.rest[0]);
    assert TaskFine(env, s, s.phase.k);
    CrownsChild(s.chain, h);
    RollbackUndoesWriteHead(s.chain, h);
    TasksUnmoved(env, s, s');
    ExposedTip(env, s);
    ExposedImport(env, s);
    ExposedMeaning(env, s);
    SimulatesOn(env, init, s, s');
  }

  lemma ExposedTip(env: Env, s: State)
    requires ValidNode(s.chain) && TipOk(s) && s.phase.Exposing? && StepEnabled(s) && Idx(s, s.phase.k)
    requires s.tasks[s.phase.k].b == s.rest[0] && s.tasks[s.phase.k].base.Of? && StoredNext(s.chain, s.rest[0])
    requires NextStep(env, s).chain == WriteHead(s.chain, HashOf(s.rest[0]))
    ensures TipOk(NextStep(env, s)) && Floor(s) <= Floor(NextStep(env, s))
  {
    assert Linked(s.chain.headers, s.chain.genesis, HashOf(s.rest[0]));
  }

  /** What is left of the batch means the same before and after the block is published. */
  lemma ExposedMeaning(env: Env, s: State)
    requires ValidNode(s.chain) && TipOk(s) && !Doomed(env, s)
    requires s.phase.Exposing? && StepEnabled(s) && Idx(s, s.phase.k)
    requires NextStep(env, s).chain == WriteHead(s.chain, HashOf(s.rest[0])) && s.tasks[s.phase.k].b == s.rest[0]
    requires TipOk(NextStep(env, s)) && ValidNode(NextStep(env, s).chain)
    requires s.tasks[s.phase.k].base == Of(HeadWorld(s))
    requires CanRollBack(NextStep(env, s).chain, HashOf(s.rest[0]))
    requires Rollback(NextStep(env, s).chain, HashOf(s.rest[0])) == s.chain
    requires var c, t := NextStep(env, s).chain, s.tasks[s.phase.k];
             SeqImport(env, View(s.chain.head, s.chain.canon, s.chain.lookup, HeadWorld(s)), s.rest[0], |s.offered|) ==
             if Good(env, t) then Some(View(c.head, c.canon, c.lookup, PostWorld(t))) else None
    ensures var s' := NextStep(env, s);
            SeqBatch(env, Abs(env, s'), AbsRest(env, s'), |s.offered|) ==
            SeqBatch(env, Abs(env, s), AbsRest(env, s), |s.offered|)
  {
  }

  /** The sequential import of the block being published. */
  lemma ExposedImport(env: Env, s: State)
    requires TipOk(s) && s.phase.Exposing? && StepEnabled(s) && Idx(s, s.phase.k) && PhaseOk(env, s)
    ensures var t := s.tasks[s.phase.k];
            var c := WriteHead(s.chain, HashOf(s.rest[0]));
            t.base.Of? &&
            SeqImport(env, View(s.chain.head, s.chain.canon, s.chain.lookup, HeadWorld(s)), s.rest[0], |s.offered|) ==
              if Good(env, t) then Some(View(c.head, c.canon, c.lookup, PostWorld(t))) else None
  {
    var x := env.exec(s.rest[0], HeadWorld(s)).value;
    FullIsCheapPlusRoot(s.rest[0].header.claims, s.rest[0].header.root, Some(x.result), Of(Overlay(HeadWorld(s),
      x.diff)));
  }

  lemma RegisteringKeeps(env: Env, init: View, s: State)
    requires Inv(env, init, s) && s.phase.Registering? && StepEnabled(s)
    ensures Inv(env, init, NextStep(env, s))
  {
    var s' := NextStep(env, s);
    forall i: nat | Idx(s', i)
      ensures TaskFine(env, s', i)
    {
      assert TaskFine(env, s, i);
    }
    assert TipOk(s') && HeadWorld(s') == HeadWorld(s);
    assert Abs(env, s') == Abs(env, s);
  }

  /** Skipping a known block is one sequential import if the block is honest; otherwise the
      sequential importer stays behind for good. */
  lemma SkipKeeps(env: Env, init: View, s: State)
    requires Inv(env, init, s) && Enabled(s, SkipKnown)
    ensures Inv(env, init, NextSkip(s))
  {
    var s', b := NextSkip(s), s.rest[0];
    assert s.chain.genesis in s.chain.headers && Linked(s.chain.headers, s.chain.genesis, s.chain.genesis);
    CrownsChild(s.chain, HashOf(b));
    WriteHeadKeepsValid(s.chain, HashOf(b));
    TasksUnmoved(env, s, s');
    assert TipOk(s');
    StoredPublishes(s.chain, b);
    SkipSimulates(env, init, s);
  }

  /** A stored block that attaches to the head is published by writing the head. */
  lemma StoredPublishes(c: Node, b: Block)
    requires ValidChain(c) && Attaches(c, b) && Has(c, b) && b.header.hash != c.genesis
    ensures Publish(c, b) == WriteHead(c, b.header.hash)
  {
    StoreAgain(c, b);
  }

  lemma SkipSimulates(env: Env, init: View, s: State)
    requires ValidNode(s.chain) && TipOk(s) && Simulates(env, init, s) && Enabled(s, SkipKnown)
    requires TipOk(NextSkip(s)) && ValidNode(NextSkip(s).chain) && NextIs(s.chain, s.rest[0])
    requires Crown(s.chain, HashOf(s.rest[0])) == WriteHead(s.chain, HashOf(s.rest[0]))
    ensures Simulates(env, init, NextSkip(s))
  {
    var s', b := NextSkip(s), s.rest[0];
    SkipLog(env, s);
    assert Linked(s.chain.headers, s.chain.genesis, HashOf(b));
    if !Diverged(env, s) {
      HonestSkip(env, s);
    }
  }

  /** Block `b` is stored as the child of the head. */
  predicate NextIs(c: Node, b: Block) { Has(c, b) && b.header.parent == c.head && b.header.hash != c.genesis }

  /** The log after skipping: the known block's base is the state of the head. */
  lemma SkipLog(env: Env, s: State)
    requires TipOk(s) && Enabled(s, SkipKnown) && s.rest[0].header.parent == s.chain.head
    ensures var k := Skip(s.rest[0], Of(HeadWorld(s)), |s.offered|);
            && NextSkip(s).skipped == s.skipped + [k]
            && (Diverged(env, NextSkip(s)) <==> Diverged(env, s) || !Honest(env, k))
  {
    var s' := NextSkip(s);
    assert s'.skipped[|s.skipped|] == Skip(s.rest[0], Of(HeadWorld(s)), |s.offered|);
    assert forall i :: 0 <= i < |s.skipped| ==> s'.skipped[i] == s.skipped[i];
  }

  /** Skipping an honest block is its sequential import; a dishonest one ends the sequential batch. */
  lemma HonestSkip(env: Env, s: State)
    requires TipOk(s) && Enabled(s, SkipKnown) && NextIs(s.chain, s.rest[0])
    requires Crown(s.chain, HashOf(s.rest[0])) == WriteHead(s.chain, HashOf(s.rest[0])) && TipOk(NextSkip(s))
    ensures var c, b := NextSkip(s).chain, s.rest[0];
            SeqImport(env, View(s.chain.head, s.chain.canon, s.chain.lookup, HeadWorld(s)), b, |s.offered|) ==
            if Honest(env, Skip(b, Of(HeadWorld(s)), |s.offered|))
            then Some(View(c.head, c.canon, c.lookup, HeadWorld(NextSkip(s)))) else None
  {
    var b, w := s.rest[0], HeadWorld(s);
    if Accepts(env, b, w, |s.offered|) {
      var x := env.exec(b, w).value;
      FullIsCheapPlusRoot(b.header.claims, b.header.root, Some(x.result), Of(Overlay(w, x.diff)));
    }
  }

  // ---------- A batch on a rejected head whose state is missing ----------

  /** Storing blocks beside the canonical chain changes nothing else. */
  lemma StoredKeeps(env: Env, init: View, s: State, p: Hash, part: seq<Block>)
    requires Inv(env, init, s) && s.phase.Idle? && Stacks(s.chain, p, part)
    ensures Inv(env, init, s.(chain := StoreBlocks(s.chain, part)))
  {
    var s' := s.(chain := StoreBlocks(s.chain, part));
    StoreBlocksKeeps(s.chain, p, part);
    TasksUnmoved(env, s, s');
    if Doomed(env, s) {
      TipRollsBack(env, s);
      RollbackSame(s.chain, s'.chain);
    }
    StoredMeaning(env, init, s, s');
  }

  lemma StoredMeaning(env: Env, init: View, s: State, s': State)
    requires TipOk(s) && ValidNode(s.chain) && Simulates(env, init, s) && ValidNode(s'.chain)
    requires s' == s.(chain := s'.chain) && SameMarkers(s.chain, s'.chain)
    requires Doomed(env, s) ==>
               && CanRollBack(s.chain, s.chain.head) && CanRollBack(s'.chain, s.chain.head)
               && SameMarkers(Rollback(s.chain, s.chain.head), Rollback(s'.chain, s.chain.head))
    ensures TipOk(s') && Simulates(env, init, s')
  {
    assert TipOk(s') && HeadWorld(s') == HeadWorld(s);
    assert Abs(env, s') == Abs(env, s);
    SimulatesOn(env, init, s, s');
  }

  /** A batch on top of the head that the sequential importer rejects at once. */
  lemma IgnoredKeeps(env: Env, init: View, s: State, batch: seq<Block>)
    requires Inv(env, init, s) && s.phase.Idle? && batch != [] && batch[0].header.parent == s.chain.head
    requires Doomed(env, s) || !Accepts(env, batch[0], HeadWorld(s), |s.offered| + 1)
    ensures Inv(env, init, s.(offered := s.offered + [batch]))
  {
    TasksUnmoved(env, s, s.(offered := s.offered + [batch]));
    if Doomed(env, s) {
      TipRollsBack(env, s);
      RollbackKeepsValid(s.chain, s.chain.head);
    }
    assert Linked(s.chain.headers, s.chain.genesis, s.chain.head);
    IgnoredMeaning(env, init, s, batch);
  }

  lemma IgnoredMeaning(env: Env, init: View, s: State, batch: seq<Block>)
    requires TipOk(s) && ValidNode(s.chain) && Simulates(env, init, s) && s.rest == []
    requires batch != [] && batch[0].header.parent == s.chain.head
    requires Doomed(env, s) ==> Rollback(s.chain, s.chain.head).head != s.chain.head
    requires Doomed(env, s) || !Accepts(env, batch[0], HeadWorld(s), |s.offered| + 1)
    ensures TipOk(s.(offered := s.offered + [batch])) && Simulates(env, init, s.(offered := s.offered + [batch]))
  {
    var s' := s.(offered := s.offered + [batch]);
    assert s'.offered[..|s'.offered| - 1] == s.offered;
    assert Diverged(env, s') == Diverged(env, s) && Abs(env, s') == Abs(env, s);
  }

  /** A batch that finds no parent state is on top of a rejected head. */
  lemma PrunedIsDoomed(env: Env, init: View, s: State, batch: seq<Block>)
    requires Inv(env, init, s) && Enabled(s, OfferPruned(batch))
    ensures Doomed(env, s) && Tip(s) == s.pending
    ensures var part := batch[..PrunedCount(s, batch)];
            part != [] && Extending(s.chain, part) && part[0] == batch[0]
  {
    assert TaskFine(env, s, s.pending.value);
    ExtendingPrefix(s.chain, batch, PrunedCount(s, batch));
  }

  lemma PrunedKeeps(env: Env, init: View, s: State, batch: seq<Block>)
    requires Inv(env, init, s) && Enabled(s, OfferPruned(batch))
    ensures Inv(env, init, NextPruned(env, s, batch))
  {
    var part, k := batch[..PrunedCount(s, batch)], s.pending.value;
    PrunedIsDoomed(env, init, s, batch);
    if HasState(s, part[|part| - 1].header.root) {
      ExtendingStacks(s.chain, s.chain, part);
      StoredKeeps(env, init, s, s.chain.head, part);
      IgnoredKeeps(env, init, s.(chain := StoreBlocks(s.chain, part)), batch);
    } else {
      BackKeeps(env, init, s, k, part);
      ReofferKeeps(env, init, s, k, part);
    }
  }

  lemma BackKeeps(env: Env, init: View, s: State, k: nat, part: seq<Block>)
    requires Inv(env, init, s) && s.phase.Idle? && s.pending == Some(k) && ClosedAt(s, k) && Doomed(env, s)
    requires CanRollBack(s.chain, HashOf(s.tasks[k].b)) && Extending(s.chain, part)
    ensures Inv(env, init, Back(env, s, k, part))
    ensures var c := Back(env, s, k, part).chain;
            && Extending(c, [s.tasks[k].b] + part)
            && c.head in c.headers && c.headers[c.head].root == s.tasks[k].base
  {
    assert TaskFine(env, s, k);
    ReofferExtends(s.chain, s.tasks[k].b, part);
    RecoverKeeps(env, init, s, k);
    StoredKeeps(env, init, Recover(env, s, k), s.chain.head, part);
    StoreBlocksKeeps(Recover(env, s, k).chain, s.chain.head, part);
  }

  /** The rejected head and the batch are imported, unless the rollback took the state of the parent
      along; then the head computed that state, so its root is wrong. */
  lemma ReofferKeeps(env: Env, init: View, s: State, k: nat, part: seq<Block>)
    requires Inv(env, init, s) && s.pending == Some(k) && ClosedAt(s, k) && Doomed(env, s)
    requires CanRollBack(s.chain, HashOf(s.tasks[k].b)) && Inv(env, init, Back(env, s, k, part))
    requires var c := Back(env, s, k, part).chain;
             s.phase.Idle? && Extending(c, [s.tasks[k].b] + part) && c.headers[c.head].root == s.tasks[k].base
    ensures Inv(env, init, Reoffer(Back(env, s, k, part), [s.tasks[k].b] + part))
  {
    var back, again := Back(env, s, k, part), [s.tasks[k].b] + part;
    if HasHeadState(back) {
      OfferKeeps(env, init, back, again);
    } else {
      assert TaskFine(env, s, k);
      BackLost(env, s, k, part);
      WrongRootRejected(env, again[0], HeadWorld(back), s.tasks[k].diff, |back.offered| + 1);
      IgnoredKeeps(env, init, back, again);
    }
  }

  lemma BackLost(env: Env, s: State, k: nat, part: seq<Block>)
    requires Idx(s, k) && TaskFine(env, s, k) && Live(s, k) && ClosedAt(s, k) && !Good(env, s.tasks[k])
    requires CanRollBack(s.chain, HashOf(s.tasks[k].b)) && TipOk(Back(env, s, k, part))
    requires !HasHeadState(Back(env, s, k, part)) && Tip(Back(env, s, k, part)).None?
    requires Back(env, s, k, part).chain.headers[Back(env, s, k, part).chain.head].root == s.tasks[k].base
    ensures HeadWorld(Back(env, s, k, part)) == s.tasks[k].base.world
    ensures s.tasks[k].b.header.root != Of(PostWorld(s.tasks[k]))
  {
  }

  /** State `s'` is the idle state `s` with more blocks stored, perhaps with a batch under way. */
  ghost predicate StoredOn(s: State, s': State) {
    && s' == s.(chain := s'.chain, phase := s'.phase, rest := s'.rest, offered := s'.offered)
    && SameMarkers(s.chain, s'.chain) && Grows(s.chain, s'.chain)
    && s.phase.Idle? && (s'.phase.Idle? || s'.phase.Ready?)
  }

  /** What a batch without a parent state changes: blocks are stored, on the node as it is or after
      the rollback of its head. */
  lemma PrunedShape(env: Env, init: View, s: State, batch: seq<Block>)
    requires Inv(env, init, s) && Enabled(s, OfferPruned(batch))
    ensures var s', r := NextPruned(env, s, batch), Recover(env, s, s.pending.value);
            StoredOn(s, s') || (StoredOn(r, s') && Inv(env, init, r))
  {
    var part, k := batch[..PrunedCount(s, batch)], s.pending.value;
    PrunedIsDoomed(env, init, s, batch);
    if HasState(s, part[|part| - 1].header.root) {
      ExtendingStacks(s.chain, s.chain, part);
      StoredShape(s, s.chain.head, part, NextPruned(env, s, batch));
    } else {
      RecoverKeeps(env, init, s, k);
      BackShape(env, s, k, part, [s.tasks[k].b] + part);
    }
  }

  lemma BackShape(env: Env, s: State, k: nat, part: seq<Block>, again: seq<Block>)
    requires Idx(s, k) && CanRollBack(s.chain, HashOf(s.tasks[k].b)) && ValidNode(Recover(env, s, k).chain)
    requires Extending(s.chain, part)
    ensures StoredOn(Recover(env, s, k), Reoffer(Back(env, s, k, part), again))
  {
    ExtendingStacks(s.chain, Recover(env, s, k).chain, part);
    StoredShape(Recover(env, s, k), s.chain.head, part, Reoffer(Back(env, s, k, part), again));
  }

  lemma StoredShape(s: State, p: Hash, part: seq<Block>, s': State)
    requires ValidNode(s.chain) && Stacks(s.chain, p, part) && s'.chain == StoreBlocks(s.chain, part)
    requires s' == s.(chain := s'.chain, phase := s'.phase, rest := s'.rest, offered := s'.offered)
    requires s.phase.Idle? && (s'.phase.Idle? || s'.phase.Ready?)
    ensures StoredOn(s, s')
  {
    StoreBlocksKeeps(s.chain, p, part);
  }

  lemma WrongRootRejected(env: Env, b: Block, w: World, diff: FlatDiff, n: nat)
    requires CheapExec(env, b, w) == Some(diff) && b.header.root != Of(Overlay(w, diff))
    ensures !Accepts(env, b, w, n)
  {
    var x := env.exec(b, w).value;
    FullIsCheapPlusRoot(b.header.claims, b.header.root, Some(x.result), Of(Overlay(w, x.diff)));
  }

  /** Every step of the importer, of SRC and of the collector keeps the invariant, but for publishing
      a known block above a pending one. */
  lemma StepKeeps(env: Env, init: View, s: State, e: Event)
    requires Inv(env, init, s) && Enabled(s, e) && !e.SkipAbove?
    ensures Inv(env, init, Next(env, s, e))
  {
    match e
    case Offer(batch) => OfferKeeps(env, init, s, batch);
    case OfferPruned(batch) => PrunedKeeps(env, init, s, batch);
    case Flush => FlushKeeps(env, init, s);
    case SrcStep(k) => SrcKeeps(env, init, s, k);
    case CollectStep(k) => CollectKeeps(env, init, s, k);
    case SkipKnown => SkipKeeps(env, init, s);
    case Step =>
      match s.phase {
        case Ready => ReadyKeeps(env, init, s);
        case Executing(_, _) => ExecutingKeeps(env, init, s);
        case Collecting(_) => CollectingKeeps(env, init, s);
        case Overlaying(_, _) => OverlayingKeeps(env, init, s);
        case Storing(_, _) => StoringKeeps(env, init, s);
        case Spawning(_, _) => SpawningKeeps(env, init, s);
        case Exposing(_) => ExposingKeeps(env, init, s);
        case Registering(_) => RegisteringKeeps(env, init, s);
        case Flushing(_) => FlushingKeeps(env, init, s);
      }
  }
}
