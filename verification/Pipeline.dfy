/** Pipelined block import (core/blockchain.go) as a state machine. The importer executes block
    N+1 on the last committed state overlaid with the changes of block N, while a background
    computation (SRC) derives the state root of block N and a collector compares it with the
    header. The head is published before its root is verified. */
module Pipeline {
  import opened Wrappers
  import opened HeaderTree
  import opened CanonicalIndex
  import opened Convergence
  import opened NodeOps
  import opened Validator

  /** The changes one block makes: a new value, or removal. */
  type FlatDiff = map<nat, Option<nat>>

  function Overlay(w: World, d: FlatDiff): (r: World) {
    map k | k in w.Keys + d.Keys && !(k in d && d[k].None?) :: if k in d then d[k].value else w[k]
  }

  datatype Executed = Executed(result: ProcessResult, diff: FlatDiff)

  /** How the state commit of SRC ends: it may fail (database error or panic) before the state is
      written, or after. */
  datatype Commit = Done | FailsBefore | FailsAfter

  /** What the importer cannot influence: the effect of executing a block on a world, and how the
      state commit of a block ends when it is offered in the n-th batch. Under the hash scheme
      states are kept in memory by counting references, and in archive mode verified ones are
      written to disk. */
  datatype Env = Env(exec: (Block, World) -> Option<Executed>, commit: (Block, nat) -> Commit,
                     hashScheme: bool, archive: bool)

  predicate CommitFails(env: Env, b: Block, n: nat) { !env.commit(b, n).Done? }

  /** Execution followed by the checks that need no state root. */
  function CheapExec(env: Env, b: Block, w: World): (r: Option<FlatDiff>) {
    match env.exec(b, w)
    case None => None
    case Some(x) => if ValidateStateCheap(b.header.claims, Some(x.result)) == Ok then Some(x.diff) else None
  }

  // ---------- Specification: one block at a time, fully validated ----------

  /** What a client can observe of a chain: its markers and the state served at its head. */
  datatype View = View(head: Hash, canon: Index, lookup: Lookup, world: World)

  /** Executing block `b` on world `w` passes full validation and its state is committed, when
      the block is offered in the n-th batch. */
  predicate Accepts(env: Env, b: Block, w: World, n: nat) {
    var x := env.exec(b, w);
    && x.Some? && !CommitFails(env, b, n)
    && ValidateState(b.header.claims, b.header.root, Some(x.value.result), Of(Overlay(w, x.value.diff)), false) == Ok
  }

  /** Executes, fully validates and commits one block on top of the head. */
  function SeqImport(env: Env, v: View, b: Block, n: nat): (r: Option<View>) {
    var h := b.header;
    if h.parent != v.head || !Accepts(env, b, v.world, n) then None
    else Some(View(h.hash, v.canon[h.number := h.hash], IndexTxs(v.lookup, b.txs, h.number),
                   Overlay(v.world, env.exec(b, v.world).value.diff)))
  }

  /** A batch is imported up to its first invalid block. */
  function SeqBatch(env: Env, v: View, batch: seq<Block>, n: nat): (r: View)
    decreases |batch|
  {
    if batch == [] then v
    else match SeqImport(env, v, batch[0], n)
         case None => v
         case Some(v') => SeqBatch(env, v', batch[1..], n)
  }

  function SeqAll(env: Env, v: View, batches: seq<seq<Block>>): (r: View)
    decreases |batches|
  {
    if batches == [] then v
    else SeqBatch(env, SeqAll(env, v, batches[..|batches| - 1]), batches[|batches| - 1], |batches|)
  }

  // ---------- The pipeline ----------

  /** The SRC computation: result fields are assigned (Computed) before its wait group is
      released (Finished). No root means it failed. */
  datatype Src = Running | Computed(root: Option<Root>) | Finished(root: Option<Root>)

  /** The collector: the verified root, or none on failure, is recorded (Decided) before the
      channel is closed (Closed). */
  datatype Collector = NotStarted | Waiting | Decided(root: Option<Root>) | Closed(root: Option<Root>)

  /** A block handed to SRC, with the committed root it starts from and the batch it came in. */
  datatype Task = Task(b: Block, diff: FlatDiff, base: Root, attempt: nat, src: Src, col: Collector,
                       dones: nat, closes: nat)

  /** A block that was published without execution because it was known, with its parent's root
      and the batch it came in. */
  datatype Skip = Skip(b: Block, base: Root, attempt: nat)

  /** The rollback of task `k` gave up a reference to the state it had computed, when that many
      references were held, and the state was on disk or not. */
  datatype Freed = Freed(k: nat, refs: nat, onDisk: bool)

  /** The overlay that serves the newest block before its state is committed. */
  datatype FlatBase = FlatBase(diff: FlatDiff, number: nat, base: Root, root: Root)

  datatype Phase =
    | Idle
    | Ready                                             // about to choose the state to execute on
    | Executing(base: Root, over: Option<FlatDiff>)     // running the block
    | Collecting(diff: FlatDiff)                        // waiting for the previous block's verification
    | Overlaying(diff: FlatDiff, base: Root)            // about to set the overlay
    | Storing(diff: FlatDiff, base: Root)               // about to write the block
    | Spawning(diff: FlatDiff, base: Root)              // about to start SRC
    | Exposing(k: nat)                                  // about to publish the block as head
    | Registering(k: nat)                               // about to register the pending entry
    | Flushing(k: nat)                                  // waiting for a task that was taken off the pending slot
    | Above(k: nat)                                     // a known block is published above task k: not followed

  datatype State = State(
    chain: Node,
    committed: set<World>,            // states that can be opened
    refs: multiset<World>,            // references held on states in memory
    disk: set<World>,                 // states on disk
    overlay: Option<FlatBase>,
    tasks: seq<Task>,
    pending: Option<nat>,
    phase: Phase,
    rest: seq<Block>,                 // blocks of the current batch not yet published
    offered: seq<seq<Block>>,         // all batches accepted so far
    skipped: seq<Skip>,               // all blocks published as known so far
    freed: seq<Freed>)                // all references given up by rollbacks so far

  datatype Event =
    | Offer(batch: seq<Block>)
    | OfferPruned(batch: seq<Block>)                    // a batch on a rejected head whose state is missing
    | Flush
    | Step
    | SkipKnown                                         // publishing a known block while nothing is pending
    | SkipAbove                                         // publishing a known block above a pending one
    | SrcStep(k: nat)
    | CollectStep(k: nat)

  /** The blocks extend the head one after another and repeat no transaction. Blocks that are
      stored already, for example after their rollback, may be offered again. */
  predicate Extending(c: Node, batch: seq<Block>)
    decreases |batch|
  {
    batch == [] || (Attaches(c, batch[0]) && Extending(Publish(c, batch[0]), batch[1..]))
  }

  predicate IsCommitted(s: State, r: Root) { r.Of? && r.world in s.committed }

  predicate Idx(s: State, k: nat) { k < |s.tasks| }

  predicate ClosedAt(s: State, k: nat) { Idx(s, k) && s.tasks[k].col.Closed? }

  /** A head block and its parent are stored, so the head can be rolled back. */
  predicate CanRollBack(c: Node, h: Hash) {
    h in c.headers && c.headers[h].parent in c.headers && c.headers[h].parent in c.bodies
  }

  /** The state of a root can be opened, or is still being computed for the pending block. */
  predicate HasState(s: State, r: Root) {
    || IsCommitted(s, r)
    || (s.pending.Some? && Idx(s, s.pending.value) && !ClosedAt(s, s.pending.value) &&
      s.tasks[s.pending.value].b.header.root == r)
  }

  /** Without it a block on top of the head has a pruned ancestor. */
  predicate HasHeadState(s: State) {
    s.chain.head in s.chain.headers && HasState(s, s.chain.headers[s.chain.head].root)
  }

  /** The block is stored and the state its header claims is there. */
  predicate IsKnown(s: State, b: Block) {
    CanCrown(s.chain, b.header.hash) && b.header.parent in s.chain.headers && HasState(s, b.header.root)
  }

  predicate Enabled(s: State, e: Event) {
    match e
    case Offer(batch) =>
      && s.phase.Idle? && batch != [] && Extending(s.chain, batch)
      && (HasHeadState(s) || (s.pending.Some? && IsKnown(s, batch[0])))
    case OfferPruned(batch) =>
      && s.phase.Idle? && batch != [] && Extending(s.chain, batch) && !HasHeadState(s) && !IsKnown(s, batch[0])
      && s.pending.Some? && ClosedAt(s, s.pending.value)
      && CanRollBack(s.chain, s.tasks[s.pending.value].b.header.hash)
    case Flush => s.phase.Idle? && s.pending.Some?
    case SrcStep(k) => Idx(s, k) && !s.tasks[k].src.Finished?
    case CollectStep(k) =>
      && Idx(s, k)
      && ((s.tasks[k].col.Waiting? && s.tasks[k].src.Finished?) || s.tasks[k].col.Decided?)
    case SkipKnown => s.phase.Ready? && s.rest != [] && s.pending.None? && IsKnown(s, s.rest[0])
    case SkipAbove => s.phase.Ready? && s.rest != [] && s.pending.Some? && IsKnown(s, s.rest[0])
    case Step => StepEnabled(s)
  }

  /** The importer blocks only while it waits for a collector. */
  predicate StepEnabled(s: State) {
    match s.phase
    case Idle => false
    case Ready =>
      && s.rest != [] && s.chain.head in s.chain.headers
      && (s.pending.Some? ==>
            Idx(s, s.pending.value) && s.tasks[s.pending.value].b.header.hash == s.rest[0].header.parent)
    case Executing(_, _) => s.rest != []
    case Collecting(_) =>
      && s.chain.head in s.chain.headers
      && (s.pending.Some? ==>
            ClosedAt(s, s.pending.value) && CanRollBack(s.chain, s.tasks[s.pending.value].b.header.hash))
    case Overlaying(_, _) => s.rest != []
    case Storing(_, _) => s.rest != [] && s.rest[0].header.parent in s.chain.td
    case Spawning(_, _) => s.rest != []
    case Exposing(k) => s.rest != [] && CanCrown(s.chain, s.rest[0].header.hash)
    case Registering(k) => Idx(s, k)
    case Flushing(k) => ClosedAt(s, k) && CanRollBack(s.chain, s.tasks[k].b.header.hash)
    case Above(_) => false
  }

  function Next(env: Env, s: State, e: Event): (s': State)
    requires Enabled(s, e)
  {
    match e
    case Offer(batch) => s.(phase := Ready, rest := batch, offered := s.offered + [batch])
    case OfferPruned(batch) => NextPruned(env, s, batch)
    case Flush => s.(phase := Flushing(s.pending.value), pending := None)
    case SrcStep(k) => NextSrc(env, s, k)
    case CollectStep(k) => NextCollect(env, s, k)
    case SkipKnown => NextSkip(s)
    case SkipAbove => NextAbove(s)
    case Step => NextStep(env, s)
  }

  /** A known block is written as head without being executed. Whether a known block is skipped
      depends on the snapshots the node has, so the ordinary step is possible as well. */
  function NextSkip(s: State): (s': State)
    requires Enabled(s, SkipKnown)
  {
    var b := s.rest[0];
    s.(chain := Crown(s.chain, b.header.hash), rest := s.rest[1..],
       skipped := s.skipped + [Skip(b, s.chain.headers[b.header.parent].root, |s.offered|)],
       phase := if |s.rest| == 1 then Idle else Ready)
  }

  /** The same above a pending block, whether or not that block has been rejected meanwhile. */
  function NextAbove(s: State): (s': State)
    requires Enabled(s, SkipAbove)
  {
    var b := s.rest[0];
    s.(chain := Crown(s.chain, b.header.hash), rest := [],
       skipped := s.skipped + [Skip(b, s.chain.headers[b.header.parent].root, |s.offered|)],
       phase := Above(s.pending.value))
  }

  /** How many blocks of a batch without a parent state are stored: up to the first whose claimed
      state is there, or the last before a known block. */
  function PrunedCount(s: State, batch: seq<Block>): (n: nat)
    requires batch != []
    ensures 1 <= n <= |batch|
    decreases |batch|
  {
    if |batch| == 1 || HasState(s, batch[0].header.root) || IsKnown(s, batch[1]) then 1
    else 1 + PrunedCount(s, batch[1..])
  }

  function StoreBlocks(c: Node, batch: seq<Block>): (r: Node)
    decreases |batch|
  {
    if batch == [] || batch[0].header.parent !in c.td then c else StoreBlocks(StoreBlock(c, batch[0]), batch[1..])
  }

  /** A batch whose parent state is missing is stored. If the last claimed state is there nothing
      else happens; otherwise the blocks are imported from the first without a state, the rejected
      head, which rolls that head back first. */
  function NextPruned(env: Env, s: State, batch: seq<Block>): (s': State)
    requires Enabled(s, OfferPruned(batch))
  {
    var part, k := batch[..PrunedCount(s, batch)], s.pending.value;
    if HasState(s, part[|part| - 1].header.root) then
      s.(chain := StoreBlocks(s.chain, part), offered := s.offered + [batch])
    else
      Reoffer(Back(env, s, k, part), [s.tasks[k].b] + part)
  }

  /** The node between the rollback of its rejected head and the new import. The blocks are stored
      before the rollback, but neither touches what the other does. */
  function Back(env: Env, s: State, k: nat, part: seq<Block>): (s': State)
    requires Idx(s, k) && CanRollBack(s.chain, s.tasks[k].b.header.hash)
  {
    var back := Recover(env, s, k);
    back.(chain := StoreBlocks(back.chain, part))
  }

  function Reoffer(s: State, batch: seq<Block>): (s': State) {
    if HasHeadState(s) then s.(phase := Ready, rest := batch, offered := s.offered + [batch])
    else s.(offered := s.offered + [batch])
  }

  /** SRC opens the committed base, replays the changes and commits the result, whatever its
      root; then it releases its waiters. */
  function NextSrc(env: Env, s: State, k: nat): (s': State)
    requires Enabled(s, SrcStep(k))
  {
    var t := s.tasks[k];
    if t.src.Running? then
      if env.commit(t.b, t.attempt).FailsBefore? || !IsCommitted(s, t.base) then
        s.(tasks := s.tasks[k := t.(src := Computed(None))])
      else
        var w := Overlay(t.base.world, t.diff);
        var root := if CommitFails(env, t.b, t.attempt) then None else Some(Of(w));
        s.(tasks := s.tasks[k := t.(src := Computed(root))], committed := s.committed + {w})
    else
      s.(tasks := s.tasks[k := t.(src := Finished(t.src.root), dones := t.dones + 1)])
  }

  /** Verified states are written to disk in archive mode and referenced otherwise. */
  function Hold(env: Env, s: State, w: World): (s': State) {
    if !env.hashScheme then s
    else if env.archive then s.(disk := s.disk + {w})
    else s.(refs := s.refs + multiset{w})
  }

  /** Gives up one reference: a state in memory goes with its last reference. */
  function Release(s: State, w: World): (s': State) {
    if w in s.disk then s
    else
      var refs := s.refs - multiset{w};
      s.(refs := refs, committed := if w in refs then s.committed else s.committed - {w})
  }

  /** The collector compares SRC's root with the header, keeps a verified state and then closes
      the channel. */
  function NextCollect(env: Env, s: State, k: nat): (s': State)
    requires Enabled(s, CollectStep(k))
  {
    var t := s.tasks[k];
    if t.col.Waiting? then
      var verified := if t.src.root == Some(t.b.header.root) then t.src.root else None;
      s.(tasks := s.tasks[k := t.(col := Decided(verified))])
    else
      var held := if t.col.root.Some? && t.col.root.value.Of? then Hold(env, s, t.col.root.value.world) else s;
      held.(tasks := s.tasks[k := t.(col := Closed(t.col.root), closes := t.closes + 1)])
  }

  /** The state that SRC computed for the task, if it came that far. */
  function SrcState(t: Task): (w: Option<World>) {
    if t.src.Running? || t.src.root.None? || !t.src.root.value.Of? then None else Some(t.src.root.value.world)
  }

  /** Rolls a rejected block back: pending entry, overlay and markers go, and under the hash scheme
      a reference to the state it computed, although none was taken for it. The batch is aborted. */
  function Recover(env: Env, s: State, k: nat): (s': State)
    requires Idx(s, k) && CanRollBack(s.chain, s.tasks[k].b.header.hash)
  {
    var w := SrcState(s.tasks[k]);
    var r := if env.hashScheme && w.Some?
             then Release(s, w.value).(freed := s.freed + [Freed(k, s.refs[w.value], w.value in s.disk)]) else s;
    r.(pending := None, overlay := None, phase := Idle, rest := [],
       chain := Rollback(s.chain, s.tasks[k].b.header.hash))
  }

  /** Gives up on the rest of the batch, flushing what is pending. */
  function Abort(s: State): (s': State) {
    if s.pending.Some? then s.(phase := Flushing(s.pending.value), pending := None, rest := [])
    else s.(phase := Idle, rest := [])
  }

  function NextStep(env: Env, s: State): (s': State)
    requires StepEnabled(s)
  {
    match s.phase
    case Ready =>
      // A batch that does not build on the pending block flushes it first: see event Flush.
      if !HasHeadState(s) && !IsKnown(s, s.rest[0]) then s.(phase := Idle, rest := [])
      else if s.pending.Some? then
        var t := s.tasks[s.pending.value];
        s.(phase := Executing(t.base, Some(t.diff)))
      else
        s.(phase := Executing(s.chain.headers[s.chain.head].root, None))
    case Executing(base, over) =>
      var ran := if !IsCommitted(s, base) then None
                 else CheapExec(env, s.rest[0], if over.Some? then Overlay(base.world, over.value) else base.world);
      if ran.Some? then s.(phase := Collecting(ran.value))
      else Abort(s)
    case Collecting(diff) =>
      if s.pending.None? then s.(phase := Overlaying(diff, s.chain.headers[s.chain.head].root))
      else
        var t := s.tasks[s.pending.value];
        if t.col.root.Some? then s.(phase := Overlaying(diff, t.col.root.value)) else Recover(env, s, s.pending.value)
    case Overlaying(diff, base) =>
      var h := s.rest[0].header;
      s.(overlay := Some(FlatBase(diff, h.number, base, h.root)), phase := Storing(diff, base))
    case Storing(diff, base) =>
      s.(chain := StoreBlock(s.chain, s.rest[0]), phase := Spawning(diff, base))
    case Spawning(diff, base) =>
      s.(tasks := s.tasks + [Task(s.rest[0], diff, base, |s.offered|, Running, NotStarted, 0, 0)],
         phase := Exposing(|s.tasks|))
    case Exposing(k) =>
      s.(chain := Crown(s.chain, s.rest[0].header.hash), phase := Registering(k), rest := s.rest[1..])
    case Registering(k) =>
      s.(pending := Some(k), tasks := s.tasks[k := s.tasks[k].(col := Waiting)],
         phase := if s.rest == [] then Idle else Ready)
    case Flushing(k) =>
      if s.tasks[k].col.root.Some? then s.(phase := Idle) else Recover(env, s, k)
    case Idle => s
  }

  // ---------- Readers ----------

  function OpenCommitted(s: State, r: Root): (w: Option<World>) {
    if IsCommitted(s, r) then Some(r.world) else None
  }

  /** StateAt: the overlay if it was recorded for this root, the committed state otherwise. */
  function StateAt(s: State, r: Root): (w: Option<World>) {
    if s.overlay.Some? && s.overlay.value.root == r && IsCommitted(s, s.overlay.value.base)
    then Some(Overlay(s.overlay.value.base.world, s.overlay.value.diff))
    else OpenCommitted(s, r)
  }

  /** PostExecState: the overlay if it was recorded for this header, StateAt otherwise. */
  function PostExecState(s: State, h: Header): (w: Option<World>) {
    if s.overlay.Some? && s.overlay.value.number == h.number && s.overlay.value.root == h.root then
      if IsCommitted(s, s.overlay.value.base)
      then Some(Overlay(s.overlay.value.base.world, s.overlay.value.diff)) else None
    else StateAt(s, h.root)
  }
}
