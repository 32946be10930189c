/** What a read of one key returns: from the overlay of a block in flight, from a committed state,
    and from the state that the sequential importer leaves. */
module PipelineReads {
  import opened Wrappers
  import opened HeaderTree
  import opened CanonicalIndex
  import opened Pipeline
  import opened PipelineInvariant
  import opened PipelineRejection
  import opened PipelineOverlay
  import opened PipelineTheorems

  /** The value of a key, if it has one. */
  function Read(w: World, key: nat): (v: Option<nat>) { if key in w then Some(w[key]) else None }

  /** A block's changes mask the state below: a key that is set reads its new value, a key that is
      removed is absent, and every other key reads as before. */
  function Masked(d: FlatDiff, below: Option<nat>, key: nat): (v: Option<nat>) { if key in d then d[key] else below }

  /** World `w` is world `b` with the changes of one block. */
  ghost predicate Masks(w: World, d: FlatDiff, b: World) {
    forall key {:trigger Read(w, key)} :: Read(w, key) == Masked(d, Read(b, key), key)
  }

  /** A world is determined by what its keys read. */
  lemma ReadsDetermine(v: World, w: World)
    requires forall key :: Read(v, key) == Read(w, key)
    ensures v == w
  {
    forall key
      ensures key in v <==> key in w
      ensures key in v ==> v[key] == w[key]
    {
      assert Read(v, key) == Read(w, key);
    }
  }

  /** The overlay of a world is the only one that reads so. */
  lemma OverlayMasks(w: World, d: FlatDiff, v: World)
    ensures v == Overlay(w, d) <==> Masks(v, d, w)
  {
    assert Masks(Overlay(w, d), d, w);
    if Masks(v, d, w) {
      forall key
        ensures Read(v, key) == Read(Overlay(w, d), key)
      {
      }
      ReadsDetermine(v, Overlay(w, d));
    }
  }

  // ---------- The readers ----------

  /** The reader's answer comes from an overlay recorded for this root and masks its base. */
  ghost predicate AnswersMasked(s: State, answer: Option<World>) {
    && s.overlay.Some? && s.overlay.value.base.Of? && answer.Some?
    && Masks(answer.value, s.overlay.value.diff, s.overlay.value.base.world)
  }

  /** The reader's answer is the committed state of the root, or none. */
  ghost predicate AnswersCommitted(s: State, r: Root, answer: Option<World>) {
    answer == if r.Of? && r.world in s.committed then Some(r.world) else None
  }

  /** In every state the readers answer from the overlay exactly if it was recorded for the root they
      are asked for and its base can be opened, and from the committed states otherwise; only the
      reader by header answers nothing when the overlay is the header's own and its base is missing. */
  lemma ReadersAnswer(s: State, h: Header)
    ensures var o := s.overlay;
            var mine, open := o.Some? && o.value.root == h.root, o.Some? && IsCommitted(s, o.value.base);
            && (if mine && open then AnswersMasked(s, StateAt(s, h.root))
                else AnswersCommitted(s, h.root, StateAt(s, h.root)))
            && (if mine && open then AnswersMasked(s, PostExecState(s, h))
                else if mine && o.value.number == h.number then PostExecState(s, h) == None
                else AnswersCommitted(s, h.root, PostExecState(s, h)))
  {
    if s.overlay.Some? && IsCommitted(s, s.overlay.value.base) {
      var o := s.overlay.value;
      OverlayMasks(o.base.world, o.diff, Overlay(o.base.world, o.diff));
    }
  }

  /** In every run, a read of the newest block while it is in flight gives its changes on top of the
      committed state of its parent. */
  lemma InFlightReads(env: Env, s0: State, es: seq<Event>, s: State, k: nat, key: nat)
    requires Start(s0) && Leads(env, s0, es, s) && Tip(s) == Some(k) && !NextUp(s)
    ensures Idx(s, k) && s.tasks[k].base.Of? && IsCommitted(s, s.tasks[k].base)
    ensures var t := s.tasks[k];
            var v := Masked(t.diff, Read(t.base.world, key), key);
            && StateAt(s, t.b.header.root).Some? && Read(StateAt(s, t.b.header.root).value, key) == v
            && PostExecState(s, t.b.header).Some? && Read(PostExecState(s, t.b.header).value, key) == v
  {
    OverlayAgreement(env, s0, es, s, k);
    ReachableTasks(env, s0, es, s);
    assert TaskFine(env, s, k);
    OverlayMasks(s.tasks[k].base.world, s.tasks[k].diff, PostWorld(s.tasks[k]));
  }

  /** Of two successive blocks the later one's changes are read first, then the earlier one's, then
      the state below both. */
  lemma SuccessiveReads(env: Env, s0: State, es: seq<Event>, s: State, j: nat, k: nat, key: nat)
    requires Start(s0) && Leads(env, s0, es, s) && Tip(s) == Some(k) && !NextUp(s)
    requires Idx(s, j) && Idx(s, k) && TaskHash(s, j) == s.tasks[k].b.header.parent && Good(env, s.tasks[j])
    ensures var t, u := s.tasks[k], s.tasks[j];
            && StateAt(s, t.b.header.root).Some?
            && Read(StateAt(s, t.b.header.root).value, key) ==
               Masked(t.diff, Masked(u.diff, Read(u.base.world, key), key), key)
  {
    InFlightReads(env, s0, es, s, k, key);
    ReachableTasks(env, s0, es, s);
    assert TaskFine(env, s, j) && TaskFine(env, s, k);
    OverlayMasks(s.tasks[j].base.world, s.tasks[j].diff, PostWorld(s.tasks[j]));
  }

  // ---------- The sequential importer ----------

  /** An imported block leaves its changes on top of what was there. */
  lemma SeqImportReads(env: Env, v: View, b: Block, n: nat)
    requires SeqImport(env, v, b, n).Some?
    ensures env.exec(b, v.world).Some?
    ensures Masks(SeqImport(env, v, b, n).value.world, env.exec(b, v.world).value.diff, v.world)
  {
    var d := env.exec(b, v.world).value.diff;
    OverlayMasks(v.world, d, Overlay(v.world, d));
  }

  /** Two blocks in one batch: the later change is the one that is read. */
  lemma SeqBatchReads(env: Env, v: View, b: Block, c: Block, n: nat, key: nat)
    requires SeqImport(env, v, b, n).Some? && SeqImport(env, SeqImport(env, v, b, n).value, c, n).Some?
    ensures var mid := SeqImport(env, v, b, n).value;
            && env.exec(b, v.world).Some? && env.exec(c, mid.world).Some?
            && Read(SeqBatch(env, v, [b, c], n).world, key) ==
               Masked(env.exec(c, mid.world).value.diff,
                      Masked(env.exec(b, v.world).value.diff, Read(v.world, key), key), key)
  {
    var mid := SeqImport(env, v, b, n).value;
    SeqImportReads(env, v, b, n);
    SeqImportReads(env, mid, c, n);
    assert [b, c][1..] == [c] && [c][1..] == [];
    assert SeqBatch(env, v, [b, c], n) == SeqBatch(env, mid, [c], n) == SeqImport(env, mid, c, n).value;
  }
}
