/** Fork choice by total difficulty (core/forkchoice.go). */
module ForkChoice {
  import opened Wrappers
  import opened HeaderTree

  datatype Decision = Reorg(needed: bool) | MissingTd

  /** What fork choice compares: total difficulty first, then the lower number, then whether the
      header is preserved, then, among headers that are not, the larger hash. */
  function Standing(td: map<Hash, nat>, preserve: Header -> bool, h: Header): (k: (nat, int, nat, nat))
    requires h.hash in td
  {
    (td[h.hash], -(h.number as int), if preserve(h) then 1 else 0, if preserve(h) then 0 else h.hash)
  }

  predicate Above(a: (nat, int, nat, nat), b: (nat, int, nat, nat)) {
    a.0 > b.0 || (a.0 == b.0 && (a.1 > b.1 || (a.1 == b.1 && (a.2 > b.2 || (a.2 == b.2 && a.3 > b.3)))))
  }

  /** Whether `extern` should replace `current` as head. `ttd` is the terminal total
      difficulty, if one is configured; `preserve` marks locally produced headers. */
  function ReorgNeeded(td: map<Hash, nat>, ttd: Option<nat>, preserve: Header -> bool,
                       current: Header, extern: Header): (r: Decision)
    ensures r.MissingTd? <==> current.hash !in td || extern.hash !in td
    ensures r.Reorg? && ttd.Some? && ttd.value <= td[extern.hash] ==> r.needed
    ensures r.Reorg? && !(ttd.Some? && ttd.value <= td[extern.hash]) ==>
              (r.needed <==> Above(Standing(td, preserve, extern), Standing(td, preserve, current)))
  {
    if current.hash !in td || extern.hash !in td then MissingTd
    else if ttd.Some? && ttd.value <= td[extern.hash] then Reorg(true)
    else if td[extern.hash] > td[current.hash] then Reorg(true)
    else if td[extern.hash] < td[current.hash] then Reorg(false)
    else if extern.number < current.number then Reorg(true)
    else if extern.number == current.number then
      Reorg(!preserve(current) && (preserve(extern) || current.hash < extern.hash))
    else Reorg(false)
  }

  /** The rules one by one: more difficulty wins; at equal difficulty the lower number; at equal number
      too, a preserved header stays and otherwise replaces one that is not, and of two that are not
      preserved the larger hash wins. */
  lemma ForkChoiceRules(td: map<Hash, nat>, ttd: Option<nat>, preserve: Header -> bool, current: Header, extern: Header)
    requires current.hash in td && extern.hash in td && (ttd.Some? ==> td[extern.hash] < ttd.value)
    ensures var r := ReorgNeeded(td, ttd, preserve, current, extern);
            && r.Reorg?
            && (td[extern.hash] > td[current.hash] ==> r.needed)
            && (td[extern.hash] < td[current.hash] ==> !r.needed)
            && (td[extern.hash] == td[current.hash] ==>
                  && (extern.number < current.number ==> r.needed)
                  && (extern.number > current.number ==> !r.needed)
                  && (extern.number == current.number ==>
                        && (preserve(current) ==> !r.needed)
                        && (!preserve(current) && preserve(extern) ==> r.needed)
                        && (!preserve(current) && !preserve(extern) ==> (r.needed <==> extern.hash > current.hash))))
  {
  }

  /** A light client or an importing node has no locally produced headers to keep. */
  function NoPreserve(h: Header): (b: bool) { false }

  /** The fork choice of a chain without terminal difficulty and without preserved headers. */
  predicate Beats(td: map<Hash, nat>, extern: Header, current: Header)
    requires current.hash in td && extern.hash in td
  {
    ReorgNeeded(td, None, NoPreserve, current, extern).needed
  }

  /** Without preserved headers fork choice is a strict total order on headers told apart by their
      hash. */
  lemma BeatsIsStrictTotalOrder(td: map<Hash, nat>, a: Header, b: Header, c: Header)
    requires a.hash in td && b.hash in td && c.hash in td
    ensures Beats(td, a, b) <==> Above(Standing(td, NoPreserve, a), Standing(td, NoPreserve, b))
    ensures !Beats(td, a, a)
    ensures Beats(td, a, b) ==> !Beats(td, b, a)
    ensures Beats(td, a, b) && Beats(td, b, c) ==> Beats(td, a, c)
    ensures a.hash != b.hash ==> Beats(td, a, b) || Beats(td, b, a)
  {
    assert NoPreserve(a) == NoPreserve(b) == NoPreserve(c) == false;
  }

  /** With any fixed preserve function fork choice is a strict weak order: it is
      asymmetric and transitive, and being tied is transitive too. A sequence of
      accepted reorgs can therefore never return to an earlier head. */
  lemma PreserveIsStrictWeakOrder(td: map<Hash, nat>, preserve: Header -> bool, a: Header, b: Header, c: Header)
    requires a.hash in td && b.hash in td && c.hash in td
    ensures var R := (cur: Header, ext: Header) requires cur.hash in td && ext.hash in td =>
                       ReorgNeeded(td, None, preserve, cur, ext).needed;
            && !R(a, a)
            && (R(a, b) ==> !R(b, a))
            && (R(a, b) && R(b, c) ==> R(a, c))
            && (!R(a, b) && !R(b, a) && !R(b, c) && !R(c, b) ==> !R(a, c) && !R(c, a))
  {
    if td[a.hash] == td[b.hash] == td[c.hash] && a.number == b.number == c.number {
      assert a.hash == b.hash || a.hash < b.hash || b.hash < a.hash;
    }
  }

  /** A child of the head with positive difficulty always becomes the new head. */
  lemma ChildBeatsHead(t: Store, genesis: Hash, td: map<Hash, nat>, child: Hash)
    requires ValidTree(t, genesis) && DifficultiesOf(t, genesis, td)
    requires child in t && child != genesis && t[child].difficulty > 0
    ensures t[child].parent in t && t[child].hash in td && t[t[child].parent].hash in td
    ensures Beats(td, t[child], t[t[child].parent])
  {
    assert Linked(t, genesis, child);
    assert Linked(t, genesis, t[child].parent);
  }
}
