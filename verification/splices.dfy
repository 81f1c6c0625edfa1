/** Putting translated pieces back into a document, scripts/docs-i18n/markdown_segments.go and html_translate.go, and
    merging the text nodes of a block into such pieces. */
module Splices {
  import opened JsMaps
  import opened Texts

  /** A span of the document and what is to stand in its place. */
  datatype Piece = Piece(start: nat, stop: nat, value: string)

  predicate InBounds(body: string, ps: seq<Piece>) {
    forall i :: 0 <= i < |ps| ==> ps[i].start <= ps[i].stop <= |body|
  }

  /** The pieces that are used: each that does not start before the end of the one used last. */
  function Used(ps: seq<Piece>): seq<Piece> {
    if ps == [] then []
    else
      var before, p := Used(ps[..|ps| - 1]), ps[|ps| - 1];
      if p.start < End(before) then before else before + [p]
  }

  function End(ps: seq<Piece>): nat {
    if ps == [] then 0 else ps[|ps| - 1].stop
  }

  /** The document up to the end of the last of `ps`, with every piece in place and every gap copied. */
  function Filled(body: string, ps: seq<Piece>): string
    requires InBounds(body, ps) && InOrder(ps)
  {
    if ps == [] then ""
    else
      var before, p := ps[..|ps| - 1], ps[|ps| - 1];
      Filled(body, before) + body[End(before)..p.start] + p.value
  }

  /** Disjoint spans from left to right. */
  predicate InOrder(ps: seq<Piece>) {
    ps == [] || (InOrder(ps[..|ps| - 1]) && End(ps[..|ps| - 1]) <= ps[|ps| - 1].start)
  }

  lemma {:induction false} UsedInOrder(body: string, ps: seq<Piece>)
    requires InBounds(body, ps)
    ensures InOrder(Used(ps)) && InBounds(body, Used(ps)) && End(Used(ps)) <= |body|
  {
    if ps != [] {
      var before, p := Used(ps[..|ps| - 1]), ps[|ps| - 1];
      UsedInOrder(body, ps[..|ps| - 1]);
      if p.start >= End(before) {
        assert (before + [p])[..|before|] == before;
      }
    }
  }

  /** Whatever the order and the overlaps of the pieces, the used ones are put in place and all else is copied. */
  function Spliced(body: string, ps: seq<Piece>): string
    requires InBounds(body, ps)
  {
    UsedInOrder(body, ps);
    Filled(body, Used(ps)) + body[End(Used(ps))..]
  }

  ghost predicate Usable(body: string, ps: seq<Piece>) {
    InBounds(body, ps) && InOrder(ps) && End(ps) <= |body|
  }

  lemma UsedStep(body: string, ps: seq<Piece>, i: nat)
    requires InBounds(body, ps) && i < |ps|
    ensures var before, after, p := Used(ps[..i]), Used(ps[..i + 1]), ps[i];
            && Usable(body, before) && Usable(body, after)
            && if p.start < End(before) then after == before
               else End(after) == p.stop
                    && Filled(body, after) == Filled(body, before) + body[End(before)..p.start] + p.value
  {
    var before, p := Used(ps[..i]), ps[i];
    assert ps[..i + 1][..i] == ps[..i];
    UsedInOrder(body, ps[..i]);
    UsedInOrder(body, ps[..i + 1]);
    assert (before + [p])[..|before|] == before;
  }

  method ApplyTranslations(body: string, segments: seq<Piece>) returns (r: string)
    requires InBounds(body, segments)
    ensures r == Spliced(body, segments)
  {
    if |segments| == 0 {
      return body;
    }
    var out, last := "", 0;
    assert segments[..0] == [];
    for i := 0 to |segments|
      invariant Usable(body, Used(segments[..i])) && last == End(Used(segments[..i]))
      invariant out == Filled(body, Used(segments[..i]))
    {
      hide Used, Filled, InOrder, End;
      UsedStep(body, segments, i);
      var seg := segments[i];
      if seg.start < last {
        continue;
      }
      out := out + body[last..seg.start];
      out := out + seg.value;
      last := seg.stop;
    }
    assert segments[..|segments|] == segments;
    r := out + body[last..];
  }

  // ---------------------------------------------------------------- identity

  predicate KeepsText(body: string, ps: seq<Piece>)
    requires InBounds(body, ps)
  {
    forall i :: 0 <= i < |ps| ==> ps[i].value == body[ps[i].start..ps[i].stop]
  }

  lemma {:induction false} FilledWithOwnText(body: string, ps: seq<Piece>)
    requires InBounds(body, ps) && InOrder(ps) && KeepsText(body, ps)
    ensures End(ps) <= |body| && Filled(body, ps) == body[..End(ps)]
  {
    if ps != [] {
      var before, p := ps[..|ps| - 1], ps[|ps| - 1];
      FilledWithOwnText(body, before);
      assert body[..End(before)] + body[End(before)..p.start] == body[..p.start];
      assert body[..p.start] + body[p.start..p.stop] == body[..p.stop];
    }
  }

  lemma {:induction false} UsedAmong(body: string, ps: seq<Piece>)
    requires InBounds(body, ps) && KeepsText(body, ps)
    ensures InBounds(body, Used(ps)) && KeepsText(body, Used(ps))
  {
    if ps != [] {
      UsedAmong(body, ps[..|ps| - 1]);
    }
  }

  /** Replacing every piece by the text it covers changes nothing, overlaps or not. */
  lemma SpliceOwnText(body: string, ps: seq<Piece>)
    requires InBounds(body, ps) && KeepsText(body, ps)
    ensures Spliced(body, ps) == body
  {
    UsedInOrder(body, ps);
    UsedAmong(body, ps);
    FilledWithOwnText(body, Used(ps));
    assert body[..End(Used(ps))] + body[End(Used(ps))..] == body;
  }

  // ---------------------------------------------------------------- what is left out

  function LastStart(ps: seq<Piece>): nat {
    if ps == [] then 0 else ps[|ps| - 1].start
  }

  /** Sorted by start. */
  predicate ByStart(ps: seq<Piece>) {
    ps == [] || (ByStart(ps[..|ps| - 1]) && LastStart(ps[..|ps| - 1]) <= ps[|ps| - 1].start)
  }

  lemma {:induction false} LastIsLatest(ps: seq<Piece>, p: Piece)
    requires ByStart(ps) && p in ps
    ensures p.start <= LastStart(ps)
  {
    if p != ps[|ps| - 1] {
      LastIsLatest(ps[..|ps| - 1], p);
    }
  }

  lemma {:induction false} UsedArePieces(ps: seq<Piece>, p: Piece)
    ensures p in Used(ps) ==> p in ps
  {
    if ps != [] {
      UsedArePieces(ps[..|ps| - 1], p);
    }
  }

  predicate BeginsInside(p: Piece, ps: seq<Piece>) {
    exists i :: 0 <= i < |ps| && ps[i].start <= p.start < ps[i].stop
  }

  /** Among pieces sorted by their start, one is left out only because it begins inside a used one. */
  lemma {:induction false} LeftOutOverlaps(ps: seq<Piece>, p: Piece)
    requires ByStart(ps) && p in ps
    ensures p in Used(ps) || BeginsInside(p, Used(ps))
  {
    var init, last := ps[..|ps| - 1], ps[|ps| - 1];
    var before := Used(init);
    if p in init {
      LeftOutOverlaps(init, p);
      InsideMore(p, before, last);
    } else if last.start < End(before) {
      var q := before[|before| - 1];
      UsedArePieces(init, q);
      LastIsLatest(init, q);
    }
  }

  lemma InsideMore(p: Piece, ps: seq<Piece>, q: Piece)
    ensures BeginsInside(p, ps) ==> BeginsInside(p, ps + [q])
  {
    if BeginsInside(p, ps) {
      var i :| 0 <= i < |ps| && ps[i].start <= p.start < ps[i].stop;
      assert (ps + [q])[i] == ps[i];
    }
  }

  // ---------------------------------------------------------------- sorting

  /** What an unstable sort by start may return. */
  ghost predicate Sorting(ps: seq<Piece>, sorted: seq<Piece>) {
    ByStart(sorted) && multiset(sorted) == multiset(ps)
  }

  function InsertByStart(p: Piece, ps: seq<Piece>): seq<Piece> {
    if ps == [] then [p]
    else if p.start < ps[|ps| - 1].start then InsertByStart(p, ps[..|ps| - 1]) + [ps[|ps| - 1]]
    else ps + [p]
  }

  function SortByStart(ps: seq<Piece>): seq<Piece> {
    if ps == [] then [] else InsertByStart(ps[|ps| - 1], SortByStart(ps[..|ps| - 1]))
  }

  lemma {:induction false} InsertSorts(p: Piece, ps: seq<Piece>)
    requires ByStart(ps)
    ensures ByStart(InsertByStart(p, ps)) && multiset(InsertByStart(p, ps)) == multiset(ps) + multiset{p}
    ensures LastStart(InsertByStart(p, ps)) == if ps != [] && p.start < LastStart(ps) then LastStart(ps) else p.start
  {
    if ps != [] && p.start < LastStart(ps) {
      var init, last := ps[..|ps| - 1], ps[|ps| - 1];
      InsertSorts(p, init);
      WithoutLast(ps);
      Append(InsertByStart(p, init), last);
    } else {
      Append(ps, p);
    }
  }

  lemma Append(ps: seq<Piece>, p: Piece)
    requires ByStart(ps) && LastStart(ps) <= p.start
    ensures ByStart(ps + [p]) && LastStart(ps + [p]) == p.start && multiset(ps + [p]) == multiset(ps) + multiset{p}
  {
    assert (ps + [p])[..|ps|] == ps;
  }

  lemma {:induction false} SortSorts(ps: seq<Piece>)
    ensures Sorting(ps, SortByStart(ps))
  {
    hide InsertByStart, LastStart;
    if ps != [] {
      SortSorts(ps[..|ps| - 1]);
      InsertSorts(ps[|ps| - 1], SortByStart(ps[..|ps| - 1]));
      WithoutLast(ps);
    }
  }

  lemma WithoutLast(ps: seq<Piece>)
    requires ps != []
    ensures var init, last := ps[..|ps| - 1], ps[|ps| - 1];
            && ps == init + [last] && last in multiset(ps)
            && multiset(ps) == multiset(init) + multiset{last} && multiset(init) == multiset(ps) - multiset{last}
  {
    assert ps == ps[..|ps| - 1] + [ps[|ps| - 1]];
  }

  /** No two different pieces start at the same place. */
  ghost predicate NoTies(ps: seq<Piece>) {
    forall p, q :: p in multiset(ps) && q in multiset(ps) && p.start == q.start ==> p == q
  }

  /** Then there is only one way to sort them, so what is spliced does not depend on the sorting algorithm. */
  lemma {:induction false} SortedUnique(ps: seq<Piece>, qs: seq<Piece>)
    requires ByStart(ps) && ByStart(qs) && multiset(ps) == multiset(qs) && NoTies(ps)
    ensures ps == qs
  {
    hide NoTies, LastStart;
    assert |ps| == |multiset(ps)| == |multiset(qs)| == |qs|;
    if ps != [] {
      var a, b := ps[..|ps| - 1], qs[..|qs| - 1];
      SameLast(ps, qs);
      WithoutLast(ps);
      WithoutLast(qs);
      FewerTies(ps, a);
      SortedUnique(a, b);
    }
  }

  lemma FewerTies(ps: seq<Piece>, qs: seq<Piece>)
    requires NoTies(ps) && multiset(qs) <= multiset(ps)
    ensures NoTies(qs)
  {
  }

  lemma SameLast(ps: seq<Piece>, qs: seq<Piece>)
    requires ByStart(ps) && ByStart(qs) && multiset(ps) == multiset(qs) && NoTies(ps) && ps != [] && qs != []
    ensures ps[|ps| - 1] == qs[|qs| - 1]
  {
    WithoutLast(ps);
    WithoutLast(qs);
    LastIsLatest(ps, qs[|qs| - 1]);
    LastIsLatest(qs, ps[|ps| - 1]);
  }

  /** With a tie the outcome is up to the algorithm. */
  lemma TiesMatter()
    ensures var p, q := Piece(0, 1, "a"), Piece(0, 1, "b");
            && Sorting([p, q], [p, q]) && Sorting([p, q], [q, p])
            && Spliced("x", [p, q]) == "a" && Spliced("x", [q, p]) == "b"
  {
    TieResult("a", "b");
    TieResult("b", "a");
    var p, q := Piece(0, 1, "a"), Piece(0, 1, "b");
    assert [q, p] == [q] + [p] && [p, q] == [p] + [q];
  }

  lemma TieResult(v: string, w: string)
    ensures var ps := [Piece(0, 1, v), Piece(0, 1, w)];
            ByStart(ps) && InBounds("x", ps) && Spliced("x", ps) == v
  {
    var p, q := Piece(0, 1, v), Piece(0, 1, w);
    assert [p, q][..1] == [p] && [p][..0] == [];
    assert ByStart([p]) && InOrder([p]);
    assert Used([]) == [];
    assert Used([p]) == [] + [p] == [p];
    assert Used([p, q]) == [p];
    assert Filled("x", []) == "" && Filled("x", [p]) == "" + "x"[0..0] + v;
  }

  /** Pieces are left out only for beginning inside a used one. */
  ghost predicate OnlyOverlapsLeftOut(ps: seq<Piece>) {
    forall p :: p in multiset(ps) ==> p in Used(ps) || BeginsInside(p, Used(ps))
  }

  /** The replacements are spliced in some sorted order. Every sorted order gives this result, if no two different
      replacements start at the same place. */
  method ApplyHtmlReplacements(body: string, replacements: seq<Piece>) returns (r: string)
    requires InBounds(body, replacements)
    ensures exists sorted :: Sorting(replacements, sorted) && InBounds(body, sorted)
                             && OnlyOverlapsLeftOut(sorted) && r == Spliced(body, sorted)
    ensures NoTies(replacements) ==>
              forall sorted :: Sorting(replacements, sorted) ==> InBounds(body, sorted) && r == Spliced(body, sorted)
  {
    ghost var best := SortByStart(replacements);
    SortSorts(replacements);
    forall sorted | Sorting(replacements, sorted)
      ensures InBounds(body, sorted) && OnlyOverlapsLeftOut(sorted)
      ensures NoTies(replacements) ==> sorted == best
    {
      SortedInBounds(body, replacements, sorted);
      SortedOverlaps(sorted);
      if NoTies(replacements) {
        SortedUnique(sorted, best);
      }
    }
    if |replacements| == 0 {
      assert Spliced(body, []) == body;
      return body;
    }
    r := ApplyTranslations(body, SortByStart(replacements));
  }

  lemma SortedOverlaps(ps: seq<Piece>)
    requires ByStart(ps)
    ensures OnlyOverlapsLeftOut(ps)
  {
    forall p | p in multiset(ps)
      ensures p in Used(ps) || BeginsInside(p, Used(ps))
    {
      LeftOutOverlaps(ps, p);
    }
  }

  lemma SortedInBounds(body: string, ps: seq<Piece>, sorted: seq<Piece>)
    requires InBounds(body, ps) && Sorting(ps, sorted)
    ensures InBounds(body, sorted)
  {
    forall i | 0 <= i < |sorted|
      ensures sorted[i].start <= sorted[i].stop <= |body|
    {
      assert sorted[i] in multiset(sorted);
      assert sorted[i] in ps;
    }
  }
}
