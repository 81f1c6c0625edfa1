/** Which parts of a text are masked: the matches of the three patterns told by their delimiters alone, and that a
    masking pass finds and masks all of them. */
module MaskingMatches {
  import opened Texts
  import opened Masking

  // ---------------------------------------------------------------- the patterns by their delimiters

  /** No c in s[lo..hi]. */
  predicate Free(s: string, lo: nat, hi: nat, c: char)
    requires hi <= |s|
  {
    forall k :: lo <= k < hi ==> s[k] != c
  }

  predicate InBounds(s: string, x: Span) {
    x.full <= x.start < x.end <= x.stop <= |s|
  }

  /** Two backticks with something but no backtick between them. */
  predicate IsCode(s: string, x: Span) {
    && InBounds(s, x) && x.start == x.full && x.end == x.stop && x.stop >= x.full + 3
    && s[x.full] == '`' && s[x.stop - 1] == '`' && Free(s, x.full + 1, x.stop - 1, '`')
  }

  /** An angle bracket and `scheme`, something but no closing bracket, and the closing bracket. */
  predicate IsAngle(s: string, x: Span, scheme: string) {
    && InBounds(s, x) && x.start == x.full && x.end == x.stop && x.full + |scheme| + 2 <= x.stop
    && OccursAt(s, scheme, x.full) && s[x.stop - 1] == '>' && Free(s, x.full + |scheme|, x.stop - 1, '>')
  }

  /** A bracketed label that ends at j, and in parentheses behind it something without a closing one. */
  predicate IsLink(s: string, x: Span, j: nat) {
    && InBounds(s, x) && x.full < j && x.start == j + 2 && x.stop == x.end + 1
    && s[x.full] == '[' && Free(s, x.full + 1, j, ']') && s[j] == ']' && s[j + 1] == '('
    && Free(s, x.start, x.end, ')') && s[x.end] == ')'
  }

  ghost predicate IsMatch(p: Pattern, s: string, x: Span) {
    match p
    case InlineCode => IsCode(s, x)
    case AngleLink => IsAngle(s, x, "<https://") || IsAngle(s, x, "<http://")
    case LinkUrl => exists j: nat :: IsLink(s, x, j)
  }

  /** The next place of a character. */
  lemma NextPlace(s: string, c: char, i: nat)
    requires i <= |s|
    ensures var j := IndexFrom(s, [c], i);
            if j < 0 then Free(s, i, |s|, c) else i <= j < |s| && s[j] == c && Free(s, i, j, c)
  {
    var j := IndexFrom(s, [c], i);
    IndexIsFirst(s, [c], i);
    assert forall k: nat :: k < |s| && s[k] == c ==> s[k..k + 1] == [c] && OccursAt(s, [c], k);
    if j >= 0 {
      assert s[j..j + 1] == [c];
    }
  }

  /** At most one place is the next one. */
  lemma PlaceIs(s: string, c: char, i: nat, j: nat)
    requires i <= j < |s| && s[j] == c && Free(s, i, j, c)
    ensures IndexFrom(s, [c], i) == j
  {
    NextPlace(s, c, i);
  }

  lemma CodeExactly(s: string, i: nat, x: Span)
    requires i < |s|
    ensures InlineCodeAt(s, i) == Match(x) <==> IsCode(s, x) && x.full == i
  {
    hide IndexFrom;
    NextPlace(s, '`', i + 1);
    if IsCode(s, x) && x.full == i {
      PlaceIs(s, '`', i + 1, x.stop - 1);
    }
  }

  lemma AngleWith(s: string, i: nat, x: Span, scheme: string)
    requires i + |scheme| <= |s| && OccursAt(s, scheme, i) && |scheme| > 0
    ensures var j := IndexFrom(s, ">", i + |scheme|);
            (j >= i + |scheme| + 1 && x == Span(i, i, j + 1, j + 1)) <==> IsAngle(s, x, scheme) && x.full == i
  {
    hide IndexFrom;
    NextPlace(s, '>', i + |scheme|);
    if IsAngle(s, x, scheme) && x.full == i {
      PlaceIs(s, '>', i + |scheme|, x.stop - 1);
    }
  }

  lemma OneScheme(s: string, i: nat)
    ensures !(OccursAt(s, "<https://", i) && OccursAt(s, "<http://", i))
  {
    CharOf(s, "<https://", i, 5);
    CharOf(s, "<http://", i, 5);
  }

  lemma CharOf(s: string, p: string, i: nat, k: nat)
    requires k < |p|
    ensures OccursAt(s, p, i) ==> i + |p| <= |s| && s[i + k] == p[k]
  {
    if OccursAt(s, p, i) {
      assert s[i..i + |p|][k] == p[k];
    }
  }

  lemma AngleExactly(s: string, i: nat, x: Span)
    requires i < |s|
    ensures AngleLinkAt(s, i) == Match(x) <==> IsMatch(AngleLink, s, x) && x.full == i
  {
    hide IndexFrom, OccursAt;
    OneScheme(s, i);
    if OccursAt(s, "<https://", i) {
      SchemeFits(s, "<https://", i);
      AngleWith(s, i, x, "<https://");
    } else if OccursAt(s, "<http://", i) {
      SchemeFits(s, "<http://", i);
      AngleWith(s, i, x, "<http://");
    }
  }

  lemma SchemeFits(s: string, p: string, i: nat)
    requires OccursAt(s, p, i)
    ensures i + |p| <= |s|
  {
  }

  lemma LinkExactly(s: string, i: nat, x: Span)
    requires i < |s|
    ensures LinkUrlAt(s, i) == Match(x) <==> IsMatch(LinkUrl, s, x) && x.full == i
  {
    hide IndexFrom;
    NextPlace(s, ']', i + 1);
    var j := IndexFrom(s, "]", i + 1);
    if s[i] == '[' && j >= 0 && OccursAt(s, "](", j) {
      LinkBehind(s, i, j, x);
    }
    forall k: nat | IsLink(s, x, k) && x.full == i
      ensures LinkUrlAt(s, i) == Match(x)
    {
      LinkFound(s, i, k, x);
    }
  }

  lemma LinkFound(s: string, i: nat, k: nat, x: Span)
    requires i < |s| && IsLink(s, x, k) && x.full == i
    ensures LinkUrlAt(s, i) == Match(x)
  {
    hide IndexFrom;
    PlaceIs(s, ']', i + 1, k);
    PlaceIs(s, ')', k + 2, x.end);
    assert s[k..k + 2] == "](";
  }

  lemma LinkBehind(s: string, i: nat, j: nat, x: Span)
    requires i < j < |s| && s[i] == '[' && Free(s, i + 1, j, ']') && OccursAt(s, "](", j)
    ensures var k := IndexFrom(s, ")", j + 2); k >= j + 3 && x == Span(i, j + 2, k, k + 1) ==> IsLink(s, x, j)
  {
    hide IndexFrom;
    CharOf(s, "](", j, 0);
    CharOf(s, "](", j, 1);
    NextPlace(s, ')', j + 2);
  }

  /** The matcher at a position finds exactly the match that begins there. */
  lemma MatchExactly(p: Pattern, s: string, i: nat, x: Span)
    requires i < |s|
    ensures MatchAt(p, s, i) == Match(x) <==> IsMatch(p, s, x) && x.full == i
  {
    match p {
      case InlineCode => CodeExactly(s, i, x);
      case AngleLink => AngleExactly(s, i, x);
      case LinkUrl => LinkExactly(s, i, x);
    }
  }

  // ---------------------------------------------------------------- all matches are found

  /** From left to right, none before `from`, none overlapping. */
  predicate Ascending(spans: seq<Span>, from: nat) {
    spans == [] || (from <= spans[0].full < spans[0].stop && Ascending(spans[1..], spans[0].stop))
  }

  /** The position is inside one of the spans. */
  predicate Inside(spans: seq<Span>, i: nat) {
    exists k :: 0 <= k < |spans| && spans[k].full <= i < spans[k].stop
  }

  ghost predicate AllMatches(p: Pattern, s: string, spans: seq<Span>) {
    forall k :: 0 <= k < |spans| ==> IsMatch(p, s, spans[k])
  }

  /** Every match from position `from` on is one of the spans or begins inside one. */
  ghost predicate Covered(p: Pattern, s: string, spans: seq<Span>, from: nat) {
    forall x :: IsMatch(p, s, x) && x.full >= from ==> Inside(spans, x.full)
  }

  /** The search finds matches only, from left to right and disjoint, and every match begins with or inside one. */
  lemma {:induction false} FindAllExactly(p: Pattern, s: string, i: nat)
    requires i <= |s|
    ensures var spans := FindAll(p, s, i);
            AllMatches(p, s, spans) && Ascending(spans, i) && Covered(p, s, spans, i)
    decreases |s| - i
  {
    hide MatchAt, IsMatch, Covered, AllMatches, Ascending, Cut;
    if i == |s| {
      NoneAtEnd(p, s);
    } else {
      match MatchAt(p, s, i) {
        case NoMatch =>
          FindAllExactly(p, s, i + 1);
          NoMatchCovered(p, s, i, FindAll(p, s, i + 1));
          AscendingFrom(FindAll(p, s, i + 1), i + 1, i);
        case Match(x) =>
          MatchExactly(p, s, i, x);
          FindAllExactly(p, s, x.stop);
          MatchCovered(p, s, i, x, FindAll(p, s, x.stop));
          AscendingMore(x, FindAll(p, s, x.stop), i);
      }
    }
  }

  lemma NoneAtEnd(p: Pattern, s: string)
    ensures Covered(p, s, [], |s|) && AllMatches(p, s, []) && Ascending([], |s|)
  {
  }

  lemma NoMatchCovered(p: Pattern, s: string, i: nat, spans: seq<Span>)
    requires i < |s| && MatchAt(p, s, i) == NoMatch && Covered(p, s, spans, i + 1)
    ensures Covered(p, s, spans, i)
  {
    hide MatchAt, IsMatch;
    forall x | IsMatch(p, s, x) && x.full >= i
      ensures Inside(spans, x.full)
    {
      MatchExactly(p, s, i, x);
    }
  }

  lemma MatchCovered(p: Pattern, s: string, i: nat, x: Span, rest: seq<Span>)
    requires i <= x.full < x.stop && x.full == i && IsMatch(p, s, x) && AllMatches(p, s, rest)
    requires Covered(p, s, rest, x.stop)
    ensures AllMatches(p, s, [x] + rest) && Covered(p, s, [x] + rest, i)
  {
    hide IsMatch;
    forall y | IsMatch(p, s, y) && y.full >= i
      ensures Inside([x] + rest, y.full)
    {
      InsideMore(x, rest, y.full);
      if y.full < x.stop {
        assert ([x] + rest)[0] == x;
      }
    }
  }

  lemma InsideMore(x: Span, rest: seq<Span>, i: nat)
    ensures Inside(rest, i) ==> Inside([x] + rest, i)
  {
    if Inside(rest, i) {
      var k :| 0 <= k < |rest| && rest[k].full <= i < rest[k].stop;
      assert ([x] + rest)[k + 1] == rest[k];
    }
  }

  // ---------------------------------------------------------------- all of them are masked

  /** Every name in use is known to the supply. */
  ghost predicate Known(m: Masked) {
    m.mapping.Keys <= m.gen.used
  }

  predicate AllInBounds(text: string, spans: seq<Span>) {
    forall k :: 0 <= k < |spans| ==> InBounds(text, spans[k])
  }

  /** r has one more placeholder for each span, which stands for the text of that span; older ones stand for what they
      stood for. */
  ghost predicate MasksEach(text: string, spans: seq<Span>, m: Masked, r: Masked)
    requires AllInBounds(text, spans)
  {
    && |r.placeholders| == |m.placeholders| + |spans| && m.placeholders <= r.placeholders
    && (forall q :: q in m.mapping ==> q in r.mapping && r.mapping[q] == m.mapping[q])
    && (forall k :: 0 <= k < |spans| ==> StandsFor(text, spans[k], r, |m.placeholders| + k))
  }

  /** The i-th placeholder stands for what x hides. */
  predicate StandsFor(text: string, x: Span, r: Masked, i: nat)
    requires InBounds(text, x)
  {
    && i < |r.placeholders| && r.placeholders[i] in r.mapping
    && r.mapping[r.placeholders[i]] == text[x.start..x.end]
  }

  lemma {:induction false} SpliceMasksEach(text: string, spans: seq<Span>, pos: nat, m: Masked)
    requires pos <= |text| && forall k :: 0 <= k < |spans| ==> SpanOk(text, spans[k])
    requires Ascending(spans, pos) && Known(m) && AllInBounds(text, spans)
    ensures var r := Splice(text, spans, pos, m); MasksEach(text, spans, m, r) && Known(r)
  {
    hide NextName, NextGen, Cut;
    if spans != [] {
      var x := spans[0];
      assert SpanOk(text, x);
      var a := Append(m, text[pos..x.start], text[x.start..x.end]);
      AppendKeeps(m, text[pos..x.start], text[x.start..x.end]);
      AscendingFrom(spans[1..], x.stop, x.end);
      SpliceMasksEach(text, spans[1..], x.end, a);
      var r := Splice(text, spans[1..], x.end, a);
      MasksOneMore(text, spans, m, a, r);
    }
  }

  lemma MasksOneMore(text: string, spans: seq<Span>, m: Masked, a: Masked, r: Masked)
    requires spans != [] && AllInBounds(text, spans) && AllInBounds(text, spans[1..])
    requires |a.placeholders| == |m.placeholders| + 1 && m.placeholders <= a.placeholders
    requires forall q :: q in m.mapping ==> q in a.mapping && a.mapping[q] == m.mapping[q]
    requires a.placeholders[|m.placeholders|] in a.mapping
    requires a.mapping[a.placeholders[|m.placeholders|]] == text[spans[0].start..spans[0].end]
    requires MasksEach(text, spans[1..], a, r)
    ensures MasksEach(text, spans, m, r)
  {
    var n := |m.placeholders|;
    assert r.placeholders[n] == a.placeholders[n];
    forall k | 0 <= k < |spans|
      ensures StandsFor(text, spans[k], r, n + k)
    {
      if k > 0 {
        assert spans[k] == spans[1..][k - 1];
        assert StandsFor(text, spans[1..][k - 1], r, |a.placeholders| + (k - 1));
      }
    }
  }

  lemma AscendingMore(x: Span, rest: seq<Span>, from: nat)
    requires from <= x.full < x.stop && Ascending(rest, x.stop)
    ensures Ascending([x] + rest, from)
  {
    assert ([x] + rest)[1..] == rest;
  }

  lemma AscendingFrom(spans: seq<Span>, from: nat, lower: nat)
    requires Ascending(spans, from) && lower <= from
    ensures Ascending(spans, lower)
  {
  }

  lemma AppendKeeps(m: Masked, gap: string, covered: string)
    requires Known(m)
    ensures var a := Append(m, gap, covered);
            && Known(a) && |a.placeholders| == |m.placeholders| + 1 && m.placeholders <= a.placeholders
            && (forall q :: q in m.mapping ==> q in a.mapping && a.mapping[q] == m.mapping[q])
            && a.placeholders[|m.placeholders|] in a.mapping
            && a.mapping[a.placeholders[|m.placeholders|]] == covered
  {
    hide FreeFrom, Name;
    assert NextName(m.gen) !in m.mapping;
  }

  /** A pass masks every match of its pattern that does not begin inside another, each with a placeholder of its own,
      and changes no earlier placeholder. */
  lemma PassMasksAll(p: Pattern, m: Masked)
    requires Known(m)
    ensures var spans := FindAll(p, m.text, 0);
            && AllMatches(p, m.text, spans) && Ascending(spans, 0) && Covered(p, m.text, spans, 0)
            && AllInBounds(m.text, spans)
            && MasksEach(m.text, spans, m, MaskPass(p, m)) && Known(MaskPass(p, m))
  {
    hide FindAll, Splice, Covered, AllMatches, Ascending, Cut;
    var spans := FindAll(p, m.text, 0);
    FindAllExactly(p, m.text, 0);
    forall k | 0 <= k < |spans|
      ensures InBounds(m.text, spans[k])
    {
      assert SpanOk(m.text, spans[k]);
    }
    SpliceMasksEach(m.text, spans, 0, m.(text := ""));
    assert MasksEach(m.text, spans, m.(text := ""), MaskPass(p, m));
    assert MasksEach(m.text, spans, m, MaskPass(p, m));
  }

  /** Every code span of a text begins with or inside a match whose text stands behind a placeholder of the masked
      text; so does every angle link of what the first pass leaves, and every link target of what the second leaves. */
  lemma EveryMatchIsMasked(text: string, x: Span)
    ensures var m1 := MaskPass(InlineCode, Masked(text, NewGen(text), [], map[]));
            var m2 := MaskPass(AngleLink, m1);
            && (IsMatch(InlineCode, text, x) ==> Hidden(InlineCode, text, x, Mask(text)))
            && (IsMatch(AngleLink, m1.text, x) ==> Hidden(AngleLink, m1.text, x, Mask(text)))
            && (IsMatch(LinkUrl, m2.text, x) ==> Hidden(LinkUrl, m2.text, x, Mask(text)))
  {
    hide MaskPass, FindAll, IsMatch, NewGen, MasksEach;
    var m0 := Masked(text, NewGen(text), [], map[]);
    var m1 := MaskPass(InlineCode, m0);
    var m2 := MaskPass(AngleLink, m1);
    PassMasksAll(InlineCode, m0);
    PassMasksAll(AngleLink, m1);
    PassMasksAll(LinkUrl, m2);
    PassHides(InlineCode, m0, x);
    PassHides(AngleLink, m1, x);
    PassHides(LinkUrl, m2, x);
    PassKeepsHidden(AngleLink, m1, InlineCode, text, x);
    PassKeepsHidden(LinkUrl, m2, InlineCode, text, x);
    PassKeepsHidden(LinkUrl, m2, AngleLink, m1.text, x);
  }

  /** Some match y of the text begins no later than x and ends behind x's beginning, and a placeholder stands for what
      y is to hide. */
  ghost predicate Hidden(p: Pattern, text: string, x: Span, m: Masked) {
    exists y, q :: IsMatch(p, text, y) && y.full <= x.full < y.stop && HiddenBehind(text, y, q, m)
  }

  ghost predicate HiddenBehind(text: string, y: Span, q: string, m: Masked) {
    InBounds(text, y) && q in m.placeholders && q in m.mapping && m.mapping[q] == text[y.start..y.end]
  }

  lemma PassHides(p: Pattern, m: Masked, x: Span)
    requires Known(m)
    ensures IsMatch(p, m.text, x) ==> Hidden(p, m.text, x, MaskPass(p, m))
  {
    hide IsMatch, FindAll, MaskPass, MasksEach, AllMatches, Hidden, Inside, AllInBounds, Ascending;
    PassMasksAll(p, m);
    if IsMatch(p, m.text, x) {
      FoundIsHidden(p, m, FindAll(p, m.text, 0), MaskPass(p, m), x);
    }
  }

  lemma FoundIsHidden(p: Pattern, m: Masked, spans: seq<Span>, r: Masked, x: Span)
    requires AllInBounds(m.text, spans) && AllMatches(p, m.text, spans) && MasksEach(m.text, spans, m, r)
    requires Inside(spans, x.full)
    ensures Hidden(p, m.text, x, r)
  {
    hide IsMatch;
    var k :| 0 <= k < |spans| && spans[k].full <= x.full < spans[k].stop;
    assert StandsFor(m.text, spans[k], r, |m.placeholders| + k);
    assert HiddenBehind(m.text, spans[k], r.placeholders[|m.placeholders| + k], r);
  }

  lemma PassKeepsHidden(p: Pattern, m: Masked, q: Pattern, text: string, x: Span)
    requires Known(m)
    ensures Hidden(q, text, x, m) ==> Hidden(q, text, x, MaskPass(p, m))
  {
    hide IsMatch, FindAll, MaskPass;
    PassMasksAll(p, m);
    if Hidden(q, text, x, m) {
      var y, name :| IsMatch(q, text, y) && y.full <= x.full < y.stop && HiddenBehind(text, y, name, m);
      var i :| 0 <= i < |m.placeholders| && m.placeholders[i] == name;
      assert MaskPass(p, m).placeholders[i] == name;
      assert HiddenBehind(text, y, name, MaskPass(p, m));
    }
  }
}
