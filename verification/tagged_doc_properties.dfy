/** Tagged documents survive the trip through an unchanged translation exactly when no section quotes its closing tag,
    and a field is read from its own markers exactly when no earlier line quotes its start marker and the field does
    not quote its end marker. */
module TaggedDocProperties {
  import opened Texts
  import opened Decimal
  import opened Lines
  import opened FrontMatters
  import opened TaggedDocs
  import opened Searching

  // ---------------------------------------------------------------- sections

  function Section(x: string): string {
    "\n" + x + "\n"
  }

  /** Where a section's closing tag is found. */
  lemma SectionEnd(x: string, p: string, rest: string)
    requires p != "" && OneLine(p)
    ensures var i := IndexFrom(Section(x) + (p + rest), p, 0);
            0 <= i <= |x| + 2 && (i == |x| + 2 <==> !Contains(x, p)) && (Contains(x, p) ==> i <= |x|)
  {
    if Contains(x, p) {
      FoundWithin("\n", x, "\n" + (p + rest), p);
      assert Section(x) + (p + rest) == "\n" + (x + ("\n" + (p + rest)));
    } else {
      assert p[0] != '\n';
      var after := "\n" + (p + rest);
      OneLineNoStart(x, after, p);
      NewlineNoStart(x + after, p);
      NewlineNoStart(p + rest, p);
      NoStartConcat("\n", x, after, p);
      NoStartConcat("\n" + x, "\n", p + rest, p);
      FoundAfter(Section(x), p, rest);
    }
  }

  /** Only a whole section trims to its contents. */
  lemma CutSection(x: string, i: nat)
    requires i <= |x| + 2
    ensures i == |x| + 2 ==> TrimTagNewlines(Section(x)[..i]) == x
    ensures i <= |x| && x != "" ==> TrimTagNewlines(Section(x)[..i]) != x
  {
    var v := x + "\n";
    assert Section(x)[..1] == "\n" && Section(x)[1..] == v;
    assert v[|v| - 1..] == "\n" && v[..|v| - 1] == x;
    assert Section(x)[..|x| + 2] == Section(x);
    if 0 < i {
      assert Section(x)[..i][..1] == "\n";
    } else {
      assert Section(x)[..i] == "";
    }
  }

  lemma BodyTagPosition(rest: string)
    ensures IndexFrom(FRONT_END + "\n" + BODY_START + rest, BODY_START, 0) == 15
  {
    var gap := FRONT_END + "\n";
    var t := gap + (BODY_START + rest);
    assert BODY_START[0] == '<' && BODY_START[1] == 'b';
    forall j: nat | j < 15 ensures !OccursAt(t, BODY_START, j) {
      OccursChar(t, BODY_START, j, 0);
      OccursChar(t, BODY_START, j, 1);
      assert t[j] == gap[j] && t[0] == '<' && t[1] == '/';
    }
    FoundAfter(gap, BODY_START, rest);
    assert FRONT_END + "\n" + BODY_START + rest == t;
  }

  lemma TagsAreOneLine()
    ensures OneLine(FRONT_END) && OneLine(BODY_END)
  {
  }

  function BodyPart(body: string): string {
    Section(body) + (BODY_END + "")
  }

  function AfterFront(body: string): string {
    FRONT_END + "\n" + BODY_START + BodyPart(body)
  }

  lemma FormatParts(front: string, body: string)
    ensures FormatTagged(front, body) == FRONT_START + (Section(front) + AfterFront(body))
    ensures AfterFront(body) == FRONT_END + ("\n" + BODY_START + BodyPart(body))
  {
    assert BODY_END + "" == BODY_END;
  }

  lemma FrontFound(front: string, body: string)
    ensures var t := FormatTagged(front, body);
            var i := IndexFrom(Section(front) + AfterFront(body), FRONT_END, 0);
            && IndexFrom(t, FRONT_START, 0) == 0
            && IndexFrom(t, FRONT_END, 13) == 13 + i && 0 <= i <= |front| + 2
            && (i == |front| + 2 <==> !Contains(front, FRONT_END)) && (Contains(front, FRONT_END) ==> i <= |front|)
            && t[13..13 + i] == Section(front)[..i]
  {
    var t := FormatTagged(front, body);
    FormatParts(front, body);
    TagsAreOneLine();
    SectionEnd(front, FRONT_END, "\n" + BODY_START + BodyPart(body));
    FindShifted(FRONT_START, Section(front) + AfterFront(body), FRONT_END);
    assert t[..13] == FRONT_START;
    IndexIs(t, FRONT_START, 0, 0);
  }

  function UpToBody(front: string): string {
    FRONT_START + Section(front) + FRONT_END + "\n" + BODY_START
  }

  lemma BodyParts(front: string, body: string)
    ensures FormatTagged(front, body) == UpToBody(front) + BodyPart(body)
  {
    FormatParts(front, body);
    var a, gap := FRONT_START + Section(front), FRONT_END + "\n" + BODY_START;
    assert a + gap == UpToBody(front);
  }

  lemma TagBehind(a: string, body: string)
    ensures IndexFrom(a + AfterFront(body), BODY_START, |a|) == |a| + 15
  {
    BodyTagPosition(BodyPart(body));
    FindShifted(a, AfterFront(body), BODY_START);
  }

  lemma BodyTagFound(front: string, body: string)
    ensures IndexFrom(FormatTagged(front, body), BODY_START, 13 + (|front| + 2)) == |UpToBody(front)| - 6
  {
    TagBehind(FRONT_START + Section(front), body);
    FrontParts(front, body);
  }

  lemma FrontParts(front: string, body: string)
    ensures FormatTagged(front, body) == (FRONT_START + Section(front)) + AfterFront(body)
    ensures |FRONT_START + Section(front)| == 13 + (|front| + 2) && |UpToBody(front)| == 13 + (|front| + 2) + 21
  {
    FormatParts(front, body);
  }

  lemma BodyEndFound(up: string, body: string)
    ensures var t := up + BodyPart(body);
            var i := IndexFrom(BodyPart(body), BODY_END, 0);
            && IndexFrom(t, BODY_END, |up|) == |up| + i && 0 <= i <= |body| + 2
            && (i == |body| + 2 <==> !Contains(body, BODY_END)) && (Contains(body, BODY_END) ==> i <= |body|)
            && t[|up|..|up| + i] == Section(body)[..i] && |t| == |up| + |body| + 2 + 7
  {
    TagsAreOneLine();
    SectionEnd(body, BODY_END, "");
    FindShifted(up, BodyPart(body), BODY_END);
  }

  lemma SectionsOf(t: string, start: nat, front: (nat, nat), body: (nat, nat), end: nat)
    requires start <= |t| && front.0 <= front.1 <= |t| && body.0 <= body.1 <= |t| && end <= |t|
    ensures var s := SectionsAt(t, start, front, body, end);
            var parsed := Sections(TrimTagNewlines(t[front.0..front.1]), TrimTagNewlines(t[body.0..body.1]));
            (s == parsed || s == Invalid) && (start == 0 && end == |t| ==> s == parsed)
  {
    assert t[..0] == "" && t[|t|..] == "";
  }

  /** A front matter that quotes its closing tag is cut short, if anything is read at all. */
  lemma QuotedFront(front: string, body: string)
    requires Contains(front, FRONT_END)
    ensures ParseTagged(FormatTagged(front, body)) != Sections(front, body)
  {
    var i := IndexFrom(Section(front) + AfterFront(body), FRONT_END, 0);
    FrontFound(front, body);
    CutSection(front, i);
    FrontReadAt(FormatTagged(front, body), FRONT_START, FRONT_END, BODY_START, BODY_END, 13 + i);
  }

  lemma FrontReadAt(t: string, frontTag: string, frontEndTag: string, bodyTag: string,
                    bodyEndTag: string, frontEnd: nat)
    requires IndexFrom(t, frontTag, 0) == 0 && IndexFrom(t, frontEndTag, |frontTag|) == frontEnd
    ensures var p := ParseBetween(t, frontTag, frontEndTag, bodyTag, bodyEndTag);
            p.Sections? ==> p.front == TrimTagNewlines(t[|frontTag|..frontEnd])
  {
  }

  lemma ReadAt(t: string, frontTag: string, frontEndTag: string, bodyTag: string, bodyEndTag: string,
               frontEnd: nat, bodyAt: nat, bodyEnd: nat)
    requires IndexFrom(t, frontTag, 0) == 0 && IndexFrom(t, frontEndTag, |frontTag|) == frontEnd
    requires IndexFrom(t, bodyTag, frontEnd) == bodyAt && IndexFrom(t, bodyEndTag, bodyAt + |bodyTag|) == bodyEnd
    ensures ParseBetween(t, frontTag, frontEndTag, bodyTag, bodyEndTag)
         == SectionsAt(t, 0, (|frontTag|, frontEnd), (bodyAt + |bodyTag|, bodyEnd), bodyEnd + |bodyEndTag|)
  {
    hide IndexFrom, OccursAt, SectionsAt;
  }

  function BodyLength(body: string): int {
    IndexFrom(BodyPart(body), BODY_END, 0)
  }

  lemma CleanFrontRead(front: string, body: string)
    requires !Contains(front, FRONT_END)
    ensures var t, up := FormatTagged(front, body), |UpToBody(front)|;
            && 0 <= BodyLength(body) && up + BodyLength(body) + 7 <= |t|
            && ParseTagged(t) == SectionsAt(t, 0, (13, 13 + (|front| + 2)), (up, up + BodyLength(body)),
                                            up + BodyLength(body) + 7)
  {
    hide IndexFrom, OccursAt, UpToBody, SectionsAt;
    var t, up := FormatTagged(front, body), UpToBody(front);
    FrontFound(front, body);
    BodyParts(front, body);
    BodyTagFound(front, body);
    BodyEndFound(up, body);
    ReadAt(t, FRONT_START, FRONT_END, BODY_START, BODY_END, 13 + (|front| + 2), |up| - 6, |up| + BodyLength(body));
  }

  lemma SectionSlices(front: string, body: string)
    requires !Contains(front, FRONT_END)
    ensures var t, up, i := FormatTagged(front, body), |UpToBody(front)|, BodyLength(body);
            && 0 <= i <= |body| + 2 && (i == |body| + 2 <==> !Contains(body, BODY_END))
            && (Contains(body, BODY_END) ==> i <= |body| && body != "")
            && |t| == up + |body| + 2 + 7 && up >= 13 + (|front| + 2)
            && t[13..13 + (|front| + 2)] == Section(front)[..|front| + 2]
            && t[up..up + i] == Section(body)[..i]
  {
    FrontFound(front, body);
    BodyParts(front, body);
    BodyEndFound(UpToBody(front), body);
  }

  lemma CleanFront(front: string, body: string)
    requires !Contains(front, FRONT_END)
    ensures ParseTagged(FormatTagged(front, body)) == Sections(front, body) <==> !Contains(body, BODY_END)
  {
    hide IndexFrom, OccursAt, Contains, FormatTagged, UpToBody, Section, BodyLength, ParseTagged, SectionsAt,
         TrimTagNewlines;
    var t, up := FormatTagged(front, body), |UpToBody(front)|;
    var i := BodyLength(body);
    CleanFrontRead(front, body);
    SectionSlices(front, body);
    CutSection(front, |front| + 2);
    CutSection(body, i);
    SectionsOf(t, 0, (13, 13 + (|front| + 2)), (up, up + i), up + i + 7);
  }

  /** Behind a body's first closing tag stands the real one, so a body that quotes it is refused. */
  lemma QuotedBody(front: string, body: string)
    requires !Contains(front, FRONT_END) && Contains(body, BODY_END)
    ensures ParseTagged(FormatTagged(front, body)) == Invalid
  {
    hide IndexFrom, OccursAt, Contains, UpToBody, Section, BodyLength, ParseTagged, TrimTagNewlines, TrimSpace;
    var t := FormatTagged(front, body);
    CleanFrontRead(front, body);
    SectionSlices(front, body);
    var rest := t[|UpToBody(front)| + BodyLength(body) + 7..];
    assert t[|t| - 1] == BODY_END[6] == '>' && rest != "" && rest[|rest| - 1] == '>';
    NotBlank(rest);
  }

  lemma NotBlank(s: string)
    requires s != "" && !IsSpace(s[|s| - 1])
    ensures TrimSpace(s) != ""
  {
    TrimLeftKeepsLast(s);
  }

  lemma {:induction false} TrimLeftKeepsLast(s: string)
    requires s != "" && !IsSpace(s[|s| - 1])
    ensures var t := TrimLeft(s); t != "" && t[|t| - 1] == s[|s| - 1]
  {
    if IsSpace(s[0]) {
      TrimLeftKeepsLast(s[1..]);
    }
  }

  /** Parsing a formatted document gives back both sections exactly when neither quotes its closing tag. */
  lemma TaggedRoundTrip(front: string, body: string)
    ensures ParseTagged(FormatTagged(front, body)) == Sections(front, body)
       <==> !Contains(front, FRONT_END) && !Contains(body, BODY_END)
  {
    if Contains(front, FRONT_END) {
      QuotedFront(front, body);
    } else {
      CleanFront(front, body);
    }
  }

  // ---------------------------------------------------------------- markers

  /** The shape of every marker: three brackets at the front and none behind them, on one line. */
  predicate IsMark(p: string) {
    |p| > 6 && p[..6] == "[[[FM_" && forall i :: 3 <= i < |p| ==> p[i] != '[' && p[i] != '\n'
  }

  predicate Inner(s: string) {
    forall i :: 0 <= i < |s| ==> s[i] != '[' && s[i] != '\n'
  }

  lemma InnerConcat(a: string, b: string)
    requires Inner(a) && Inner(b)
    ensures Inner(a + b)
  {
  }

  lemma MarkerShape(f: Field, index: nat, side: Side)
    ensures IsMark(MarkerText(f, index, side))
  {
    hide IsMark, Digits;
    var d := Digits(index);
    assert Inner(d);
    InnerConcat(d, "_");
    InnerConcat(d + "_", SideName(side));
    InnerConcat(d + "_" + SideName(side), "]]]");
    var tail := d + "_" + SideName(side) + "]]]";
    InnerConcat(Tag(f) + "_", tail);
    MarkFromTail(Tag(f) + "_", tail);
    assert "[[[FM_" + (Tag(f) + "_") == "[[[FM_" + Tag(f) + "_";
  }

  lemma MarkFromTail(a: string, b: string)
    requires a != "" && Inner(a + b)
    ensures IsMark("[[[FM_" + a + b)
    ensures ("[[[FM_" + a) + b == "[[[FM_" + (a + b)
  {
    var p := "[[[FM_" + (a + b);
    assert p[..6] == "[[[FM_" && p == "[[[FM_" + a + b;
    forall i | 3 <= i < |p| ensures p[i] != '[' && p[i] != '\n' {
      if i >= 6 {
        assert p[i] == (a + b)[i - 6];
      }
    }
  }

  /** What may follow a text without hiding a marker in the seam. */
  predicate Seam(rest: string) {
    rest == "" || rest[0] == '\n' || (|rest| >= 3 && rest[..3] == "[[[")
  }

  lemma PlainNoStart(a: string, rest: string, p: string)
    requires IsMark(p) && !Contains(a, p) && Seam(rest)
    ensures NoStart(a, rest, p)
  {
    forall j: nat | j < |a| ensures !OccursAt(a + rest, p, j) {
      if j + |p| <= |a| {
        OccursInLeft(a, rest, p, j);
      } else if OccursAt(a + rest, p, j) {
        SeamClash(a, rest, p, j);
      }
    }
  }

  lemma SeamClash(a: string, rest: string, p: string, j: nat)
    requires IsMark(p) && Seam(rest) && j < |a| < j + |p|
    ensures !OccursAt(a + rest, p, j)
  {
    var d := |a| - j;
    if j + |p| <= |a + rest| {
      var s := (a + rest)[j..j + |p|];
      assert forall k :: 0 <= k && d + k < |p| ==> s[d + k] == rest[k];
      assert s[d] == rest[0];
      assert p[0] == '[' && p[1] == '[' && p[2] == '[';
      if rest[0] != '\n' {
        assert rest[1] == '[' && rest[2] == '[' by {
          assert rest[..3][1] == '[' && rest[..3][2] == '[';
        }
        assert d == 1 ==> s[3] == '[';
        assert d == 2 ==> s[3] == '[';
      }
    }
  }

  /** Two markers disagree somewhere before either ends. */
  lemma MarkersDiffer(f: Field, i: nat, side: Side, f': Field, i': nat, side': Side) returns (m: nat)
    requires (f, i, side) != (f', i', side')
    ensures var p, q := MarkerText(f, i, side), MarkerText(f', i', side'); m < |p| && m < |q| && p[m] != q[m]
  {
    var p, q := MarkerText(f, i, side), MarkerText(f', i', side');
    var d, d' := Digits(i), Digits(i');
    if f != f' {
      m := 6;
      assert p[6] == Tag(f)[0] && q[6] == Tag(f')[0];
    } else {
      var head := "[[[FM_" + Tag(f) + "_";
      var t, t' := d + "_" + SideName(side) + "]]]", d' + "_" + SideName(side') + "]]]";
      assert p == head + t && q == head + t';
      var k := TailsDiffer(i, side, i', side');
      m := |head| + k;
    }
  }

  lemma TailsDiffer(i: nat, side: Side, i': nat, side': Side) returns (m: nat)
    requires (i, side) != (i', side')
    ensures var t, t' := Digits(i) + "_" + SideName(side) + "]]]", Digits(i') + "_" + SideName(side') + "]]]";
            m < |t| && m < |t'| && t[m] != t'[m]
  {
    var d, d' := Digits(i), Digits(i');
    if |d| != |d'| {
      m := if |d| < |d'| then |d| else |d'|;
      assert IsDigit(if |d| < |d'| then d'[m] else d[m]);
    } else if i != i' {
      if d == d' {
        DigitsInjective(i, i');
      }
      m :| 0 <= m < |d| && d[m] != d'[m];
    } else {
      m := |d| + 1;
    }
  }

  lemma OtherMarkNoStart(p: string, q: string, rest: string, m: nat)
    requires IsMark(p) && IsMark(q) && m < |p| && m < |q| && p[m] != q[m]
    ensures NoStart(q, rest, p)
  {
    forall j: nat | j < |q| ensures !OccursAt(q + rest, p, j) {
      if j + |p| <= |q + rest| {
        var s := (q + rest)[j..j + |p|];
        assert forall k :: 0 <= k < |p| && j + k < |q| ==> s[k] == q[j + k];
        if j == 0 {
          assert s[m] == q[m];
        } else if j < 3 {
          assert p[3 - j] == '[' by { assert p[..6][3 - j] == '['; }
          assert s[3 - j] == q[3];
        } else {
          assert s[0] == q[j] && p[..6][0] == '[';
        }
      }
    }
  }
}
