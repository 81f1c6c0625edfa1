/** What an unchanged translation makes of a whole document. */
module TaggedDocOutcomes {
  import opened JsMaps
  import opened Texts
  import opened Lines
  import opened FrontMatters
  import opened TaggedDocs
  import opened TaggedDocProperties
  import opened TaggedDocEcho

  // ---------------------------------------------------------------- values that quote a marker

  /** Trimming cuts no occurrence of a text that neither begins nor ends with white space. */
  lemma TrimKeepsOccurrences(s: string, p: string)
    requires p != "" && !IsSpace(p[0]) && !IsSpace(p[|p| - 1])
    ensures Occurs(TrimSpace(s), p) <==> Occurs(s, p)
  {
    TrimLeftOccurs(s, p);
    TrimRightOccurs(TrimLeft(s), p);
  }

  lemma {:induction false} TrimLeftOccurs(s: string, p: string)
    requires p != "" && !IsSpace(p[0])
    ensures Occurs(TrimLeft(s), p) <==> Occurs(s, p)
  {
    if s != [] && IsSpace(s[0]) {
      TrimLeftOccurs(s[1..], p);
      OccursBehind(s, p);
    }
  }

  lemma OccursBehind(s: string, p: string)
    requires s != [] && p != "" && p[0] != s[0]
    ensures Occurs(s[1..], p) <==> Occurs(s, p)
  {
    forall i: nat
      ensures OccursAt(s[1..], p, i) <==> OccursAt(s, p, i + 1)
    {
      if i + 1 + |p| <= |s| {
        assert s[1..][i..i + |p|] == s[i + 1..i + 1 + |p|];
      }
    }
    assert !OccursAt(s, p, 0);
    forall i: nat | OccursAt(s, p, i)
      ensures Occurs(s[1..], p)
    {
      assert OccursAt(s[1..], p, i - 1) <==> OccursAt(s, p, i - 1 + 1);
    }
  }

  lemma {:induction false} TrimRightOccurs(s: string, p: string)
    requires p != "" && !IsSpace(p[|p| - 1])
    ensures Occurs(TrimRight(s), p) <==> Occurs(s, p)
  {
    if s != [] && IsSpace(s[|s| - 1]) {
      TrimRightOccurs(s[..|s| - 1], p);
      OccursBefore(s, p);
    }
  }

  lemma OccursBefore(s: string, p: string)
    requires s != [] && p != "" && p[|p| - 1] != s[|s| - 1]
    ensures Occurs(s[..|s| - 1], p) <==> Occurs(s, p)
  {
    var t, last := s[..|s| - 1], s[|s| - 1..];
    assert s == t + last;
    forall i: nat | OccursAt(s, p, i)
      ensures Occurs(t, p)
    {
      assert s[i..i + |p|][|p| - 1] != s[|s| - 1];
      OccursInLeft(t, last, p, i);
      assert OccursAt(t, p, i);
    }
    forall i: nat | OccursAt(t, p, i)
      ensures Occurs(s, p)
    {
      OccursInLeft(t, last, p, i);
      assert OccursAt(s, p, i);
    }
  }

  /** A value read from between markers never holds the closing one. */
  lemma ExtractedIsClean(t: string, s: string, e: string)
    requires e != "" && ExtractMarkerValue(t, s, e).Ok?
    ensures !Occurs(ExtractMarkerValue(t, s, e).value, e)
  {
    var from := IndexFrom(t, s, 0) + |s|;
    var to := IndexFrom(t, e, from);
    IndexIsFirst(t, e, from);
    NoneInside(t, e, from, to);
  }

  lemma NoneInside(t: string, e: string, from: nat, to: nat)
    requires e != "" && from <= to <= |t| && NoneIn(t, e, from, to)
    ensures !Occurs(t[from..to], e)
  {
    forall i: nat
      ensures !OccursAt(t[from..to], e, i)
    {
      if i + |e| <= to - from {
        SliceOfSlice(t, from, to, i, |e|);
        assert !OccursAt(t, e, from + i);
      }
    }
  }

  lemma SliceOfSlice(s: string, a: nat, b: nat, i: nat, n: nat)
    requires a <= b <= |s| && i + n <= b - a
    ensures s[a..b][i..i + n] == s[a + i..a + i + n]
  {
    assert s[a..b] == s[a..][..b - a];
    assert s[a..b][i..i + n] == s[a..][i..i + n];
  }

  // ---------------------------------------------------------------- reading a template back

  predicate StartsUnquoted(ls: seq<TemplateLine>) {
    forall k :: 0 <= k < |ls| && ls[k].Marked? ==> !QuotedEarlier(ls, k)
  }

  predicate EndsUnquoted(ls: seq<TemplateLine>) {
    forall k :: 0 <= k < |ls| && ls[k].Marked? ==> !Contains(ls[k].value, ls[k].marker.EndText())
  }

  function ReadBack(front: string, m: Marker): Outcome<string> {
    ExtractMarkerValue(front, m.StartText(), m.EndText())
  }

  /** Every field can be read from `front`. */
  predicate AllFound(front: string, ls: seq<TemplateLine>) {
    forall k :: 0 <= k < |ls| && ls[k].Marked? ==> ReadBack(front, ls[k].marker).Ok?
  }

  function RereadLine(front: string, l: TemplateLine): TemplateLine
    requires l.Marked? ==> ReadBack(front, l.marker).Ok?
  {
    if l.Marked? then l.(value := ReadBack(front, l.marker).value) else l
  }

  /** The lines with the values that are read back. */
  function Reread(front: string, ls: seq<TemplateLine>): (r: seq<TemplateLine>)
    requires AllFound(front, ls)
    ensures |r| == |ls| && forall k :: 0 <= k < |ls| ==> r[k] == RereadLine(front, ls[k])
  {
    seq(|ls|, k requires 0 <= k < |ls| => RereadLine(front, ls[k]))
  }

  lemma {:induction false} AppliedLines(data: FrontData, ls: seq<TemplateLine>, front: string)
    requires AllFound(front, ls)
    ensures ApplyAll(data, MarkersOf(ls), front) == Ok(ApplyLines(data, Reread(front, ls)))
  {
    if ls != [] {
      var n := |ls| - 1;
      AppliedLines(data, ls[..n], front);
      assert Reread(front, ls)[..n] == Reread(front, ls[..n]);
      if ls[n].Marked? {
        assert ReadBack(front, ls[n].marker).Ok?;
        ApplyAppended(data, MarkersOf(ls[..n]), ls[n].marker, front);
      } else {
        assert MarkersOf(ls[..n]) + [] == MarkersOf(ls[..n]);
      }
    }
  }

  /** Whatever a value quotes, some end marker follows the field's own start marker. */
  lemma OwnStartReads(ls: seq<TemplateLine>, k: nat)
    requires GoodLines(ls) && k < |ls| && ls[k].Marked? && !QuotedEarlier(ls, k)
    ensures ReadBack(Template(ls), ls[k].marker).Ok?
  {
    hide IndexFrom, OccursAt, Contains, Template, Lead, Trail, MarkerText;
    var m := ls[k].marker;
    var lead, trail := Lead(ls, k) + m.StartText(), Trail(ls, k);
    StartFoundExactly(ls, k);
    TemplateBehind(ls, k);
    OccursBetween(lead, ls[k].value, m.EndText(), trail);
    IndexFound(Template(ls), m.EndText(), |lead|, |lead| + |ls[k].value|);
  }

  lemma OccursBetween(a: string, b: string, p: string, c: string)
    ensures OccursAt(a + (b + (p + c)), p, |a| + |b|)
  {
    assert a + (b + (p + c)) == (a + b) + (p + c);
    assert (p + c)[..|p|] == p;
    OccursInRight(a + b, p + c, p, |a| + |b|);
  }

  lemma AllStartsRead(ls: seq<TemplateLine>)
    requires GoodLines(ls) && StartsUnquoted(ls)
    ensures AllFound(Template(ls), ls)
  {
    forall k | 0 <= k < |ls| && ls[k].Marked?
      ensures ReadBack(Template(ls), ls[k].marker).Ok?
    {
      OwnStartReads(ls, k);
    }
  }

  /** A field whose own start marker is the first reads back as its value, up to white space at the ends, exactly
      when the value does not quote the field's end marker. */
  lemma ReadsBackExactly(ls: seq<TemplateLine>, k: nat)
    requires GoodLines(ls) && k < |ls| && ls[k].Marked? && !QuotedEarlier(ls, k)
    ensures ReadBack(Template(ls), ls[k].marker).Ok?
    ensures TrimSpace(ReadBack(Template(ls), ls[k].marker).value) == TrimSpace(ls[k].value)
       <==> !Contains(ls[k].value, ls[k].marker.EndText())
    ensures !Contains(ls[k].value, ls[k].marker.EndText()) ==>
              ReadBack(Template(ls), ls[k].marker).value == ls[k].value
  {
    hide ExtractMarkerValue, Template, TrimSpace, MarkerText, Occurs;
    OwnStartReads(ls, k);
    if Contains(ls[k].value, ls[k].marker.EndText()) {
      var e := ls[k].marker.EndText();
      EndTextShape(ls[k].marker);
      ExtractedIsClean(Template(ls), ls[k].marker.StartText(), e);
      TrimKeepsOccurrences(ls[k].value, e);
      TrimKeepsOccurrences(ReadBack(Template(ls), ls[k].marker).value, e);
    } else {
      ReadableValue(ls, k);
    }
  }

  lemma EndTextShape(m: Marker)
    ensures var e := m.EndText(); e != "" && !IsSpace(e[0]) && !IsSpace(e[|e| - 1])
  {
    var e := m.EndText();
    assert e[0] == "[[[FM_"[0] == '[';
    assert e[|e| - 1] == ']';
  }

  // ---------------------------------------------------------------- the data that results

  /** The text in the field of a marker. */
  function FieldOf(data: FrontData, m: Marker): Option<string> {
    if m.field.ReadWhen? then
      if "read_when" in data && data["read_when"].List? && m.index < |data["read_when"].items|
        && data["read_when"].items[m.index].Text?
      then Some(data["read_when"].items[m.index].text) else None
    else if Key(m.field) in data && data[Key(m.field)].Text? then Some(data[Key(m.field)].text) else None
  }

  lemma {:induction false} PaddedKeeps(items: seq<Yaml>, n: nat)
    ensures Padded(items, n)[..|items|] == items
    decreases n - |items|
  {
    if |items| < n {
      PaddedKeeps(items + [Yaml.Text("")], n);
      assert items == Padded(items, n)[..|items| + 1][..|items|];
    }
  }

  predicate SameField(m: Marker, q: Marker) {
    m.field == q.field && (m.field.ReadWhen? ==> m.index == q.index)
  }

  lemma ApplyOneField(data: FrontData, m: Marker, v: string, q: Marker)
    ensures FieldOf(ApplyOne(data, m, v), m) == Some(v)
    ensures !SameField(m, q) && FieldOf(data, q).Some? ==> FieldOf(ApplyOne(data, m, v), q) == FieldOf(data, q)
  {
    if m.field.ReadWhen? && "read_when" in data && data["read_when"].List? {
      var items := data["read_when"].items;
      PaddedKeeps(items, m.index + 1);
      assert forall k :: 0 <= k < |items| ==> items[k] == Padded(items, m.index + 1)[..|items|][k];
    }
  }

  ghost predicate SeparateFields(ls: seq<TemplateLine>) {
    forall i, j :: 0 <= i < j < |ls| && ls[i].Marked? && ls[j].Marked? ==> !SameField(ls[i].marker, ls[j].marker)
  }

  /** Each field ends with the trimmed value of its line. */
  lemma {:induction false} LineField(data: FrontData, ls: seq<TemplateLine>, k: nat)
    requires SeparateFields(ls) && k < |ls| && ls[k].Marked?
    ensures FieldOf(ApplyLines(data, ls), ls[k].marker) == Some(TrimSpace(ls[k].value))
  {
    hide FieldOf, ApplyOne, TrimSpace;
    var n := |ls| - 1;
    var before := ApplyLines(data, ls[..n]);
    if k < n {
      LineField(data, ls[..n], k);
      assert ls[..n][k] == ls[k];
    }
    if ls[n].Marked? {
      ApplyOneField(before, ls[n].marker, TrimSpace(ls[n].value), ls[k].marker);
      assert k < n ==> !SameField(ls[k].marker, ls[n].marker);
    }
  }

  /** The data is as if every value came back trimmed exactly when no value quotes its own end marker. */
  lemma RereadExactly(data: FrontData, ls: seq<TemplateLine>)
    requires GoodLines(ls) && SeparateFields(ls) && StartsUnquoted(ls) && AllFound(Template(ls), ls)
    ensures ApplyLines(data, Reread(Template(ls), ls)) == ApplyLines(data, ls) <==> EndsUnquoted(ls)
  {
    hide ApplyLines, Template, ReadBack, QuotedEarlier, Contains, TrimSpace;
    var rs := Reread(Template(ls), ls);
    forall k | 0 <= k < |ls| && ls[k].Marked?
      ensures TrimSpace(rs[k].value) == TrimSpace(ls[k].value) <==> !Contains(ls[k].value, ls[k].marker.EndText())
      ensures !Contains(ls[k].value, ls[k].marker.EndText()) ==> rs[k] == ls[k]
      ensures FieldOf(ApplyLines(data, rs), ls[k].marker) == Some(TrimSpace(rs[k].value))
      ensures FieldOf(ApplyLines(data, ls), ls[k].marker) == Some(TrimSpace(ls[k].value))
    {
      ReadsBackExactly(ls, k);
      LineField(data, rs, k);
      LineField(data, ls, k);
    }
    if EndsUnquoted(ls) {
      assert rs == ls;
    }
  }

  lemma TemplateFieldsSeparate(data: FrontData, show: Yaml -> string)
    ensures SeparateFields(TemplateLines(data, show))
  {
    var ls := TemplateLines(data, show);
    forall i, j | 0 <= i < j < |ls| && ls[i].Marked? && ls[j].Marked?
      ensures !SameField(ls[i].marker, ls[j].marker)
    {
      LineInSlot(data, show, i);
      LineInSlot(data, show, j);
    }
  }

  /** A translator that returns its input unchanged, when no line of the template quotes a later field's start marker
      or the closing tag: a body that quotes its closing tag is refused; a document whose front matter has none of the
      three fields is refused, for its empty template counts as removed front matter; otherwise the body comes back as
      it was, and the fields come back trimmed exactly when no value quotes its own end marker. */
  lemma EchoedDocument(sourceFront: string, data: FrontData, body: string, show: Yaml -> string)
    requires var ls := TemplateLines(data, show); !Contains(Template(ls), FRONT_END) && StartsUnquoted(ls)
    ensures var ls := TemplateLines(data, show);
            var r := FinishDoc(sourceFront, data, MarkersOf(ls), FormatTagged(Template(ls), body));
            if Contains(body, BODY_END) then r == InvalidTags
            else if sourceFront != "" && ls == [] then r == FrontRemoved
            else r.Ok? && r.value.1 == body && (r.value.0 == Trimmed(data) <==> EndsUnquoted(ls))
  {
    hide Template, TemplateLines, Trimmed, ApplyLines, Contains, StartsUnquoted, EndsUnquoted, FormatTagged,
         ParseTagged, TrimSpace, GoodLines, SeparateFields, ApplyAll;
    var ls := TemplateLines(data, show);
    if Contains(body, BODY_END) {
      QuotedBody(Template(ls), body);
    } else {
      TaggedRoundTrip(Template(ls), body);
      TemplateNotBlank(data, show);
      TemplateLinesAreGood(data, show);
      TemplateFieldsSeparate(data, show);
      AllStartsRead(ls);
      AppliedLines(data, ls, Template(ls));
      RereadExactly(data, ls);
      ApplyTemplate(data, show);
    }
  }
}
