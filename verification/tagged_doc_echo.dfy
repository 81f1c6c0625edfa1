/** What an unchanged translation does to a document: which markers lead back to their own field, and what the
    document becomes. */
module TaggedDocEcho {
  import opened JsMaps
  import opened Texts
  import opened Decimal
  import opened Lines
  import opened FrontMatters
  import opened Searching
  import opened TaggedDocs
  import opened TaggedDocProperties

  function Content(l: TemplateLine): string {
    if l.Plain? then l.text else l.value
  }

  predicate Bracketless(s: string) {
    forall i :: 0 <= i < |s| ==> s[i] != '['
  }

  /** What `TemplateLines` builds: plain labels, and each marker used once. */
  ghost predicate GoodLines(ls: seq<TemplateLine>) {
    && (forall i :: 0 <= i < |ls| && ls[i].Marked? ==> Bracketless(ls[i].head))
    && (forall i, j :: 0 <= i < j < |ls| && ls[i].Marked? && ls[j].Marked? ==> ls[i].marker != ls[j].marker)
  }

  // ---------------------------------------------------------------- one line

  lemma BracketlessNoStart(a: string, rest: string, p: string)
    requires Bracketless(a) && IsMark(p)
    ensures NoStart(a, rest, p)
  {
    assert p[0] == '[' by { assert p[..6][0] == '['; }
    forall j: nat | j < |a| ensures !OccursAt(a + rest, p, j) {
      OccursChar(a + rest, p, j, 0);
    }
  }

  lemma MarkIsSeam(p: string, rest: string)
    requires IsMark(p)
    ensures Seam(p + rest)
  {
    assert (p + rest)[..3] == p[..6][..3];
  }

  lemma MarkerNoStart(m: Marker, q: Marker, side: Side, rest: string)
    requires q != m || side.End?
    ensures NoStart(MarkerText(q.field, q.index, side), rest, m.StartText())
  {
    MarkerShape(m.field, m.index, Start);
    MarkerShape(q.field, q.index, side);
    var k := MarkersDiffer(m.field, m.index, Start, q.field, q.index, side);
    OtherMarkNoStart(m.StartText(), MarkerText(q.field, q.index, side), rest, k);
  }

  /** A line that neither quotes nor owns the start marker of `m` holds no occurrence of it. */
  lemma LineNoStart(l: TemplateLine, rest: string, m: Marker)
    requires l.Marked? ==> Bracketless(l.head) && l.marker != m
    requires !Contains(Content(l), m.StartText()) && Seam(rest)
    ensures NoStart(LineText(l), rest, m.StartText())
  {
    var p := m.StartText();
    MarkerShape(m.field, m.index, Start);
    match l
    case Plain(text) => PlainNoStart(text, rest, p);
    case Marked(head, q, value) =>
      var s, e := q.StartText(), q.EndText();
      MarkerShape(q.field, q.index, End);
      MarkIsSeam(e, rest);
      MarkerNoStart(m, q, End, rest);
      PlainNoStart(value, e + rest, p);
      NoStartConcat(value, e, rest, p);
      MarkerNoStart(m, q, Start, value + e + rest);
      NoStartConcat(s, value + e, rest, p);
      BracketlessNoStart(head, s + (value + e) + rest, p);
      NoStartConcat(head, s + (value + e), rest, p);
  }

  // ---------------------------------------------------------------- the lines before a marker

  function Prefix(ls: seq<TemplateLine>, n: nat): string
    requires n <= |ls|
  {
    Join(LineTexts(ls[..n]))
  }

  lemma PrefixStep(ls: seq<TemplateLine>, n: nat)
    requires 0 < n <= |ls|
    ensures Prefix(ls, n) == if n == 1 then LineText(ls[0]) else Prefix(ls, n - 1) + "\n" + LineText(ls[n - 1])
  {
    var last := [LineText(ls[n - 1])];
    assert ls[..n][..n - 1] == ls[..n - 1];
    assert LineTexts(ls[..n]) == LineTexts(ls[..n - 1]) + last;
    if n == 1 {
      assert LineTexts(ls[..0]) == [];
    } else {
      JoinConcat(LineTexts(ls[..n - 1]), last);
    }
  }

  lemma {:induction false} PrefixNoStart(ls: seq<TemplateLine>, n: nat, rest: string, m: Marker)
    requires GoodLines(ls) && n <= |ls| && Seam(rest)
    requires forall i :: 0 <= i < n ==> !Contains(Content(ls[i]), m.StartText())
    requires forall i :: 0 <= i < n && ls[i].Marked? ==> ls[i].marker != m
    ensures NoStart(Prefix(ls, n), rest, m.StartText())
  {
    if n == 0 {
      assert ls[..0] == [] && Prefix(ls, 0) == "";
    } else {
      PrefixStep(ls, n);
      LineNoStart(ls[n - 1], rest, m);
      if n > 1 {
        var text := LineText(ls[n - 1]);
        PrefixNoStart(ls, n - 1, "\n" + text + rest, m);
        MarkerShape(m.field, m.index, Start);
        NewlineBefore(Prefix(ls, n - 1), text, rest, m.StartText());
      }
    }
  }

  lemma NewlineBefore(a: string, b: string, rest: string, p: string)
    requires IsMark(p) && NoStart(a, "\n" + b + rest, p) && NoStart(b, rest, p)
    ensures NoStart(a + "\n" + b, rest, p)
  {
    assert Bracketless("\n");
    BracketlessNoStart("\n", b + rest, p);
    NoStartConcat("\n", b, rest, p);
    NoStartConcat(a, "\n" + b, rest, p);
    assert a + "\n" + b == a + ("\n" + b);
  }

  lemma ContainsInner(a: string, x: string, b: string, p: string)
    requires Contains(x, p)
    ensures Contains(a + (x + b), p)
  {
    FoundWithin(a, x, b, p);
  }

  /** A quoted marker is also quoted by all the lines up to the quoting one. */
  lemma {:induction false} PrefixQuotes(ls: seq<TemplateLine>, n: nat, i: nat, p: string)
    requires i < n <= |ls| && Contains(Content(ls[i]), p)
    ensures Contains(Prefix(ls, n), p)
  {
    hide Contains, OccursAt, IndexFrom, LineText, Content;
    PrefixStep(ls, n);
    if i < n - 1 {
      PrefixQuotes(ls, n - 1, i, p);
      var rest := "\n" + LineText(ls[n - 1]);
      ContainsInner("", Prefix(ls, n - 1), rest, p);
      assert "" + (Prefix(ls, n - 1) + rest) == Prefix(ls, n - 1) + "\n" + LineText(ls[n - 1]);
    } else {
      LineQuotes(ls[i], p);
      if n > 1 {
        ContainsInner(Prefix(ls, n - 1) + "\n", LineText(ls[i]), "", p);
        assert LineText(ls[i]) + "" == LineText(ls[i]);
      }
    }
  }

  lemma LineQuotes(l: TemplateLine, p: string)
    requires Contains(Content(l), p)
    ensures Contains(LineText(l), p)
  {
    hide Contains, OccursAt, IndexFrom, MarkerText;
    if l.Marked? {
      var s := l.marker.StartText();
      ContainsInner(l.head + s, l.value, l.marker.EndText(), p);
      assert (l.head + s) + (l.value + l.marker.EndText()) == LineText(l);
    }
  }

  // ---------------------------------------------------------------- a field and its markers

  function Template(ls: seq<TemplateLine>): string {
    Join(LineTexts(ls))
  }

  function Lead(ls: seq<TemplateLine>, k: nat): string
    requires k < |ls| && ls[k].Marked?
  {
    if k == 0 then ls[k].head else Prefix(ls, k) + "\n" + ls[k].head
  }

  function Trail(ls: seq<TemplateLine>, k: nat): string
    requires k < |ls|
  {
    if k == |ls| - 1 then "" else "\n" + Join(LineTexts(ls[k + 1..]))
  }

  lemma TemplateAround(ls: seq<TemplateLine>, k: nat)
    requires k < |ls| && ls[k].Marked?
    ensures var l := ls[k];
            Template(ls) == Lead(ls, k) + (l.marker.StartText() + (l.value + (l.marker.EndText() + Trail(ls, k))))
  {
    var l := ls[k];
    TemplateFrom(ls, k + 1);
    LeadLine(ls, k);
    Regroup(Lead(ls, k), l.marker.StartText(), l.value, l.marker.EndText(), Trail(ls, k));
  }

  lemma LeadLine(ls: seq<TemplateLine>, k: nat)
    requires k < |ls| && ls[k].Marked?
    ensures var l := ls[k];
            Prefix(ls, k + 1) == Lead(ls, k) + (l.marker.StartText() + (l.value + l.marker.EndText()))
  {
    PrefixStep(ls, k + 1);
    if k > 0 {
      ConcatAssociates(Prefix(ls, k) + "\n", ls[k].head,
                ls[k].marker.StartText() + (ls[k].value + ls[k].marker.EndText()));
    }
  }

  lemma Regroup(a: string, b: string, c: string, d: string, e: string)
    ensures (a + (b + (c + d))) + e == a + (b + (c + (d + e)))
  {
  }

  lemma TemplateFrom(ls: seq<TemplateLine>, n: nat)
    requires 0 < n <= |ls|
    ensures Template(ls) == Prefix(ls, n) + Trail(ls, n - 1)
  {
    assert ls == ls[..n] + ls[n..];
    LinesConcat(ls[..n], ls[n..]);
    if n < |ls| {
      JoinConcat(LineTexts(ls[..n]), LineTexts(ls[n..]));
    } else {
      assert ls[..n] == ls;
    }
  }

  predicate QuotedEarlier(ls: seq<TemplateLine>, k: nat)
    requires k < |ls| && ls[k].Marked?
  {
    exists i :: 0 <= i < k && Contains(Content(ls[i]), ls[k].marker.StartText())
  }

  predicate Readable(ls: seq<TemplateLine>, k: nat)
    requires k < |ls| && ls[k].Marked?
  {
    !QuotedEarlier(ls, k) && !Contains(ls[k].value, ls[k].marker.EndText())
  }

  lemma StartFoundExactly(ls: seq<TemplateLine>, k: nat)
    requires GoodLines(ls) && k < |ls| && ls[k].Marked?
    ensures IndexFrom(Template(ls), ls[k].marker.StartText(), 0) == |Lead(ls, k)| <==> !QuotedEarlier(ls, k)
  {
    hide IndexFrom, OccursAt, Template, Lead, MarkerText, Contains, NoneIn;
    var m := ls[k].marker;
    var behind := ls[k].value + (m.EndText() + Trail(ls, k));
    TemplateAround(ls, k);
    if QuotedEarlier(ls, k) {
      FoundEarlier(ls, k, m.StartText() + behind);
    } else {
      LeadNoStart(ls, k, behind);
      FoundAfter(Lead(ls, k), m.StartText(), behind);
    }
  }

  lemma FoundEarlier(ls: seq<TemplateLine>, k: nat, behind: string)
    requires k < |ls| && ls[k].Marked? && QuotedEarlier(ls, k)
    ensures IndexFrom(Lead(ls, k) + behind, ls[k].marker.StartText(), 0) < |Lead(ls, k)|
  {
    hide IndexFrom, OccursAt, MarkerText, Contains, Join;
    var p := ls[k].marker.StartText();
    var i :| 0 <= i < k && Contains(Content(ls[i]), p);
    PrefixQuotes(ls, k, i, p);
    FoundInFront(Prefix(ls, k), "\n" + ls[k].head + behind, p);
    ConcatAssociates(Prefix(ls, k) + "\n", ls[k].head, behind);
    ConcatAssociates(Prefix(ls, k), "\n", ls[k].head + behind);
    ConcatAssociates("\n", ls[k].head, behind);
  }

  lemma LeadNoStart(ls: seq<TemplateLine>, k: nat, behind: string)
    requires GoodLines(ls) && k < |ls| && ls[k].Marked? && !QuotedEarlier(ls, k)
    ensures NoStart(Lead(ls, k), ls[k].marker.StartText() + behind, ls[k].marker.StartText())
  {
    var m := ls[k].marker;
    var p := m.StartText();
    MarkerShape(m.field, m.index, Start);
    BracketlessNoStart(ls[k].head, p + behind, p);
    if k > 0 {
      PrefixNoStart(ls, k, "\n" + ls[k].head + (p + behind), m);
      NewlineBefore(Prefix(ls, k), ls[k].head, p + behind, p);
    }
  }

  lemma EndFoundExactly(lead: string, value: string, trail: string, m: Marker)
    ensures IndexFrom(lead + (value + (m.EndText() + trail)), m.EndText(), |lead|) == |lead| + |value|
       <==> !Contains(value, m.EndText())
  {
    var e := m.EndText();
    var t := value + (e + trail);
    MarkerShape(m.field, m.index, End);
    if Contains(value, e) {
      FoundInFront(value, e + trail, e);
    } else {
      MarkIsSeam(e, trail);
      PlainNoStart(value, e + trail, e);
      FoundAfter(value, e, trail);
    }
    FindShifted(lead, t, e);
  }

  lemma TemplateBehind(ls: seq<TemplateLine>, k: nat)
    requires k < |ls| && ls[k].Marked?
    ensures var lead := Lead(ls, k) + ls[k].marker.StartText();
            Template(ls) == lead + (ls[k].value + (ls[k].marker.EndText() + Trail(ls, k)))
  {
    TemplateAround(ls, k);
    ConcatAssociates(Lead(ls, k), ls[k].marker.StartText(), ls[k].value + (ls[k].marker.EndText() + Trail(ls, k)));
  }

  predicate StartAtOwnMarker(ls: seq<TemplateLine>, k: nat)
    requires k < |ls| && ls[k].Marked?
  {
    IndexFrom(Template(ls), ls[k].marker.StartText(), 0) == |Lead(ls, k)|
  }

  function ValueAt(ls: seq<TemplateLine>, k: nat): nat
    requires k < |ls| && ls[k].Marked?
  {
    |Lead(ls, k)| + |ls[k].marker.StartText()|
  }

  predicate EndAtOwnMarker(ls: seq<TemplateLine>, k: nat)
    requires k < |ls| && ls[k].Marked?
  {
    && ValueAt(ls, k) <= |Template(ls)|
    && IndexFrom(Template(ls), ls[k].marker.EndText(), ValueAt(ls, k)) == ValueAt(ls, k) + |ls[k].value|
  }

  lemma OwnEndExactly(ls: seq<TemplateLine>, k: nat)
    requires k < |ls| && ls[k].Marked?
    ensures EndAtOwnMarker(ls, k) <==> !Contains(ls[k].value, ls[k].marker.EndText())
  {
    hide IndexFrom, OccursAt, Contains, Template, Lead, Trail, MarkerText;
    TemplateBehind(ls, k);
    EndFoundExactly(Lead(ls, k) + ls[k].marker.StartText(), ls[k].value, Trail(ls, k), ls[k].marker);
  }

  /** In an unchanged template a field is found between its own two markers exactly when no earlier line quotes its
      start marker and its value does not quote its end marker. */
  lemma MarkersFoundExactly(ls: seq<TemplateLine>, k: nat)
    requires GoodLines(ls) && k < |ls| && ls[k].Marked?
    ensures StartAtOwnMarker(ls, k) && EndAtOwnMarker(ls, k) <==> Readable(ls, k)
  {
    StartFoundExactly(ls, k);
    OwnEndExactly(ls, k);
  }

  lemma ReadableValue(ls: seq<TemplateLine>, k: nat)
    requires GoodLines(ls) && k < |ls| && ls[k].Marked? && Readable(ls, k)
    ensures ExtractMarkerValue(Template(ls), ls[k].marker.StartText(), ls[k].marker.EndText()) == Ok(ls[k].value)
  {
    hide IndexFrom, OccursAt, Template, Lead, MarkerText, Contains;
    MarkersFoundExactly(ls, k);
    TemplateValue(ls, k);
    OwnValue(ls, k);
  }

  lemma OwnValue(ls: seq<TemplateLine>, k: nat)
    requires k < |ls| && ls[k].Marked? && StartAtOwnMarker(ls, k) && EndAtOwnMarker(ls, k) && ValueInPlace(ls, k)
    ensures ExtractMarkerValue(Template(ls), ls[k].marker.StartText(), ls[k].marker.EndText()) == Ok(ls[k].value)
  {
    hide IndexFrom, OccursAt, Template, Lead, MarkerText;
    ExtractAt(Template(ls), ls[k].marker.StartText(), ls[k].marker.EndText(), |Lead(ls, k)|, ls[k].value);
  }

  predicate ValueInPlace(ls: seq<TemplateLine>, k: nat)
    requires k < |ls| && ls[k].Marked?
  {
    var at := ValueAt(ls, k);
    at + |ls[k].value| <= |Template(ls)| && Template(ls)[at..at + |ls[k].value|] == ls[k].value
  }

  lemma ExtractAt(t: string, s: string, e: string, at: nat, x: string)
    requires at + |s| + |x| <= |t| && t[at + |s|..at + |s| + |x|] == x
    requires IndexFrom(t, s, 0) == at && IndexFrom(t, e, at + |s|) == at + |s| + |x|
    ensures ExtractMarkerValue(t, s, e) == Ok(x)
  {
  }

  lemma TemplateValue(ls: seq<TemplateLine>, k: nat)
    requires k < |ls| && ls[k].Marked?
    ensures ValueInPlace(ls, k)
  {
    TemplateBehind(ls, k);
    Middle(Template(ls), Lead(ls, k) + ls[k].marker.StartText(), ls[k].value, ls[k].marker.EndText() + Trail(ls, k));
  }

  lemma Middle(t: string, a: string, x: string, b: string)
    requires t == a + (x + b)
    ensures |a| + |x| <= |t| && t[|a|..|a| + |x|] == x
  {
  }

  // ---------------------------------------------------------------- the whole document

  /** Which marker the i-th line would carry. */
  function Slot(summaries: nat, titles: nat, i: nat): Marker {
    if i < summaries then Marker(Summary, 0)
    else if i < summaries + titles then Marker(Title, 0)
    else Marker(ReadWhen, if i <= summaries + titles then 0 else i - summaries - titles - 1)
  }

  predicate SlotLine(l: TemplateLine, m: Marker) {
    l.Marked? ==> l.marker == m && Bracketless(l.head)
  }

  lemma FieldLineSlot(data: FrontData, f: Field)
    ensures |FieldLine(data, f)| <= 1
    ensures FieldLine(data, f) != [] ==> SlotLine(FieldLine(data, f)[0], Marker(f, 0))
  {
  }

  lemma ReadWhenSlot(data: FrontData, show: Yaml -> string, j: nat)
    requires j < |ReadWhenLines(data, show)|
    ensures var l := ReadWhenLines(data, show)[j];
            if j == 0 then l.Plain? else SlotLine(l, Marker(ReadWhen, j - 1))
  {
    if j > 0 {
      assert ReadWhenLines(data, show)[j] == ItemLines(data["read_when"].items, show)[j - 1];
    }
  }

  lemma LineInSlot(data: FrontData, show: Yaml -> string, i: nat)
    requires i < |TemplateLines(data, show)|
    ensures var a, b := |FieldLine(data, Summary)|, |FieldLine(data, Title)|;
            && SlotLine(TemplateLines(data, show)[i], Slot(a, b, i)) && a <= 1 && b <= 1
            && (i == a + b ==> TemplateLines(data, show)[i].Plain?)
  {
    hide FieldLine, ReadWhenLines, SlotLine;
    var a, b := FieldLine(data, Summary), FieldLine(data, Title);
    FieldLineSlot(data, Summary);
    FieldLineSlot(data, Title);
    if i >= |a| + |b| {
      ReadWhenSlot(data, show, i - |a| - |b|);
      PlainSlot(TemplateLines(data, show)[i], Slot(|a|, |b|, i));
    }
  }

  lemma PlainSlot(l: TemplateLine, m: Marker)
    ensures l.Plain? ==> SlotLine(l, m)
  {
  }

  lemma TemplateLinesAreGood(data: FrontData, show: Yaml -> string)
    ensures GoodLines(TemplateLines(data, show))
  {
    var ls := TemplateLines(data, show);
    forall i | 0 <= i < |ls| && ls[i].Marked? ensures Bracketless(ls[i].head) {
      LineInSlot(data, show, i);
    }
    forall i, j | 0 <= i < j < |ls| && ls[i].Marked? && ls[j].Marked? ensures ls[i].marker != ls[j].marker {
      LineInSlot(data, show, i);
      LineInSlot(data, show, j);
    }
  }

  function TrimText(data: FrontData, key: string): FrontData {
    if key in data && data[key].Text? then data[key := Yaml.Text(TrimSpace(data[key].text))] else data
  }

  function TrimItem(item: Yaml): Yaml {
    if item.Text? then Yaml.Text(TrimSpace(item.text)) else item
  }

  /** The first `n` items trimmed. */
  function TrimItems(items: seq<Yaml>, n: nat): seq<Yaml> {
    seq(|items|, i requires 0 <= i < |items| => if i < n then TrimItem(items[i]) else items[i])
  }

  function TrimList(data: FrontData, n: nat): FrontData {
    if "read_when" in data && data["read_when"].List? then
      data["read_when" := List(TrimItems(data["read_when"].items, n))]
    else data
  }

  /** The translatable fields trimmed, all else as it was. */
  function Trimmed(data: FrontData): FrontData {
    var d := TrimText(TrimText(data, "summary"), "title");
    if "read_when" in d && d["read_when"].List? then TrimList(d, |d["read_when"].items|) else d
  }

  function ApplyLines(data: FrontData, ls: seq<TemplateLine>): FrontData {
    if ls == [] then data
    else
      var before, last := ApplyLines(data, ls[..|ls| - 1]), ls[|ls| - 1];
      if last.Marked? then ApplyOne(before, last.marker, TrimSpace(last.value)) else before
  }

  lemma {:induction false} ApplyAppended(data: FrontData, ms: seq<Marker>, m: Marker, front: string)
    ensures ApplyAll(data, ms, front).Ok? && ExtractMarkerValue(front, m.StartText(), m.EndText()).Ok? ==>
              ApplyAll(data, ms + [m], front)
              == Ok(ApplyOne(ApplyAll(data, ms, front).value, m,
                             TrimSpace(ExtractMarkerValue(front, m.StartText(), m.EndText()).value)))
    decreases |ms|
  {
    if ms == [] {
      assert [] + [m] == [m] && [m][1..] == [];
    } else {
      assert (ms + [m])[1..] == ms[1..] + [m];
      var first := ExtractMarkerValue(front, ms[0].StartText(), ms[0].EndText());
      if first.Ok? {
        ApplyAppended(ApplyOne(data, ms[0], TrimSpace(first.value)), ms[1..], m, front);
      }
    }
  }

  lemma {:induction false} ApplyConcat(data: FrontData, a: seq<TemplateLine>, b: seq<TemplateLine>)
    ensures ApplyLines(data, a + b) == ApplyLines(ApplyLines(data, a), b)
  {
    if b == [] {
      assert a + b == a;
    } else {
      ApplyConcat(data, a, b[..|b| - 1]);
      assert (a + b)[..|a + b| - 1] == a + b[..|b| - 1];
    }
  }

  lemma ApplyField(data: FrontData, f: Field)
    requires !f.ReadWhen?
    ensures ApplyLines(data, FieldLine(data, f)) == TrimText(data, Key(f))
  {
    var ls := FieldLine(data, f);
    if ls != [] {
      assert ls[..0] == [];
    }
  }

  lemma {:induction false} ApplyItems(data: FrontData, items: seq<Yaml>, n: nat, show: Yaml -> string)
    requires "read_when" in data && data["read_when"] == List(items) && n <= |items|
    ensures ApplyLines(data, ItemLines(items[..n], show)) == TrimList(data, n)
  {
    hide TrimList;
    var ls := ItemLines(items[..n], show);
    if n == 0 {
      TrimNone(data, items);
    } else {
      ApplyItems(data, items, n - 1, show);
      assert items[..n][..n - 1] == items[..n - 1];
      assert ls[..|ls| - 1] == ItemLines(items[..n - 1], show);
      TrimNext(data, items, n);
    }
  }

  lemma TrimNone(data: FrontData, items: seq<Yaml>)
    requires "read_when" in data && data["read_when"] == List(items)
    ensures TrimList(data, 0) == data
  {
    assert TrimItems(items, 0) == items;
  }

  lemma TrimNext(data: FrontData, items: seq<Yaml>, n: nat)
    requires "read_when" in data && data["read_when"] == List(items) && 0 < n <= |items|
    ensures var d := TrimList(data, n - 1);
            TrimList(data, n)
            == if items[n - 1].Text? then ApplyOne(d, Marker(ReadWhen, n - 1), TrimSpace(items[n - 1].text)) else d
  {
    assert TrimItems(items, n) == TrimItems(items, n - 1)[n - 1 := TrimItem(items[n - 1])];
    assert !items[n - 1].Text? ==> TrimItems(items, n) == TrimItems(items, n - 1);
  }

  lemma ApplyReadWhen(data: FrontData, show: Yaml -> string)
    requires "read_when" in data && data["read_when"].List?
    ensures ApplyLines(data, ReadWhenLines(data, show)) == TrimList(data, |data["read_when"].items|)
  {
    var items := data["read_when"].items;
    var head := [Plain("read_when:")];
    assert items[..|items|] == items;
    ApplyItems(data, items, |items|, show);
    ApplyConcat(data, head, ItemLines(items, show));
    assert head[..0] == [];
  }

  lemma ApplyTemplate(data: FrontData, show: Yaml -> string)
    ensures ApplyLines(data, TemplateLines(data, show)) == Trimmed(data)
  {
    var a, b, c := FieldLine(data, Summary), FieldLine(data, Title), ReadWhenLines(data, show);
    ApplyConcat(data, a + b, c);
    ApplyConcat(data, a, b);
    ApplyField(data, Summary);
    var d1 := TrimText(data, "summary");
    assert FieldLine(d1, Title) == b;
    ApplyField(d1, Title);
    var d2 := TrimText(d1, "title");
    assert ReadWhenLines(d2, show) == c;
    if "read_when" in d2 && d2["read_when"].List? {
      ApplyReadWhen(d2, show);
    }
  }

  lemma {:induction false} TrimRightKeeps(s: string)
    requires s != "" && !IsSpace(s[0])
    ensures TrimRight(s) != ""
  {
    if IsSpace(s[|s| - 1]) {
      TrimRightKeeps(s[..|s| - 1]);
    }
  }

  /** A template with a line is never blank: its first line starts with a field's name. */
  lemma TemplateNotBlank(data: FrontData, show: Yaml -> string)
    ensures TrimSpace(Template(TemplateLines(data, show))) == "" <==> TemplateLines(data, show) == []
  {
    var ls := TemplateLines(data, show);
    if ls != [] {
      assert LineText(ls[0]) != "" && !IsSpace(LineText(ls[0])[0]);
      TemplateFrom(ls, 1);
      PrefixStep(ls, 1);
      assert Template(ls)[0] == LineText(ls[0])[0];
      TrimRightKeeps(Template(ls));
    }
  }
}
