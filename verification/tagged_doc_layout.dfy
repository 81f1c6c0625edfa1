/** Which texts are tagged documents, told by where the tags stand. */
module TaggedDocLayouts {
  import opened JsMaps
  import opened Texts
  import opened Decimal
  import opened FrontMatters
  import opened TaggedDocs

  predicate AllSpace(text: string, lo: nat, hi: nat)
    requires hi <= |text|
  {
    forall i :: lo <= i < hi ==> IsSpace(text[i])
  }

  /** The tags stand at a, b, c and d, each the first of its kind behind the tag before it, and outside them there is
      only white space. */
  ghost predicate Layout(text: string, a: nat, b: nat, c: nat, d: nat) {
    && OccursAt(text, FRONT_START, a) && AllSpace(text, 0, a)
    && a + |FRONT_START| <= b && OccursAt(text, FRONT_END, b) && NoneIn(text, FRONT_END, a + |FRONT_START|, b)
    && b <= c && OccursAt(text, BODY_START, c) && NoneIn(text, BODY_START, b, c)
    && c + |BODY_START| <= d && OccursAt(text, BODY_END, d) && NoneIn(text, BODY_END, c + |BODY_START|, d)
    && AllSpace(text, d + |BODY_END|, |text|)
  }

  ghost predicate LaidOut(text: string, front: string, body: string) {
    exists a: nat, b: nat, c: nat, d: nat :: Layout(text, a, b, c, d) && HasSections(text, a, b, c, d, front, body)
  }

  predicate HasSections(text: string, a: nat, b: nat, c: nat, d: nat, front: string, body: string) {
    && a + |FRONT_START| <= b <= |text| && c + |BODY_START| <= d <= |text|
    && front == TrimTagNewlines(text[a + |FRONT_START|..b]) && body == TrimTagNewlines(text[c + |BODY_START|..d])
  }

  lemma SpaceBefore(text: string, n: nat)
    requires n <= |text|
    ensures TrimSpace(text[..n]) == "" <==> AllSpace(text, 0, n)
    ensures TrimSpace(text[n..]) == "" <==> AllSpace(text, n, |text|)
  {
    TrimsToNothing(text[..n]);
    TrimsToNothing(text[n..]);
    assert forall i :: 0 <= i < n ==> text[..n][i] == text[i];
    assert forall i :: n <= i < |text| ==> text[n..][i - n] == text[i];
  }

  /** The first tag of a tagged document is the first occurrence of it, for white space holds no tag. */
  lemma SpaceHoldsNoTag(text: string, n: nat)
    requires n <= |text| && AllSpace(text, 0, n)
    ensures NoneIn(text, FRONT_START, 0, n)
  {
    forall j: nat | j < n
      ensures !OccursAt(text, FRONT_START, j)
    {
      TagBegins(text, j);
    }
  }

  lemma TagBegins(text: string, j: nat)
    ensures OccursAt(text, FRONT_START, j) ==> j < |text| && text[j] == '<'
  {
    if OccursAt(text, FRONT_START, j) {
      assert text[j..j + |FRONT_START|][0] == '<';
    }
  }

  lemma ReadIsLaidOut(text: string)
    ensures ParseTagged(text).Sections? ==> LaidOut(text, ParseTagged(text).front, ParseTagged(text).body)
  {
    hide IndexFrom, TrimSpace, TrimTagNewlines, NoneIn, AllSpace;
    if ParseTagged(text).Sections? {
      var a := IndexFrom(text, FRONT_START, 0);
      var b := IndexFrom(text, FRONT_END, a + |FRONT_START|);
      var c := IndexFrom(text, BODY_START, b);
      var d := IndexFrom(text, BODY_END, c + |BODY_START|);
      IndexIsFirst(text, FRONT_END, a + |FRONT_START|);
      IndexIsFirst(text, BODY_START, b);
      IndexIsFirst(text, BODY_END, c + |BODY_START|);
      SpaceBefore(text, a);
      SpaceBefore(text, d + |BODY_END|);
      assert Layout(text, a, b, c, d);
      assert HasSections(text, a, b, c, d, ParseTagged(text).front, ParseTagged(text).body);
    }
  }

  lemma LaidOutIsRead(text: string, a: nat, b: nat, c: nat, d: nat, front: string, body: string)
    requires Layout(text, a, b, c, d) && HasSections(text, a, b, c, d, front, body)
    ensures ParseTagged(text) == Sections(front, body)
  {
    hide IndexFrom, TrimSpace, TrimTagNewlines, AllSpace, NoneIn;
    SpaceHoldsNoTag(text, a);
    IndexIs(text, FRONT_START, 0, a);
    IndexIs(text, FRONT_END, a + |FRONT_START|, b);
    IndexIs(text, BODY_START, b, c);
    IndexIs(text, BODY_END, c + |BODY_START|, d);
    SpaceBefore(text, a);
    SpaceBefore(text, d + |BODY_END|);
  }

  /** A text is read exactly if its tags are laid out so, and then with the sections between them; so a text with
      anything visible in front of the first tag or behind the last one is refused. */
  lemma ParsedExactly(text: string, front: string, body: string)
    ensures ParseTagged(text) == Sections(front, body) <==> LaidOut(text, front, body)
  {
    hide ParseTagged, Layout, HasSections;
    ReadIsLaidOut(text);
    forall a: nat, b: nat, c: nat, d: nat | Layout(text, a, b, c, d) && HasSections(text, a, b, c, d, front, body)
      ensures ParseTagged(text) == Sections(front, body)
    {
      LaidOutIsRead(text, a, b, c, d, front, body);
    }
  }

  /** One newline on either side of a section is not part of it, further ones are. */
  lemma NewlinesTrimmed(s: string)
    requires s == "" || (s[0] != '\n' && s[|s| - 1] != '\n')
    ensures TrimTagNewlines(s) == s
  {
  }

  // ---------------------------------------------------------------- the template, line by line

  function Wrapped(tag: string, index: nat, value: string): string {
    Spelled(tag, index, "START") + value + Spelled(tag, index, "END")
  }

  /** A marker like `[[[FM_TITLE_0_START]]]`. */
  function Spelled(tag: string, index: nat, side: string): string {
    "[[[FM_" + tag + "_" + Digits(index) + "_" + side + "]]]"
  }

  lemma WrappedIs(head: string, m: Marker, tag: string, value: string)
    requires tag == match m.field case Summary => "SUMMARY" case Title => "TITLE" case ReadWhen => "READ_WHEN"
    ensures LineText(Marked(head, m, value)) == head + Wrapped(tag, m.index, value)
  {
    hide Digits, MarkerText, Spelled;
    MarkerIs(m.field, m.index, Side.Start, tag, "START");
    MarkerIs(m.field, m.index, Side.End, tag, "END");
    ConcatAssociates(m.StartText(), value, m.EndText());
  }

  lemma MarkerIs(f: Field, index: nat, side: Side, tag: string, name: string)
    requires tag == match f case Summary => "SUMMARY" case Title => "TITLE" case ReadWhen => "READ_WHEN"
    requires name == if side.Start? then "START" else "END"
    ensures MarkerText(f, index, side) == Spelled(tag, index, name)
  {
  }

  lemma {:induction false} LineTextAt(ls: seq<TemplateLine>, k: nat)
    requires k < |ls|
    ensures LineTexts(ls)[k] == LineText(ls[k])
  {
    if k < |ls| - 1 {
      LineTextAt(ls[..|ls| - 1], k);
    }
  }

  function TextIn(data: FrontData, key: string): Option<string> {
    if key in data && data[key].Text? then Some(data[key].text) else None
  }

  /** The template has a line for the summary, one for the title and the list of the reading hints, in this order and
      as far as they are there; every text stands between the two markers of its field and place, anything else in the
      list is shown as it is. */
  lemma TemplateExactly(data: FrontData, show: Yaml -> string)
    ensures var summary, title := TextIn(data, "summary"), TextIn(data, "title");
            LineTexts(TemplateLines(data, show))
            == (if summary.Some? then ["summary: " + Wrapped("SUMMARY", 0, summary.value)] else [])
               + (if title.Some? then ["title: " + Wrapped("TITLE", 0, title.value)] else [])
               + (if "read_when" in data && data["read_when"].List?
                  then ["read_when:"] + Hints(data["read_when"].items, show) else [])
  {
    hide Wrapped, LineText, LineTexts, Hints, ItemLines;
    var a, b, c := FieldLine(data, Summary), FieldLine(data, Title), ReadWhenLines(data, show);
    LinesConcat(a, b);
    LinesConcat(a + b, c);
    FieldLineIs(data, Summary, "SUMMARY");
    FieldLineIs(data, Title, "TITLE");
    NoLines();
    if "read_when" in data && data["read_when"].List? {
      HintLines(data["read_when"].items, show);
      assert c == [Plain("read_when:")] + ItemLines(data["read_when"].items, show);
      assert LineTexts(c) == ["read_when:"] + Hints(data["read_when"].items, show);
    }
    assert Key(Summary) + ": " == "summary: " && Key(Title) + ": " == "title: ";
  }

  function Hints(items: seq<Yaml>, show: Yaml -> string): seq<string> {
    seq(|items|, i requires 0 <= i < |items| => HintLine(items[i], i, show))
  }

  lemma HintLines(items: seq<Yaml>, show: Yaml -> string)
    ensures LineTexts([Plain("read_when:")] + ItemLines(items, show)) == ["read_when:"] + Hints(items, show)
  {
    hide LineText, LineTexts, HintLine, ItemLines, ItemLine;
    var ls := [Plain("read_when:")] + ItemLines(items, show);
    LineTextAt(ls, 0);
    PlainLine("read_when:");
    forall i | 0 <= i < |items|
      ensures LineTexts(ls)[i + 1] == HintLine(items[i], i, show)
    {
      LineTextAt(ls, i + 1);
      HintIs(items[i], i, show);
    }
  }

  function HintLine(item: Yaml, index: nat, show: Yaml -> string): string {
    "  - " + if item.Text? then Wrapped("READ_WHEN", index, item.text) else show(item)
  }

  lemma HintIs(item: Yaml, index: nat, show: Yaml -> string)
    ensures LineText(ItemLine(item, index, show)) == HintLine(item, index, show)
  {
    if item.Text? {
      WrappedIs("  - ", Marker(ReadWhen, index), "READ_WHEN", item.text);
    }
  }

  lemma PlainLine(text: string)
    ensures LineText(Plain(text)) == text
  {
  }

  lemma FieldLineIs(data: FrontData, f: Field, tag: string)
    requires !f.ReadWhen? && tag == if f.Summary? then "SUMMARY" else "TITLE"
    ensures LineTexts(FieldLine(data, f))
         == if TextIn(data, Key(f)).Some? then [Key(f) + ": " + Wrapped(tag, 0, TextIn(data, Key(f)).value)] else []
  {
    hide Wrapped;
    FieldLineParts(data, f);
    if TextIn(data, Key(f)).Some? {
      WrappedIs(Key(f) + ": ", Marker(f, 0), tag, data[Key(f)].text);
    }
  }
}
