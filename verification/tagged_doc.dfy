/** Documents handed to the translator as one tagged text, scripts/docs-i18n/doc_mode.go: the two sections are printed
    and parsed, and each translatable front-matter field travels between its own pair of markers. */
module TaggedDocs {
  import opened JsMaps
  import opened Texts
  import opened Decimal
  import opened Lines
  import opened FrontMatters

  const FRONT_START := "<frontmatter>"
  const FRONT_END := "</frontmatter>"
  const BODY_START := "<body>"
  const BODY_END := "</body>"

  // ---------------------------------------------------------------- the two sections

  function FormatTagged(front: string, body: string): string {
    FRONT_START + ("\n" + front + "\n") + FRONT_END + "\n" + BODY_START + ("\n" + body + "\n") + BODY_END
  }

  function TrimTagNewlines(value: string): string {
    var v := if HasPrefix(value, "\n") then value[1..] else value;
    if HasSuffix(v, "\n") then v[..|v| - 1] else v
  }

  datatype Sections = Sections(front: string, body: string) | Invalid

  /** The sections between the four tags, if nothing but white space is outside them. */
  function SectionsAt(text: string, start: nat, front: (nat, nat), body: (nat, nat), end: nat): Sections
    requires start <= |text| && front.0 <= front.1 <= |text| && body.0 <= body.1 <= |text| && end <= |text|
  {
    if TrimSpace(text[..start]) != "" || TrimSpace(text[end..]) != "" then Invalid
    else Sections(TrimTagNewlines(text[front.0..front.1]), TrimTagNewlines(text[body.0..body.1]))
  }

  function ParseBetween(text: string, frontTag: string, frontEndTag: string, bodyTag: string, bodyEndTag: string)
    : Sections
  {
    var start := IndexFrom(text, frontTag, 0);
    if start < 0 then Invalid
    else
      var frontStart := start + |frontTag|;
      var frontEnd := IndexFrom(text, frontEndTag, frontStart);
      if frontEnd < 0 then Invalid
      else
        var bodyAt := IndexFrom(text, bodyTag, frontEnd);
        if bodyAt < 0 then Invalid
        else
          var bodyStart := bodyAt + |bodyTag|;
          var bodyEnd := IndexFrom(text, bodyEndTag, bodyStart);
          if bodyEnd < 0 then Invalid
          else SectionsAt(text, start, (frontStart, frontEnd), (bodyStart, bodyEnd), bodyEnd + |bodyEndTag|)
  }

  function ParseTagged(text: string): Sections {
    ParseBetween(text, FRONT_START, FRONT_END, BODY_START, BODY_END)
  }

  method ParseTaggedDocument(text: string) returns (r: Sections)
    ensures r == ParseTagged(text)
  {
    hide IndexFrom, TrimSpace, TrimTagNewlines, HasPrefix, HasSuffix;
    var frontStart := IndexFrom(text, FRONT_START, 0);
    if frontStart == -1 {
      return Invalid;
    }
    var prefix := text[..frontStart];
    frontStart := frontStart + |FRONT_START|;
    var frontEnd := IndexFrom(text, FRONT_END, frontStart);
    if frontEnd == -1 {
      return Invalid;
    }
    var bodyStart := IndexFrom(text, BODY_START, frontEnd);
    if bodyStart == -1 {
      return Invalid;
    }
    bodyStart := bodyStart + |BODY_START|;
    var bodyEnd := IndexFrom(text, BODY_END, bodyStart);
    if bodyEnd == -1 {
      return Invalid;
    }
    if TrimSpace(prefix) != "" || TrimSpace(text[bodyEnd + |BODY_END|..]) != "" {
      return Invalid;
    }
    return Sections(TrimTagNewlines(text[frontStart..frontEnd]), TrimTagNewlines(text[bodyStart..bodyEnd]));
  }

  // ---------------------------------------------------------------- markers

  datatype Field = Summary | Title | ReadWhen

  datatype Side = Start | End

  function Key(f: Field): string {
    match f
    case Summary => "summary"
    case Title => "title"
    case ReadWhen => "read_when"
  }

  function Tag(f: Field): string {
    match f
    case Summary => "SUMMARY"
    case Title => "TITLE"
    case ReadWhen => "READ_WHEN"
  }

  function SideName(s: Side): string {
    if s.Start? then "START" else "END"
  }

  function MarkerText(f: Field, index: nat, side: Side): string {
    "[[[FM_" + Tag(f) + "_" + (Digits(index) + "_" + SideName(side) + "]]]")
  }

  datatype Marker = Marker(field: Field, index: nat)
  {
    function StartText(): string {
      MarkerText(field, index, Start)
    }

    function EndText(): string {
      MarkerText(field, index, End)
    }
  }

  // ---------------------------------------------------------------- the template

  datatype TemplateLine = Plain(text: string) | Marked(head: string, marker: Marker, value: string)

  function LineText(l: TemplateLine): string {
    match l
    case Plain(text) => text
    case Marked(head, marker, value) => head + (marker.StartText() + (value + marker.EndText()))
  }

  function FieldLine(data: FrontData, f: Field): seq<TemplateLine> {
    if Key(f) in data && data[Key(f)].Text? then [Marked(Key(f) + ": ", Marker(f, 0), data[Key(f)].text)] else []
  }

  /** `show` stands for Go's `%v` formatting of values that are not texts. */
  function ItemLine(item: Yaml, index: nat, show: Yaml -> string): TemplateLine {
    if item.Text? then Marked("  - ", Marker(ReadWhen, index), item.text) else Plain("  - " + show(item))
  }

  function ItemLines(items: seq<Yaml>, show: Yaml -> string): (ls: seq<TemplateLine>)
    ensures |ls| == |items|
    ensures forall i :: 0 <= i < |items| ==> ls[i] == ItemLine(items[i], i, show)
  {
    if items == [] then []
    else ItemLines(items[..|items| - 1], show) + [ItemLine(items[|items| - 1], |items| - 1, show)]
  }

  function ReadWhenLines(data: FrontData, show: Yaml -> string): seq<TemplateLine> {
    if "read_when" in data && data["read_when"].List? then
      [Plain("read_when:")] + ItemLines(data["read_when"].items, show)
    else []
  }

  function TemplateLines(data: FrontData, show: Yaml -> string): seq<TemplateLine> {
    FieldLine(data, Summary) + FieldLine(data, Title) + ReadWhenLines(data, show)
  }

  function LineTexts(ls: seq<TemplateLine>): (r: seq<string>)
    ensures |r| == |ls|
  {
    if ls == [] then [] else LineTexts(ls[..|ls| - 1]) + [LineText(ls[|ls| - 1])]
  }

  function MarkersOf(ls: seq<TemplateLine>): seq<Marker> {
    if ls == [] then []
    else
      var last := ls[|ls| - 1];
      MarkersOf(ls[..|ls| - 1]) + if last.Marked? then [last.marker] else []
  }

  lemma {:induction false} LinesConcat(a: seq<TemplateLine>, b: seq<TemplateLine>)
    ensures MarkersOf(a + b) == MarkersOf(a) + MarkersOf(b)
    ensures LineTexts(a + b) == LineTexts(a) + LineTexts(b)
  {
    hide LineText, LineTexts, MarkersOf;
    if b == [] {
      NoLines();
      assert a + b == a;
    } else {
      var init, last := b[..|b| - 1], b[|b| - 1];
      LinesConcat(a, init);
      LineAppended(a + init, last);
      LineAppended(init, last);
      assert init + [last] == b && a + init + [last] == a + b;
    }
  }

  lemma NoLines()
    ensures LineTexts([]) == [] && MarkersOf([]) == []
  {
  }

  lemma LineAppended(ls: seq<TemplateLine>, l: TemplateLine)
    ensures LineTexts(ls + [l]) == LineTexts(ls) + [LineText(l)]
    ensures MarkersOf(ls + [l]) == MarkersOf(ls) + if l.Marked? then [l.marker] else []
  {
    assert (ls + [l])[..|ls|] == ls;
  }

  lemma FieldLineParts(data: FrontData, f: Field)
    ensures MarkersOf(FieldLine(data, f)) == if FieldLine(data, f) == [] then [] else [Marker(f, 0)]
    ensures LineTexts(FieldLine(data, f)) == if FieldLine(data, f) == [] then [] else [LineText(FieldLine(data, f)[0])]
  {
    if FieldLine(data, f) != [] {
      LineAppended([], FieldLine(data, f)[0]);
      assert [] + FieldLine(data, f) == FieldLine(data, f);
      assert FieldLine(data, f)[0..] == FieldLine(data, f);
    }
  }

  method BuildFrontmatterTemplate(data: FrontData, show: Yaml -> string) returns (text: string, markers: seq<Marker>)
    ensures text == Join(LineTexts(TemplateLines(data, show)))
    ensures markers == MarkersOf(TemplateLines(data, show))
  {
    var summaryLines, summaryMarkers := BuildField(data, Summary);
    var titleLines, titleMarkers := BuildField(data, Title);
    var itemLines, itemMarkers := [], [];
    if "read_when" in data && data["read_when"].List? {
      itemLines, itemMarkers := BuildReadWhen(data["read_when"].items, show);
    }
    LinesConcat(FieldLine(data, Summary), FieldLine(data, Title));
    LinesConcat(FieldLine(data, Summary) + FieldLine(data, Title), ReadWhenLines(data, show));
    text := Join(summaryLines + titleLines + itemLines);
    markers := summaryMarkers + titleMarkers + itemMarkers;
  }

  method BuildField(data: FrontData, f: Field) returns (lines: seq<string>, markers: seq<Marker>)
    ensures lines == LineTexts(FieldLine(data, f)) && markers == MarkersOf(FieldLine(data, f))
  {
    FieldLineParts(data, f);
    if Key(f) in data && data[Key(f)].Text? {
      var m := Marker(f, 0);
      markers := [m];
      lines := [Key(f) + ": " + (m.StartText() + (data[Key(f)].text + m.EndText()))];
    } else {
      lines, markers := [], [];
    }
  }

  method BuildReadWhen(readWhen: seq<Yaml>, show: Yaml -> string) returns (lines: seq<string>, markers: seq<Marker>)
    ensures lines == LineTexts([Plain("read_when:")] + ItemLines(readWhen, show))
    ensures markers == MarkersOf([Plain("read_when:")] + ItemLines(readWhen, show))
  {
    ghost var head := [Plain("read_when:")];
    lines := ["read_when:"];
    markers := [];
    for idx := 0 to |readWhen|
      invariant lines == LineTexts(head + ItemLines(readWhen[..idx], show))
      invariant markers == MarkersOf(head + ItemLines(readWhen[..idx], show))
    {
      var item := readWhen[idx];
      NextItem(head, readWhen, idx, show);
      LineAppended(head + ItemLines(readWhen[..idx], show), ItemLine(item, idx, show));
      if item.Text? {
        var m := Marker(ReadWhen, idx);
        markers := markers + [m];
        lines := lines + ["  - " + (m.StartText() + (item.text + m.EndText()))];
      } else {
        lines := lines + ["  - " + show(item)];
      }
    }
    assert readWhen[..|readWhen|] == readWhen;
  }

  lemma NextItem(head: seq<TemplateLine>, items: seq<Yaml>, i: nat, show: Yaml -> string)
    requires i < |items|
    ensures head + ItemLines(items[..i + 1], show) == head + ItemLines(items[..i], show) + [ItemLine(items[i], i, show)]
  {
    assert items[..i + 1][..i] == items[..i];
  }

  // ---------------------------------------------------------------- taking a translation back

  datatype Outcome<+T> = Ok(value: T) | MissingMarker | InvalidTags | FrontRemoved

  function ExtractMarkerValue(text: string, start: string, end: string): Outcome<string> {
    var i := IndexFrom(text, start, 0);
    if i < 0 then MissingMarker
    else
      var j := IndexFrom(text, end, i + |start|);
      if j < 0 then MissingMarker else Ok(text[i + |start|..j])
  }

  function Padded(items: seq<Yaml>, n: nat): (r: seq<Yaml>)
    ensures |r| >= n && |r| >= |items| && (|items| >= n ==> r == items)
    decreases n - |items|
  {
    if |items| >= n then items else Padded(items + [Yaml.Text("")], n)
  }

  function SetReadWhen(data: FrontData, index: nat, value: string): FrontData {
    var existing := if "read_when" in data && data["read_when"].List? then data["read_when"].items else [];
    data["read_when" := List(Padded(existing, index + 1)[index := Yaml.Text(value)])]
  }

  function ApplyOne(data: FrontData, m: Marker, value: string): FrontData {
    if m.field.ReadWhen? then SetReadWhen(data, m.index, value) else data[Key(m.field) := Yaml.Text(value)]
  }

  function ApplyAll(data: FrontData, markers: seq<Marker>, front: string): Outcome<FrontData>
    decreases |markers|
  {
    if markers == [] then Ok(data)
    else
      match ExtractMarkerValue(front, markers[0].StartText(), markers[0].EndText())
      case Ok(value) => ApplyAll(ApplyOne(data, markers[0], TrimSpace(value)), markers[1..], front)
      case _ => MissingMarker
  }

  method SetReadWhenValue(existing: Option<Yaml>, index: nat, value: string) returns (readWhen: seq<Yaml>)
    ensures readWhen == Padded(if existing.Some? && existing.value.List? then existing.value.items else [],
                               index + 1)[index := Yaml.Text(value)]
  {
    readWhen := if existing.Some? && existing.value.List? then existing.value.items else [];
    ghost var was := readWhen;
    while |readWhen| <= index
      invariant Padded(readWhen, index + 1) == Padded(was, index + 1)
      decreases index + 1 - |readWhen|
    {
      readWhen := readWhen + [Yaml.Text("")];
    }
    readWhen := readWhen[index := Yaml.Text(value)];
  }

  method SetField(input: FrontData, m: Marker, value: string) returns (data: FrontData)
    ensures data == ApplyOne(input, m, value)
  {
    data := input;
    match m.field {
      case Summary => data := data["summary" := Yaml.Text(value)];
      case Title => data := data["title" := Yaml.Text(value)];
      case ReadWhen =>
        var readWhen := SetReadWhenValue(if "read_when" in data then Some(data["read_when"]) else None, m.index, value);
        data := data["read_when" := List(readWhen)];
    }
  }

  method ApplyFrontmatterTranslations(input: FrontData, markers: seq<Marker>, front: string)
    returns (r: Outcome<FrontData>)
    ensures r == ApplyAll(input, markers, front)
  {
    var data := input;
    for i := 0 to |markers|
      invariant ApplyAll(input, markers, front) == ApplyAll(data, markers[i..], front)
    {
      var m := markers[i];
      assert markers[i..][0] == m && markers[i..][1..] == markers[i + 1..];
      var extracted := ExtractMarkerValue(front, m.StartText(), m.EndText());
      if !extracted.Ok? {
        return MissingMarker;
      }
      var value := TrimSpace(extracted.value);
      data := SetField(data, m, value);
    }
    return Ok(data);
  }

  /** What becomes of a translated document: the new front-matter data and the new body. */
  function FinishDoc(sourceFront: string, data: FrontData, markers: seq<Marker>, translated: string)
    : Outcome<(FrontData, string)>
  {
    match ParseTagged(translated)
    case Invalid => InvalidTags
    case Sections(front, body) =>
      if sourceFront != "" && TrimSpace(front) == "" then FrontRemoved
      else
        match ApplyAll(data, markers, front)
        case Ok(updated) => Ok((updated, body))
        case _ => MissingMarker
  }
}
