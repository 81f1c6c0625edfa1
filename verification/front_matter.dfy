/** Front matter in the document translator, scripts/docs-i18n/process.go and doc_mode.go: splitting it off, writing it
    in front of a translated body, and skipping documents whose source has not changed. YAML itself is a parameter. */
module FrontMatters {
  import opened JsMaps
  import opened Texts
  import opened Lines

  /** A decoded YAML value; `Scalar` stands for numbers, booleans, dates and null. */
  datatype Yaml =
    | Text(text: string)
    | List(items: seq<Yaml>)
    | Mapping(entries: map<string, Yaml>)
    | Scalar(shown: string)

  type FrontData = map<string, Yaml>

  const FENCE := "---"

  predicate Fence(line: string) {
    TrimSpace(line) == FENCE
  }

  /** The first fence among the lines at or after `from`; the number of lines if there is none. */
  function FirstFence(lines: seq<string>, from: nat): (i: nat)
    requires from <= |lines|
    ensures from <= i <= |lines|
    ensures i < |lines| ==> Fence(lines[i])
    ensures forall k :: from <= k < i ==> !Fence(lines[k])
    decreases |lines| - from
  {
    if from == |lines| || Fence(lines[from]) then from else FirstFence(lines, from + 1)
  }

  function WithoutNewline(s: string): string {
    if HasPrefix(s, "\n") then s[1..] else s
  }

  function SplitFront(content: string): (string, string) {
    if !HasPrefix(content, FENCE) then ("", content)
    else
      var lines := Split(content);
      if |lines| < 2 then ("", content)
      else
        var end := FirstFence(lines, 1);
        if end == |lines| then ("", content)
        else (Join(lines[1..end]), WithoutNewline(Join(lines[end + 1..])))
  }

  method SplitFrontMatter(content: string) returns (front: string, body: string)
    ensures (front, body) == SplitFront(content)
  {
    if !HasPrefix(content, FENCE) {
      return "", content;
    }
    var lines := Split(content);
    if |lines| < 2 {
      return "", content;
    }
    var endIndex := -1;
    var i := 1;
    while i < |lines|
      invariant 1 <= i <= |lines| && endIndex == -1
      invariant FirstFence(lines, 1) == FirstFence(lines, i)
    {
      if TrimSpace(lines[i]) == FENCE {
        endIndex := i;
        break;
      }
      i := i + 1;
    }
    if endIndex == -1 {
      return "", content;
    }
    front := Join(lines[1..endIndex]);
    body := Join(lines[endIndex + 1..]);
    if HasPrefix(body, "\n") {
      body := body[1..];
    }
  }

  // ---------------------------------------------------------------- writing

  datatype Stamp = Stamp(sourcePath: string, sourceHash: string, provider: string, model: string, workflow: string,
                         generatedAt: string)

  function Stamped(data: FrontData, stamp: Stamp): FrontData {
    data["x-i18n" := Mapping(map[
      "source_path" := Text(stamp.sourcePath),
      "source_hash" := Text(stamp.sourceHash),
      "provider" := Text(stamp.provider),
      "model" := Text(stamp.model),
      "workflow" := Text(stamp.workflow),
      "generated_at" := Text(stamp.generatedAt)])]
  }

  /** `encodeFrontMatter`, with the YAML marshaller as a parameter (`None` when it fails). */
  function EncodeFront(data: FrontData, stamp: Stamp, marshal: FrontData -> Option<string>): Option<string> {
    match marshal(Stamped(data, stamp))
    case None => None
    case Some(encoded) => Some("---\n" + encoded + "---\n\n")
  }

  // ---------------------------------------------------------------- skipping

  datatype FileRead = Missing | Unreadable | Content(text: string)

  datatype SkipResult = Skip(skip: bool) | ReadFailed

  function SourceHash(data: FrontData): string {
    if "x-i18n" in data && data["x-i18n"].Mapping? then
      var xi := data["x-i18n"].entries;
      if "source_hash" in xi && xi["source_hash"].Text? then TrimSpace(xi["source_hash"].text) else ""
    else ""
  }

  function Lower(c: char): char {
    if 'A' <= c <= 'Z' then c + 32 as char else c
  }

  /** `strings.EqualFold`, for the hexadecimal digits that hashes consist of. */
  predicate EqualFold(a: string, b: string) {
    |a| == |b| && forall i :: 0 <= i < |a| ==> Lower(a[i]) == Lower(b[i])
  }

  function ShouldSkip(output: FileRead, sourceHash: string, unmarshal: string -> Option<FrontData>): SkipResult {
    match output
    case Missing => Skip(false)
    case Unreadable => ReadFailed
    case Content(text) =>
      var front := SplitFront(text).0;
      if front == "" || unmarshal(front).None? then Skip(false)
      else
        var stored := SourceHash(unmarshal(front).value);
        Skip(stored != "" && EqualFold(stored, sourceHash))
  }

  // ---------------------------------------------------------------- round trip

  predicate HasFence(yaml: string) {
    exists i :: 0 <= i < |Split(yaml)| && Fence(Split(yaml)[i])
  }

  lemma FenceTrims()
    ensures Fence(FENCE) && OneLine(FENCE) && Split(FENCE) == [FENCE] && Split("") == [""]
  {
    SplitOneLine(FENCE);
  }

  function Document(yaml: string, body: string): string {
    "---\n" + (yaml + "\n") + "---\n\n" + body
  }

  lemma LinesOfDocument(yaml: string, body: string)
    ensures Split(Document(yaml, body)) == [FENCE] + Split(yaml) + [FENCE, ""] + Split(body)
  {
    var blank := "" + "\n" + body;
    var closing := FENCE + "\n" + blank;
    var inner := yaml + "\n" + closing;
    FenceTrims();
    SplitNewline("", body);
    SplitNewline(FENCE, blank);
    SplitNewline(yaml, closing);
    SplitNewline(FENCE, inner);
    assert Document(yaml, body) == FENCE + "\n" + inner;
    AssociateLines(Split(yaml), Split(body));
  }

  lemma AssociateLines(a: seq<string>, b: seq<string>)
    ensures [FENCE] + (a + ([FENCE] + ([""] + b))) == [FENCE] + a + [FENCE, ""] + b
  {
  }

  /** Where the first fence lies behind the opening one. */
  lemma FirstFenceOf(ls: seq<string>, tail: seq<string>)
    ensures var all := [FENCE] + ls + [FENCE, ""] + tail;
            var end := FirstFence(all, 1);
            && end <= 1 + |ls| && all[1..end] == ls[..end - 1]
            && (end == 1 + |ls| <==> forall i :: 0 <= i < |ls| ==> !Fence(ls[i]))
  {
    FenceTrims();
    var all := [FENCE] + ls + [FENCE, ""] + tail;
    assert all[1 + |ls|] == FENCE;
    forall i | 0 <= i < |ls| ensures all[1 + i] == ls[i] {}
  }

  /** Splitting an encoded front matter from its body gives both back, the YAML without its last newline, exactly
      when no line of the YAML is a fence. */
  lemma FrontRoundTrip(yaml: string, body: string)
    ensures SplitFront(Document(yaml, body)) == (yaml, body) <==> !HasFence(yaml)
  {
    var doc := Document(yaml, body);
    var ls, tail := Split(yaml), Split(body);
    var all := [FENCE] + ls + [FENCE, ""] + tail;
    LinesOfDocument(yaml, body);
    FirstFenceOf(ls, tail);
    assert doc[..3] == FENCE;
    var end := FirstFence(all, 1);
    if HasFence(yaml) {
      ShortFront(yaml, end - 1);
    } else {
      JoinSplit(yaml);
      assert ls[..end - 1] == ls;
      BodyBack(ls, body);
    }
  }

  lemma BodyBack(ls: seq<string>, body: string)
    ensures var all := [FENCE] + ls + [FENCE, ""] + Split(body);
            WithoutNewline(Join(all[2 + |ls|..])) == body
  {
    var all := [FENCE] + ls + [FENCE, ""] + Split(body);
    assert all[2 + |ls|..] == [""] + Split(body);
    JoinConcat([""], Split(body));
    JoinSplit(body);
  }

  /** Fewer lines never join to the whole text. */
  lemma ShortFront(yaml: string, n: nat)
    requires n < |Split(yaml)| && Fence(Split(yaml)[n])
    ensures Join(Split(yaml)[..n]) != yaml
  {
    var ls := Split(yaml);
    assert !Fence("");
    FenceTrims();
    if n > 0 {
      SplitJoin(ls[..n]);
    }
  }

  /** Given the YAML round trip for the stamped data, a document just written is skipped on the next run exactly when
      its source still has the same hash. */
  lemma WrittenDocumentIsSkipped(data: FrontData, stamp: Stamp, body: string, newHash: string,
                                 marshal: FrontData -> Option<string>, unmarshal: string -> Option<FrontData>)
    requires marshal(Stamped(data, stamp)).Some?
    requires var y := marshal(Stamped(data, stamp)).value;
             && |y| > 1 && y[|y| - 1] == '\n' && !HasFence(y[..|y| - 1])
             && unmarshal(y[..|y| - 1]) == Some(Stamped(data, stamp))
    requires stamp.sourceHash != "" && TrimSpace(stamp.sourceHash) == stamp.sourceHash
    ensures var output := EncodeFront(data, stamp, marshal).value + body;
            ShouldSkip(Content(output), newHash, unmarshal) == Skip(EqualFold(stamp.sourceHash, newHash))
    ensures EqualFold(stamp.sourceHash, stamp.sourceHash)
  {
    var y := marshal(Stamped(data, stamp)).value;
    var yaml := y[..|y| - 1];
    assert y == yaml + "\n";
    FrontRoundTrip(yaml, body);
    assert Document(yaml, body) == ("---\n" + y + "---\n\n") + body;
  }
}
