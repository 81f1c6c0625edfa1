/** What a fence is, where front matter ends, what is stamped on a translation, and when a document is skipped. */
module FrontMatterProperties {
  import opened JsMaps
  import opened Texts
  import opened Lines
  import opened FrontMatters

  predicate AllSpace(s: string) {
    forall i :: 0 <= i < |s| ==> IsSpace(s[i])
  }

  ghost predicate Around(line: string, a: string, b: string) {
    line == a + "---" + b && AllSpace(a) && AllSpace(b)
  }

  lemma {:induction false} TrimLeftSpace(s: string)
    ensures exists a: string :: s == a + TrimLeft(s) && AllSpace(a)
  {
    if s != "" && IsSpace(s[0]) {
      TrimLeftSpace(s[1..]);
      var a: string :| s[1..] == a + TrimLeft(s[1..]) && AllSpace(a);
      assert s == ([s[0]] + a) + TrimLeft(s);
    } else {
      assert s == "" + TrimLeft(s);
    }
  }

  lemma {:induction false} TrimRightSpace(s: string)
    ensures exists b: string :: s == TrimRight(s) + b && AllSpace(b)
  {
    if s != "" && IsSpace(s[|s| - 1]) {
      TrimRightSpace(s[..|s| - 1]);
      var b: string :| s[..|s| - 1] == TrimRight(s[..|s| - 1]) + b && AllSpace(b);
      assert s == TrimRight(s) + (b + [s[|s| - 1]]);
    } else {
      assert s == TrimRight(s) + "";
    }
  }

  lemma {:induction false} SpaceTrimsLeft(a: string, s: string)
    requires AllSpace(a) && s != "" && !IsSpace(s[0])
    ensures TrimLeft(a + s) == s
  {
    if a == "" {
      assert a + s == s;
    } else {
      assert (a + s)[1..] == a[1..] + s;
      SpaceTrimsLeft(a[1..], s);
    }
  }

  lemma {:induction false} SpaceTrimsRight(s: string, b: string)
    requires AllSpace(b) && s != "" && !IsSpace(s[|s| - 1])
    ensures TrimRight(s + b) == s
  {
    if b == "" {
      assert s + b == s;
    } else {
      assert (s + b)[..|s + b| - 1] == s + b[..|b| - 1];
      SpaceTrimsRight(s, b[..|b| - 1]);
    }
  }

  /** A fence is three dashes with nothing but white space around them. */
  lemma FenceExactly(line: string)
    ensures Fence(line) <==> exists a: string, b: string :: Around(line, a, b)
  {
    hide TrimLeft, TrimRight, AllSpace;
    if Fence(line) {
      TrimLeftSpace(line);
      TrimRightSpace(TrimLeft(line));
      var a: string :| line == a + TrimLeft(line) && AllSpace(a);
      var b: string :| TrimLeft(line) == TrimRight(TrimLeft(line)) + b && AllSpace(b);
      assert line == a + "---" + b;
      assert Around(line, a, b);
    }
    forall a: string, b: string | Around(line, a, b)
      ensures Fence(line)
    {
      AroundTrims(line, a, b);
    }
  }

  lemma AroundTrims(line: string, a: string, b: string)
    requires Around(line, a, b)
    ensures Fence(line)
  {
    hide TrimLeft, TrimRight, AllSpace;
    assert line == a + ("---" + b);
    assert ("---" + b)[0] == '-' && "---"[|"---"| - 1] == '-';
    SpaceTrimsLeft(a, "---" + b);
    SpaceTrimsRight("---", b);
  }

  /** Line e is the first fence behind the first line. */
  predicate EndsAt(lines: seq<string>, e: nat) {
    1 <= e < |lines| && Fence(lines[e]) && forall k :: 1 <= k < e ==> !Fence(lines[k])
  }

  /** A document that begins with three dashes and has a fence further down is split there: the lines between are the
      front matter, those behind are the body, less one newline in front of it. Any other document is all body. */
  lemma SplitExactly(content: string, e: nat)
    ensures content != "" && |content| >= 3 && content[..3] == "---" && EndsAt(Split(content), e) ==>
              var rest := Join(Split(content)[e + 1..]);
              SplitFront(content)
              == (Join(Split(content)[1..e]), if rest != "" && rest[0] == '\n' then rest[1..] else rest)
    ensures (!(|content| >= 3 && content[..3] == "---") || forall k :: !EndsAt(Split(content), k)) ==>
              SplitFront(content) == ("", content)
  {
    hide Fence, Join, Split;
    var lines := Split(content);
    if |lines| >= 2 {
      var end := FirstFence(lines, 1);
      if end < |lines| {
        assert EndsAt(lines, end);
      }
    }
  }

  // ---------------------------------------------------------------- stamps and skipping

  /** What is stamped on a translation, besides its own front matter. */
  lemma StampExactly(data: FrontData, stamp: Stamp)
    ensures var d := Stamped(data, stamp);
            && (forall k :: k != "x-i18n" ==> (k in d <==> k in data) && (k in data ==> d[k] == data[k]))
            && "x-i18n" in d && d["x-i18n"].Mapping?
            && d["x-i18n"].entries.Keys
               == {"source_path", "source_hash", "provider", "model", "workflow", "generated_at"}
            && d["x-i18n"].entries["source_path"] == Yaml.Text(stamp.sourcePath)
            && d["x-i18n"].entries["source_hash"] == Yaml.Text(stamp.sourceHash)
            && d["x-i18n"].entries["provider"] == Yaml.Text(stamp.provider)
            && d["x-i18n"].entries["model"] == Yaml.Text(stamp.model)
            && d["x-i18n"].entries["workflow"] == Yaml.Text(stamp.workflow)
            && d["x-i18n"].entries["generated_at"] == Yaml.Text(stamp.generatedAt)
  {
  }

  predicate OtherCase(c: char, d: char) {
    'a' <= c <= 'z' && 'A' <= d <= 'Z' && c as int - 'a' as int == d as int - 'A' as int
  }

  /** Two hashes are equal if they differ in the case of letters only. */
  lemma EqualFoldExactly(a: string, b: string)
    ensures EqualFold(a, b) <==>
            |a| == |b| && forall i :: 0 <= i < |a| ==> a[i] == b[i] || OtherCase(a[i], b[i]) || OtherCase(b[i], a[i])
  {
    forall i | 0 <= i < |a| && i < |b|
      ensures Lower(a[i]) == Lower(b[i]) <==> a[i] == b[i] || OtherCase(a[i], b[i]) || OtherCase(b[i], a[i])
    {
      LowerExactly(a[i], b[i]);
    }
  }

  lemma LowerExactly(c: char, d: char)
    ensures Lower(c) == Lower(d) <==> c == d || OtherCase(c, d) || OtherCase(d, c)
  {
  }

  /** The translation records this hash of its source. */
  predicate Records(data: FrontData, hash: string) {
    && "x-i18n" in data && data["x-i18n"].Mapping?
    && "source_hash" in data["x-i18n"].entries && data["x-i18n"].entries["source_hash"].Text?
    && TrimSpace(data["x-i18n"].entries["source_hash"].text) == hash && hash != ""
  }

  /** A document is skipped exactly if its translation can be read and records the hash of the source as it is now;
      only a file that exists and cannot be read is an error. */
  lemma SkippedExactly(output: FileRead, sourceHash: string, unmarshal: string -> Option<FrontData>)
    ensures var r := ShouldSkip(output, sourceHash, unmarshal);
            && (r == ReadFailed <==> output.Unreadable?)
            && (r == Skip(true) <==>
                && output.Content? && SplitFront(output.text).0 != "" && unmarshal(SplitFront(output.text).0).Some?
                && exists h :: Records(unmarshal(SplitFront(output.text).0).value, h) && EqualFold(h, sourceHash))
  {
    hide SplitFront, EqualFold, TrimSpace;
    if output.Content? && unmarshal(SplitFront(output.text).0).Some? {
      var data := unmarshal(SplitFront(output.text).0).value;
      assert SourceHash(data) != "" ==> Records(data, SourceHash(data));
      assert forall h :: Records(data, h) ==> h == SourceHash(data);
    }
  }
}
