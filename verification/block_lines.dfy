/** Rewriting the lines between two markers, scripts/sync-moonshot-docs.ts. */
module BlockLines {
  import opened Texts
  import opened Lines
  import opened Searching

  /** `text.lastIndexOf("\n", i)`. */
  function LastNewline(text: string, i: int): (r: int)
    requires i <= |text|
    ensures -1 <= r && (r >= 0 ==> r <= i && r < |text| && text[r] == '\n')
    ensures forall k :: r < k <= i && 0 <= k < |text| ==> text[k] != '\n'
    decreases i + 1
  {
    if i < 0 then -1
    else if i < |text| && text[i] == '\n' then i
    else LastNewline(text, i - 1)
  }

  /** What is kept of the text around the block, and the indentation of its start marker. */
  datatype Parts = Parts(before: string, indent: string, after: string)

  datatype Found = Block(parts: Parts) | MissingStart | MissingEnd

  /** The rest of the text behind the line on which position `k` lies. */
  function Behind(s: string, k: nat): string
    requires k <= |s|
  {
    var newline := IndexFrom(s, "\n", k);
    if newline < 0 then "" else s[newline + 1..]
  }

  function BlockAt(text: string, startIndex: nat, endIndex: nat): Parts
    requires startIndex <= |text| && endIndex <= |text|
  {
    var lineStart := LastNewline(text, startIndex) + 1;
    var indent := if lineStart <= startIndex then text[lineStart..startIndex] else "";
    Parts(text[..lineStart], indent, Behind(text, endIndex))
  }

  function FindBlock(text: string, start: string, end: string): Found {
    var startIndex := IndexFrom(text, start, 0);
    if startIndex < 0 then MissingStart
    else
      var endIndex := IndexFrom(text, end, startIndex);
      if endIndex < 0 then MissingEnd else Block(BlockAt(text, startIndex, endIndex))
  }

  function Indented(indent: string, lines: seq<string>): (r: seq<string>)
    ensures |r| == |lines| && forall i :: 0 <= i < |r| ==> r[i] == indent + lines[i]
  {
    seq(|lines|, i requires 0 <= i < |lines| => indent + lines[i])
  }

  function Assemble(p: Parts, start: string, end: string, lines: seq<string>): string {
    var replacement := Join([p.indent + start] + Indented(p.indent, lines) + [p.indent + end]);
    if p.after == "" then p.before + replacement else p.before + replacement + "\n" + p.after
  }

  datatype Rewritten = Text(text: string) | NoStartMarker | NoEndMarker

  function ReplaceBlockLines(text: string, start: string, end: string, lines: seq<string>): Rewritten {
    match FindBlock(text, start, end)
    case MissingStart => NoStartMarker
    case MissingEnd => NoEndMarker
    case Block(parts) => Text(Assemble(parts, start, end, lines))
  }

  /** A marker: some text on one line. */
  predicate IsMarker(m: string) {
    m != "" && OneLine(m)
  }

  /** The written block quotes the end marker before its last line. */
  predicate QuotesEnd(indent: string, start: string, end: string, lines: seq<string>) {
    Contains(start, end) || exists i :: 0 <= i < |lines| && Contains(indent + lines[i], end)
  }

  // ---------------------------------------------------------------- the shape of a rewritten text

  /** The written lines with their newlines. */
  function Middle(indent: string, lines: seq<string>): string {
    if lines == [] then "" else Middle(indent, lines[..|lines| - 1]) + (indent + lines[|lines| - 1]) + "\n"
  }

  function Tail(after: string): string {
    if after == "" then "" else "\n" + after
  }

  lemma {:induction false} JoinIsMiddle(first: string, indent: string, lines: seq<string>, last: string)
    ensures Join([first] + Indented(indent, lines) + [last]) == first + "\n" + Middle(indent, lines) + last
  {
    if lines == [] {
      assert [first] + Indented(indent, lines) + [last] == [first] + [last];
      JoinConcat([first], [last]);
      assert first + "\n" + "" + last == first + "\n" + last;
    } else {
      var init, line := lines[..|lines| - 1], indent + lines[|lines| - 1];
      JoinIsMiddle(first, indent, init, line);
      assert [first] + Indented(indent, lines) + [last] == ([first] + Indented(indent, init) + [line]) + [last];
      JoinConcat([first] + Indented(indent, init) + [line], [last]);
      Regroup(first, Middle(indent, init), line, last);
    }
  }

  lemma Regroup(a: string, b: string, c: string, d: string)
    ensures (a + "\n" + b + c) + "\n" + d == a + "\n" + (b + c + "\n") + d
  {
  }

  /** Everything of the block in front of its last line. */
  function Front(p: Parts, start: string, lines: seq<string>): string {
    start + "\n" + Middle(p.indent, lines)
  }

  lemma AssembledShape(p: Parts, start: string, end: string, lines: seq<string>)
    ensures Assemble(p, start, end, lines)
         == (p.before + p.indent) + (Front(p, start, lines) + ((p.indent + end) + Tail(p.after)))
  {
    JoinIsMiddle(p.indent + start, p.indent, lines, p.indent + end);
    var b, i, m, e, t := p.before, p.indent, Middle(p.indent, lines), p.indent + end, Tail(p.after);
    assert b + ((i + start) + "\n" + m + e) + t == (b + i) + ((start + "\n" + m) + (e + t));
    assert p.before + ((i + start) + "\n" + m + e) + "" == p.before + ((i + start) + "\n" + m + e);
    var block := b + ((i + start) + "\n" + m + e);
    assert p.after != "" ==> block + "\n" + p.after == block + ("\n" + p.after);
  }

  // ---------------------------------------------------------------- finding the block again

  lemma {:induction false} MiddleNoStart(indent: string, lines: seq<string>, rest: string, end: string)
    requires IsMarker(end) && forall i :: 0 <= i < |lines| ==> !Contains(indent + lines[i], end)
    ensures NoStart(Middle(indent, lines), rest, end)
  {
    if lines != [] {
      var init, line := lines[..|lines| - 1], indent + lines[|lines| - 1];
      MiddleNoStart(indent, init, line + "\n" + rest, end);
      LineNoStart(line, rest, end);
      NoStartConcat(Middle(indent, init), line + "\n", rest, end);
      assert Middle(indent, init) + (line + "\n") == Middle(indent, lines);
    }
  }

  lemma LineNoStart(line: string, rest: string, end: string)
    requires IsMarker(end) && !Contains(line, end)
    ensures NoStart(line + "\n", rest, end)
  {
    OneLineNoStart(line, "\n" + rest, end);
    NewlineNoStart(rest, end);
    NoStartConcat(line, "\n", rest, end);
  }

  lemma {:induction false} MiddleQuotes(indent: string, lines: seq<string>, k: nat, end: string)
    requires k < |lines| && Contains(indent + lines[k], end)
    ensures Contains(Middle(indent, lines), end)
  {
    hide Contains;
    var n := |lines| - 1;
    var init, line := lines[..n], indent + lines[n];
    if k < n {
      MiddleQuotes(indent, init, k, end);
      QuotedWithin("", Middle(indent, init), line + "\n", end);
      assert "" + (Middle(indent, init) + (line + "\n")) == Middle(indent, lines);
    } else {
      QuotedWithin(Middle(indent, init), line, "\n", end);
      assert Middle(indent, init) + (line + "\n") == Middle(indent, lines);
    }
  }

  lemma QuotedWithin(a: string, x: string, b: string, p: string)
    requires Contains(x, p)
    ensures Contains(a + (x + b), p)
  {
    FoundWithin(a, x, b, p);
  }

  /** Where the end marker is found: on the last line exactly when it is not quoted before. */
  lemma EndFound(p: Parts, start: string, end: string, lines: seq<string>, rest: string)
    requires IsMarker(start) && IsMarker(end)
    ensures var front := Front(p, start, lines);
            var i := IndexFrom(front + ((p.indent + end) + rest), end, 0);
            && 0 <= i <= |front| + |p.indent|
            && (i < |front| <==> QuotesEnd(p.indent, start, end, lines))
  {
    hide IndexFrom, OccursAt;
    var front := Front(p, start, lines);
    var last := (p.indent + end) + rest;
    RegroupEnd(front, p.indent, end, rest);
    EndOccurs(front + last, front + p.indent, end, rest);
    if QuotesEnd(p.indent, start, end, lines) {
      FrontQuotes(p, start, end, lines);
      FoundInFront(front, last, end);
      EndNotEmpty(end);
    } else {
      LineNoStart(start, Middle(p.indent, lines) + last, end);
      MiddleNoStart(p.indent, lines, last, end);
      NoStartConcat(start + "\n", Middle(p.indent, lines), last, end);
      NotFoundBefore(front, last, end);
    }
  }

  lemma EndNotEmpty(end: string)
    requires IsMarker(end)
    ensures |end| > 0
  {
  }

  lemma FrontQuotes(p: Parts, start: string, end: string, lines: seq<string>)
    requires QuotesEnd(p.indent, start, end, lines)
    ensures Contains(Front(p, start, lines), end)
  {
    hide Contains;
    var m := Middle(p.indent, lines);
    if Contains(start, end) {
      QuotedWithin("", start, "\n" + m, end);
      assert "" + (start + ("\n" + m)) == start + "\n" + m;
    } else {
      var i :| 0 <= i < |lines| && Contains(p.indent + lines[i], end);
      MiddleQuotes(p.indent, lines, i, end);
      QuotedWithin(start + "\n", m, "", end);
      assert (start + "\n") + (m + "") == start + "\n" + m;
    }
  }

  lemma EndOccurs(t: string, a: string, end: string, rest: string)
    requires t == a + (end + rest)
    ensures 0 <= IndexFrom(t, end, 0) <= |a|
  {
    hide IndexFrom, OccursAt;
    OccursInItself(end);
    OccursWithin(a, end, rest, end, 0);
    IndexFound(t, end, 0, |a|);
  }

  lemma OccursInItself(p: string)
    ensures OccursAt(p, p, 0)
  {
  }

  lemma RegroupEnd(a: string, b: string, c: string, d: string)
    ensures (a + b) + (c + d) == a + ((b + c) + d)
  {
  }

  lemma NotFoundBefore(a: string, rest: string, p: string)
    requires NoStart(a, rest, p) && IndexFrom(a + rest, p, 0) >= 0
    ensures IndexFrom(a + rest, p, 0) >= |a|
  {
    IndexIsFirst(a + rest, p, 0);
  }

  /** The text up to the start marker is what the parts keep of it. */
  lemma HeadOfBlock(text: string, start: string, i: nat, endIndex: nat)
    requires IsMarker(start) && OccursAt(text, start, i) && endIndex <= |text|
    ensures var p := BlockAt(text, i, endIndex);
            && p.before + p.indent == text[..i] && OneLine(p.indent)
            && |p.before| == LastNewline(text, i) + 1 <= i
  {
    OccursChar(text, start, i, 0);
    NoNewlineAt(text, i);
  }

  lemma NoNewlineAt(text: string, i: nat)
    requires i < |text| && text[i] != '\n'
    ensures LastNewline(text, i) < i
    ensures OneLine(text[LastNewline(text, i) + 1..i])
    ensures text[..LastNewline(text, i) + 1] + text[LastNewline(text, i) + 1..i] == text[..i]
  {
  }

  lemma {:induction false} LastNewlineAgrees(a: string, b: string, n: nat, i: int)
    requires i < n <= |a| && n <= |b| && a[..n] == b[..n]
    ensures LastNewline(a, i) == LastNewline(b, i)
    decreases i + 1
  {
    if 0 <= i {
      assert a[..n][i] == b[..n][i];
      LastNewlineAgrees(a, b, n, i - 1);
    }
  }

  /** The first occurrence stays where it is when only the text behind it changes. */
  lemma FirstStays(head: string, p: string, x: string, y: string)
    requires NoneIn(head + (p + x), p, 0, |head|)
    ensures IndexFrom(head + (p + y), p, 0) == |head|
  {
    forall j: nat | j < |head| ensures !OccursAt(head + (p + y), p, j) {
      assert !OccursAt(head + (p + x), p, j);
      assert (head + (p + y))[j..j + |p|] == (head + (p + x))[j..j + |p|];
    }
    assert (head + (p + y))[|head|..|head| + |p|] == p;
    IndexIs(head + (p + y), p, 0, |head|);
  }

  lemma NewlineAt(s: string, k: nat)
    ensures OccursAt(s, "\n", k) <==> k < |s| && s[k] == '\n'
  {
    if k < |s| {
      assert s[k..k + 1] == [s[k]];
    }
  }

  lemma BehindLine(a: string, line: string, after: string, k: nat)
    requires |a| <= k <= |a| + |line| && OneLine(line)
    ensures Behind(a + (line + Tail(after)), k) == after
  {
    var s, n := a + (line + Tail(after)), |a| + |line|;
    IndexIsFirst(s, "\n", k);
    forall j: nat | k <= j < n ensures !OccursAt(s, "\n", j) {
      assert s[j] == line[j - |a|];
      NewlineAt(s, j);
    }
    if after == "" {
      forall j: nat | k <= j ensures !OccursAt(s, "\n", j) {
        NewlineAt(s, j);
      }
    } else {
      NewlineAt(s, n);
      IndexIs(s, "\n", k, n);
      assert s[n + 1..] == after;
    }
  }

  lemma BehindEarlier(s: string, k: nat, n: nat)
    requires k < n <= |s| && s[n - 1] == '\n'
    ensures |Behind(s, k)| >= |s| - n
  {
    NewlineAt(s, n - 1);
    IndexFound(s, "\n", k, n - 1);
  }

  /** In a rewritten text the same block is found again, exactly when the end marker is not quoted before its line.
      Otherwise more text is left behind the block. */
  lemma FoundAgain(text: string, start: string, end: string, lines: seq<string>)
    requires IsMarker(start) && IsMarker(end) && FindBlock(text, start, end).Block?
    ensures var p := FindBlock(text, start, end).parts;
            var again := FindBlock(Assemble(p, start, end, lines), start, end);
            && again.Block? && again.parts.before == p.before && again.parts.indent == p.indent
            && (if QuotesEnd(p.indent, start, end, lines) then |again.parts.after| > |p.after|
                else again.parts.after == p.after)
  {
    hide FindBlock, BlockAt, IndexFrom, OccursAt, LastNewline, Front, Tail, Behind, QuotesEnd, IsMarker, OneLine;
    var p := FindBlock(text, start, end).parts;
    var front, last := Front(p, start, lines), p.indent + end;
    var rest := front + (last + Tail(p.after));
    var head := p.before + p.indent;
    var k := IndexFrom(rest, end, 0);
    HeadOfFound(text, start, end);
    HeadAgain(text, start, end, lines);
    EndFound(p, start, end, lines, Tail(p.after));
    FindShifted(head, rest, end);
    AssembledShape(p, start, end, lines);
    FrontEndsLine(p, start, lines);
    AfterAgain(head, front, last, p.after, k, end);
    PartsAt(head + rest, start, end, p.before, p.indent, |head| + k);
  }

  lemma HeadOfFound(text: string, start: string, end: string)
    requires IsMarker(start) && IsMarker(end) && FindBlock(text, start, end).Block?
    ensures var p := FindBlock(text, start, end).parts; OneLine(p.indent + end) && end != ""
  {
    var i := IndexFrom(text, start, 0);
    HeadOfBlock(text, start, i, IndexFrom(text, end, i));
  }

  /** What stands behind the block, found from position `k` of the rewritten part. */
  lemma AfterAgain(head: string, front: string, last: string, after: string, k: nat, end: string)
    requires front != "" && front[|front| - 1] == '\n' && OneLine(last) && last != "" && k <= |front| + |last|
    ensures var r := head + (front + (last + Tail(after)));
            && |head| + k <= |r|
            && if k < |front| then |Behind(r, |head| + k)| > |after| else Behind(r, |head| + k) == after
  {
    hide Behind;
    assert (head + front) + (last + Tail(after)) == head + (front + (last + Tail(after)));
    if k < |front| {
      BehindEarlier(head + (front + (last + Tail(after))), |head| + k, |head| + |front|);
    } else {
      BehindLine(head + front, last, after, |head| + k);
    }
  }

  lemma PartsAt(r: string, start: string, end: string, before: string, indent: string, endIndex: nat)
    requires IndexFrom(r, start, 0) == |before + indent| && IndexFrom(r, end, |before + indent|) == endIndex
    requires |before + indent| <= |r| && endIndex <= |r| && r[..|before + indent|] == before + indent
    requires LastNewline(r, |before + indent|) + 1 == |before|
    ensures FindBlock(r, start, end) == Block(Parts(before, indent, Behind(r, endIndex)))
  {
    hide IndexFrom, LastNewline, Behind;
    assert r[..|before|] == r[..|before + indent|][..|before|] == before;
    assert r[|before|..|before + indent|] == r[..|before + indent|][|before|..] == indent;
  }

  lemma FrontEndsLine(p: Parts, start: string, lines: seq<string>)
    ensures var front := Front(p, start, lines); front != "" && front[|front| - 1] == '\n'
  {
  }

  lemma HeadAgain(text: string, start: string, end: string, lines: seq<string>)
    requires IsMarker(start) && FindBlock(text, start, end).Block?
    ensures var p := FindBlock(text, start, end).parts;
            var r := Assemble(p, start, end, lines);
            && IndexFrom(r, start, 0) == |p.before + p.indent|
            && |p.before + p.indent| <= |r| && r[..|p.before + p.indent|] == p.before + p.indent
            && LastNewline(r, |p.before + p.indent|) + 1 == |p.before|
  {
    var i := IndexFrom(text, start, 0);
    HeadOfBlock(text, start, i, IndexFrom(text, end, i));
    var p := FindBlock(text, start, end).parts;
    AssembledShape(p, start, end, lines);
    var y := "\n" + Middle(p.indent, lines) + ((p.indent + end) + Tail(p.after));
    FrontShape(start, Middle(p.indent, lines), (p.indent + end) + Tail(p.after));
    StartAgain(text, start, i, p.before + p.indent, y);
  }

  lemma FrontShape(start: string, m: string, rest: string)
    ensures (start + "\n" + m) + rest == start + ("\n" + m + rest)
  {
  }

  lemma StartAgain(text: string, start: string, i: nat, head: string, y: string)
    requires IsMarker(start) && IndexFrom(text, start, 0) == i && i <= |text| && head == text[..i]
    ensures var r := head + (start + y);
            IndexFrom(r, start, 0) == i && r[..i] == head && LastNewline(r, i) == LastNewline(text, i)
  {
    var r := head + (start + y);
    var x := text[i + |start|..];
    SplitAtStart(text, start, i);
    IndexIsFirst(text, start, 0);
    FirstStays(head, start, x, y);
    assert text[..i + 1] == r[..i + 1];
    LastNewlineAgrees(text, r, i + 1, i);
  }

  lemma SplitAtStart(text: string, start: string, i: nat)
    requires OccursAt(text, start, i)
    ensures text == text[..i] + (start + text[i + |start|..])
  {
  }

  // ---------------------------------------------------------------- rewriting again

  lemma LongerAfter(p: Parts, q: Parts, start: string, end: string, lines: seq<string>)
    requires p.before == q.before && p.indent == q.indent && |q.after| > |p.after|
    ensures Assemble(p, start, end, lines) != Assemble(q, start, end, lines)
  {
    AssembledShape(p, start, end, lines);
    AssembledShape(q, start, end, lines);
    assert |Assemble(p, start, end, lines)| < |Assemble(q, start, end, lines)|;
  }

  /** A later rewrite overrides an earlier one, as if the earlier had never been, exactly when the earlier one wrote
      no end marker before its last line. With equal lines: rewriting twice is rewriting once. */
  lemma LaterRewriteWins(text: string, start: string, end: string, first: seq<string>, second: seq<string>)
    requires IsMarker(start) && IsMarker(end) && ReplaceBlockLines(text, start, end, first).Text?
    ensures var once := ReplaceBlockLines(text, start, end, first).text;
            ReplaceBlockLines(once, start, end, second) == ReplaceBlockLines(text, start, end, second)
            <==> !QuotesEnd(FindBlock(text, start, end).parts.indent, start, end, first)
  {
    var p := FindBlock(text, start, end).parts;
    FoundAgain(text, start, end, first);
    var again := FindBlock(Assemble(p, start, end, first), start, end).parts;
    if QuotesEnd(p.indent, start, end, first) {
      LongerAfter(p, again, start, end, second);
    }
  }

  /** What stands before the line of the start marker and behind the line of the end marker is kept; only the last
      newline of the text goes when nothing follows the block. */
  lemma OutsideIsKept(text: string, start: string, end: string, lines: seq<string>)
    requires IsMarker(start) && ReplaceBlockLines(text, start, end, lines).Text?
    ensures var p, r := FindBlock(text, start, end).parts, ReplaceBlockLines(text, start, end, lines).text;
            && p.before <= text && (p.before == "" || p.before[|p.before| - 1] == '\n') && OneLine(p.indent)
            && HasSuffix(text, p.after)
            && r == p.before + (p.indent + Front(p, start, lines) + (p.indent + end)) + Tail(p.after)
  {
    var i := IndexFrom(text, start, 0);
    var p := FindBlock(text, start, end).parts;
    HeadOfBlock(text, start, i, IndexFrom(text, end, i));
    AssembledShape(p, start, end, lines);
    RegroupAll(p.before, p.indent, Front(p, start, lines), p.indent + end, Tail(p.after));
  }

  lemma RegroupAll(a: string, b: string, c: string, d: string, e: string)
    ensures (a + b) + (c + (d + e)) == a + (b + c + d) + e
  {
  }
}
