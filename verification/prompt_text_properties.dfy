/** That every block's text reaches the prompt on lines of its own, and that escaping loses nothing. */
module PromptTextProperties {
  import Texts
  import opened JsMaps
  import opened Utf16
  import opened PromptTexts

  // ---------------------------------------------------------------- blocks in the prompt

  /** t stands in the text, on lines of its own. */
  ghost predicate StandsIn(text: Text16, t: Text16) {
    exists a: Text16, b: Text16 :: StandsBetween(text, a, t, b)
  }

  predicate StandsBetween(text: Text16, a: Text16, t: Text16, b: Text16) {
    text == a + t + b && (a == [] || a[|a| - 1] == NEWLINE) && (b == [] || b[0] == NEWLINE)
  }

  lemma Whole(t: Text16)
    ensures StandsIn(t, t)
  {
    assert [] + t + [] == t;
    assert StandsBetween(t, [], t, []);
  }

  lemma StandsBefore(text: Text16, t: Text16, more: Text16)
    requires StandsIn(text, t)
    ensures StandsIn(text + [NEWLINE] + more, t)
  {
    var a: Text16, b: Text16 :| StandsBetween(text, a, t, b);
    var tail := b + [NEWLINE] + more;
    assert text + [NEWLINE] + more == a + t + tail;
    assert StandsBetween(text + [NEWLINE] + more, a, t, tail);
  }

  lemma StandsLast(text: Text16, t: Text16)
    ensures StandsIn(text + [NEWLINE] + t, t)
  {
    assert text + [NEWLINE] + t == (text + [NEWLINE]) + t + [];
    assert StandsBetween(text + [NEWLINE] + t, text + [NEWLINE], t, []);
  }

  lemma {:induction false} PartStands(parts: seq<Text16>, k: nat)
    requires k < |parts|
    ensures StandsIn(JoinParts(parts), parts[k])
  {
    var n := |parts| - 1;
    if n == 0 {
      Whole(parts[0]);
    } else if k == n {
      StandsLast(JoinParts(parts[..n]), parts[n]);
    } else {
      PartStands(parts[..n], k);
      StandsBefore(JoinParts(parts[..n]), parts[k], parts[n]);
    }
  }

  lemma {:induction false} BlockIsPart(prompt: seq<Block>, i: nat)
    requires i < |prompt| && BlockText(prompt[i]).Some?
    ensures exists k :: 0 <= k < |Parts(prompt)| && Parts(prompt)[k] == BlockText(prompt[i]).value
  {
    var n := |prompt| - 1;
    if i == n {
      assert Parts(prompt)[|Parts(prompt[..n])|] == BlockText(prompt[i]).value;
    } else {
      BlockIsPart(prompt[..n], i);
      var k :| 0 <= k < |Parts(prompt[..n])| && Parts(prompt[..n])[k] == BlockText(prompt[..n][i]).value;
      assert Parts(prompt)[k] == Parts(prompt[..n])[k];
    }
  }

  lemma BlockStands(prompt: seq<Block>, maxBytes: Option<int>, i: nat)
    requires i < |prompt| && BlockText(prompt[i]).Some? && Extract(prompt, maxBytes).Text?
    ensures StandsIn(Extract(prompt, maxBytes).text, BlockText(prompt[i]).value)
  {
    hide StandsIn, JoinParts, Parts, BlockText;
    BlockIsPart(prompt, i);
    var k :| 0 <= k < |Parts(prompt)| && Parts(prompt)[k] == BlockText(prompt[i]).value;
    PartStands(Parts(prompt), k);
  }

  /** In a prompt that is not refused, the text of every text block and of every embedded resource stands on lines of
      its own, and so does the annotation of every link, with its title and address escaped. */
  lemma EveryBlockIsPrompted(prompt: seq<Block>, maxBytes: Option<int>, i: nat)
    requires i < |prompt| && Extract(prompt, maxBytes).Text?
    ensures var text := Extract(prompt, maxBytes).text;
            match prompt[i]
            case TextBlock(t) => StandsIn(text, t)
            case Resource(Some(t)) => t != [] ==> StandsIn(text, t)
            case ResourceLink(title, uri) =>
              exists link :: StandsIn(text, link) && (title.Some? ==> Names(link, EscapedTitle(title.value)))
                             && (uri.Some? ==> Names(link, Escaped(uri.value)))
            case _ => true
  {
    hide StandsIn, Extract, LinkText, Names;
    if BlockText(prompt[i]).Some? {
      BlockStands(prompt, maxBytes, i);
    }
    if prompt[i].ResourceLink? {
      LinkNames(prompt[i].title, prompt[i].uri);
    }
  }

  ghost predicate Names(link: Text16, t: Text16) {
    exists a: Text16, b: Text16 :: link == a + t + b
  }

  lemma LinkNames(title: Option<Text16>, uri: Option<Text16>)
    ensures title.Some? ==> Names(LinkText(title, uri), EscapedTitle(title.value))
    ensures uri.Some? ==> Names(LinkText(title, uri), Escaped(uri.value))
  {
    hide EscapedTitle, Escaped, Names;
    var front: Text16 := if Given(title) then [0x20, 0x28] + EscapedTitle(title.value) + [0x29] else [];
    var back: Text16 := if Given(uri) then [0x5D, 0x20] + Escaped(uri.value) else [0x5D];
    NothingToEscape();
    NamesNothing(LinkText(title, uri));
    if Given(title) {
      NamesMiddle(LINK_HEAD, [0x20, 0x28], EscapedTitle(title.value), [0x29], back);
    }
    if Given(uri) {
      NamesMiddle(LINK_HEAD + front, [0x5D, 0x20], Escaped(uri.value), [], []);
      assert LinkText(title, uri) == LINK_HEAD + front + ([0x5D, 0x20] + Escaped(uri.value) + []) + [];
    }
  }

  lemma NamesNothing(link: Text16)
    ensures Names(link, [])
  {
    assert link == [] + [] + link;
  }

  lemma NamesMiddle(a: Text16, b: Text16, t: Text16, c: Text16, d: Text16)
    ensures Names(a + (b + t + c) + d, t)
  {
    assert a + (b + t + c) + d == (a + b) + t + (c + d);
  }

  lemma NothingToEscape()
    ensures Escaped([]) == [] && EscapedTitle([]) == []
  {
  }

  predicate Silent(b: Block) {
    b.OtherBlock? || (b.Resource? && (b.content.None? || b.content.value == []))
  }

  lemma {:induction false} PartsConcat(a: seq<Block>, b: seq<Block>)
    ensures Parts(a + b) == Parts(a) + Parts(b)
  {
    hide BlockText;
    if b == [] {
      assert a + b == a;
    } else {
      var n := |b| - 1;
      PartsConcat(a, b[..n]);
      assert (a + b)[..|a + b| - 1] == a + b[..n];
    }
  }

  /** Other blocks and resources without text make no difference. */
  lemma SilentBlocksAreSkipped(before: seq<Block>, b: Block, after: seq<Block>, maxBytes: Option<int>)
    requires Silent(b)
    ensures Extract(before + [b] + after, maxBytes) == Extract(before + after, maxBytes)
  {
    PartsConcat(before + [b], after);
    PartsConcat(before, [b]);
    PartsConcat(before, after);
    assert BlockText(b) == None;
    assert [b][..0] == [] && Parts([]) == [] && Parts([b]) == [] + [];
    assert Parts(before + [b] + after) == Parts(before) + [] + Parts(after) == Parts(before + after);
  }

  // ---------------------------------------------------------------- escaping can be undone

  function HexValue(c: CodeUnit): nat {
    if 0x30 <= c <= 0x39 then c - 0x30 else if 0x61 <= c <= 0x66 then c - 0x61 + 10 else 0
  }

  /** What a JavaScript string literal makes of the escape that a backslash and c begin, and how long it is. */
  function EscapeAt(s: Text16): (r: (CodeUnit, nat))
    requires |s| >= 2
    ensures 2 <= r.1 <= |s|
  {
    var c := s[1];
    if c == 0x30 then (0x00, 2)
    else if c == 0x72 then (0x0D, 2)
    else if c == 0x6E then (0x0A, 2)
    else if c == 0x74 then (0x09, 2)
    else if c == 0x76 then (0x0B, 2)
    else if c == 0x66 then (0x0C, 2)
    else if c == 0x78 && |s| >= 4 then (HexValue(s[2]) * 16 + HexValue(s[3]), 4)
    else if c == 0x75 && |s| >= 6 then
      (((HexValue(s[2]) * 16 + HexValue(s[3])) * 16 + HexValue(s[4])) * 16 + HexValue(s[5]), 6)
    else (c, 2)
  }

  /** The text a JavaScript string literal with this body stands for. */
  function Unescaped(s: Text16): Text16 {
    if s == [] then []
    else if s[0] != BACKSLASH || |s| == 1 then [s[0]] + Unescaped(s[1..])
    else [EscapeAt(s).0] + Unescaped(s[EscapeAt(s).1..])
  }

  lemma HexReadsBack(d: nat)
    requires d < 16
    ensures HexValue(HexDigit(d)) == d
  {
  }

  lemma UnitReadsBack(c: CodeUnit, rest: Text16)
    requires c != BACKSLASH
    ensures Unescaped(EscapedUnit(c) + rest) == [c] + Unescaped(rest)
  {
    var e := EscapedUnit(c);
    assert (e + rest)[|e|..] == rest;
    if IsInlineControl(c) {
      assert |e| >= 2 && e[0] == BACKSLASH;
      EscapeReadsBack(c, rest);
    }
  }

  lemma EscapeReadsBack(c: CodeUnit, rest: Text16)
    requires IsInlineControl(c)
    ensures |EscapedUnit(c)| >= 2 && EscapeAt(EscapedUnit(c) + rest) == (c, |EscapedUnit(c)|)
  {
    if c < 0x100 {
      HexReadsBack(c / 16);
      HexReadsBack(c % 16);
    }
  }

  lemma {:induction false} EscapedConcat(a: Text16, b: Text16)
    ensures Escaped(a + b) == Escaped(a) + Escaped(b)
  {
    hide EscapedUnit;
    if b == [] {
      assert a + b == a;
    } else {
      var n := |b| - 1;
      EscapedConcat(a, b[..n]);
      assert (a + b)[..|a + b| - 1] == a + b[..n];
    }
  }

  lemma EscapedFirst(c: CodeUnit, s: Text16)
    ensures Escaped([c] + s) == EscapedUnit(c) + Escaped(s)
  {
    hide EscapedUnit;
    EscapedConcat([c], s);
    assert [c][..0] == [];
    assert Escaped([]) == [];
  }

  /** Escaping control characters can be undone, if the text has no backslash of its own. */
  lemma {:induction false} EscapingReadsBack(s: Text16)
    requires BACKSLASH !in s
    ensures Unescaped(Escaped(s)) == s
  {
    hide EscapedUnit, EscapeAt;
    if s != [] {
      assert s == [s[0]] + s[1..];
      assert s[0] in s;
      EscapedFirst(s[0], s[1..]);
      UnitReadsBack(s[0], Escaped(s[1..]));
      EscapingReadsBack(s[1..]);
    }
  }

  lemma BracketsAppend(s: Text16, c: CodeUnit)
    ensures BracketsEscaped(s + [c]) == BracketsEscaped(s) + (if IsBracket(c) then [BACKSLASH, c] else [c])
  {
    assert (s + [c])[..|s|] == s;
  }

  lemma {:induction false} BracketsConcat(a: Text16, b: Text16)
    ensures BracketsEscaped(a + b) == BracketsEscaped(a) + BracketsEscaped(b)
  {
    if b == [] {
      assert a + b == a;
      assert BracketsEscaped([]) == [];
    } else {
      BracketsConcat(a, b[..|b| - 1]);
      BracketsNext(a, b[..|b| - 1], b[|b| - 1]);
      assert b == b[..|b| - 1] + [b[|b| - 1]];
    }
  }

  lemma BracketsNext(a: Text16, init: Text16, last: CodeUnit)
    requires BracketsEscaped(a + init) == BracketsEscaped(a) + BracketsEscaped(init)
    ensures BracketsEscaped(a + (init + [last])) == BracketsEscaped(a) + BracketsEscaped(init + [last])
  {
    hide BracketsEscaped, IsBracket;
    BracketsAppend(init, last);
    BracketsAppend(a + init, last);
    Texts.ConcatAssociates(a, init, [last]);
    var tail: Text16 := if IsBracket(last) then [BACKSLASH, last] else [last];
    Texts.ConcatAssociates(BracketsEscaped(a), BracketsEscaped(init), tail);
  }

  lemma {:induction false} NoBrackets(s: Text16)
    requires forall i :: 0 <= i < |s| ==> !IsBracket(s[i])
    ensures BracketsEscaped(s) == s
  {
    if s != [] {
      NoBrackets(s[..|s| - 1]);
    }
  }

  lemma TitleUnitReadsBack(c: CodeUnit, rest: Text16)
    requires c != BACKSLASH
    ensures Unescaped(BracketsEscaped(EscapedUnit(c)) + rest) == [c] + Unescaped(rest)
  {
    hide EscapeAt, EscapedUnit, BracketsEscaped, Unescaped;
    if IsBracket(c) {
      BracketReadsBack(c, rest);
    } else {
      UnitHasNoBracket(c);
      NoBrackets(EscapedUnit(c));
      UnitReadsBack(c, rest);
    }
  }

  lemma BracketReadsBack(c: CodeUnit, rest: Text16)
    requires IsBracket(c)
    ensures Unescaped(BracketsEscaped(EscapedUnit(c)) + rest) == [c] + Unescaped(rest)
  {
    hide Unescaped, EscapeAt;
    assert BracketsEscaped([]) == [] && [c][..0] == [];
    assert BracketsEscaped([c]) == [BACKSLASH, c];
    OtherEscapeReadsBack(c, rest);
  }

  lemma OtherEscapeReadsBack(c: CodeUnit, rest: Text16)
    requires IsBracket(c)
    ensures Unescaped([BACKSLASH, c] + rest) == [c] + Unescaped(rest)
  {
    var s := [BACKSLASH, c] + rest;
    assert s[2..] == rest;
    assert EscapeAt(s) == (c, 2);
  }

  lemma UnitHasNoBracket(c: CodeUnit)
    requires !IsBracket(c)
    ensures forall i :: 0 <= i < |EscapedUnit(c)| ==> !IsBracket(EscapedUnit(c)[i])
  {
  }

  /** So can a title's. */
  lemma {:induction false} TitleReadsBack(s: Text16)
    requires BACKSLASH !in s
    ensures Unescaped(EscapedTitle(s)) == s
  {
    hide EscapedUnit, EscapeAt, Escaped, BracketsEscaped;
    if s == [] {
      NothingToEscape();
    } else {
      assert s == [s[0]] + s[1..];
      assert s[0] in s;
      EscapedFirst(s[0], s[1..]);
      BracketsConcat(EscapedUnit(s[0]), Escaped(s[1..]));
      TitleUnitReadsBack(s[0], EscapedTitle(s[1..]));
      TitleReadsBack(s[1..]);
    }
  }

  /** What is escaped: the control characters of sections 0 and 1 of the code, DEL, and the two separators of lines and
      paragraphs; in a title also the four brackets. Everything else stays as it is. */
  lemma EscapedExactly(c: CodeUnit)
    ensures EscapedUnit(c) == [c] <==> 0x20 <= c <= 0x7E || 0xA0 <= c <= 0x2027 || 0x202A <= c
    ensures EscapedTitle([c]) == [c] <==>
            EscapedUnit(c) == [c] && c != '(' as int && c != ')' as int && c != '[' as int && c != ']' as int
  {
    assert [c][..0] == [] && Escaped([]) == [] && BracketsEscaped([]) == [];
    assert Escaped([c]) == EscapedUnit(c);
    if EscapedUnit(c) == [c] {
      assert BracketsEscaped([c]) == if IsBracket(c) then [BACKSLASH, c] else [c];
    } else {
      LongerEscaped(EscapedUnit(c));
    }
  }

  lemma {:induction false} LongerEscaped(s: Text16)
    ensures |BracketsEscaped(s)| >= |s|
  {
    if s != [] {
      LongerEscaped(s[..|s| - 1]);
    }
  }

  // ---------------------------------------------------------------- bytes

  predicate Tail(b: Byte) {
    0x80 <= b <= 0xBF
  }

  function Bits(b: Byte): int {
    b as int - 0x80
  }

  /** The character that begins a byte sequence and its length, by the table in section 4 of RFC 3629; overlong forms
      and surrogates are not characters. */
  function CharacterAt(s: seq<Byte>): Option<(CodePoint, nat)> {
    if s == [] then None
    else if s[0] <= 0x7F then Some((s[0], 1))
    else if 0xC2 <= s[0] <= 0xDF && |s| >= 2 && Tail(s[1]) then Some(((s[0] as int - 0xC0) * 0x40 + Bits(s[1]), 2))
    else if 0xE0 <= s[0] <= 0xEF && |s| >= 3 && Tail(s[1]) && Tail(s[2])
      && (s[0] == 0xE0 ==> s[1] >= 0xA0) && (s[0] == 0xED ==> s[1] <= 0x9F) then
      Some(((s[0] as int - 0xE0) * 0x1000 + Bits(s[1]) * 0x40 + Bits(s[2]), 3))
    else if 0xF0 <= s[0] <= 0xF4 && |s| >= 4 && Tail(s[1]) && Tail(s[2]) && Tail(s[3])
      && (s[0] == 0xF0 ==> s[1] >= 0x90) && (s[0] == 0xF4 ==> s[1] <= 0x8F) then
      Some(((s[0] as int - 0xF0) * 0x40000 + Bits(s[1]) * 0x1000 + Bits(s[2]) * 0x40 + Bits(s[3]), 4))
    else None
  }

  function Characters(s: seq<Byte>): Option<seq<CodePoint>> {
    if s == [] then Some([])
    else if CharacterAt(s).None? || CharacterAt(s).value.1 > |s| || CharacterAt(s).value.1 == 0 then None
    else
      var rest := Characters(s[CharacterAt(s).value.1..]);
      if rest.None? then None else Some([CharacterAt(s).value.0] + rest.value)
  }

  lemma PointReadsBack(c: CodePoint, rest: seq<Byte>)
    ensures CharacterAt(EncodePoint(c) + rest) == Some((c, |EncodePoint(c)|))
  {
    hide CharacterAt, EncodePoint;
    if c < 0x80 {
      OneByte(c, rest);
    } else if c < 0x800 {
      TwoBytes(c, rest);
    } else if c < 0x10000 {
      ThreeBytes(c, rest);
    } else {
      FourBytes(c, rest);
    }
  }

  lemma OneByte(c: CodePoint, rest: seq<Byte>)
    requires c < 0x80
    ensures CharacterAt(EncodePoint(c) + rest) == Some((c, |EncodePoint(c)|))
  {
  }

  lemma TwoBytes(c: CodePoint, rest: seq<Byte>)
    requires 0x80 <= c < 0x800
    ensures CharacterAt(EncodePoint(c) + rest) == Some((c, |EncodePoint(c)|))
  {
    assert c == c / 0x40 * 0x40 + c % 0x40;
  }

  lemma ThreeBytes(c: CodePoint, rest: seq<Byte>)
    requires 0x800 <= c < 0x10000
    ensures CharacterAt(EncodePoint(c) + rest) == Some((c, |EncodePoint(c)|))
  {
    assert c == c / 0x1000 * 0x1000 + c / 0x40 % 0x40 * 0x40 + c % 0x40;
  }

  lemma FourBytes(c: CodePoint, rest: seq<Byte>)
    requires 0x10000 <= c
    ensures CharacterAt(EncodePoint(c) + rest) == Some((c, |EncodePoint(c)|))
  {
    assert c == c / 0x40000 * 0x40000 + c / 0x1000 % 0x40 * 0x1000 + c / 0x40 % 0x40 * 0x40 + c % 0x40;
  }

  /** The bytes that are counted are the text's UTF-8 form: read by the table of the standard they give its characters
      again. */
  lemma {:induction false} EncodedReadsBack(cs: seq<CodePoint>)
    ensures Characters(Encode(cs)) == Some(cs)
  {
    hide EncodePoint, CharacterAt;
    if cs != [] {
      var rest := Encode(cs[1..]);
      PointReadsBack(cs[0], rest);
      EncodedReadsBack(cs[1..]);
      assert (EncodePoint(cs[0]) + rest)[|EncodePoint(cs[0])|..] == rest;
      assert cs == [cs[0]] + cs[1..];
    }
  }

  /** The character of a surrogate pair: section 2.1 of RFC 2781 writes it as this pair. */
  lemma PairReadsBack(high: CodeUnit, low: CodeUnit)
    requires IsHigh(high) && IsLow(low)
    ensures var u := PairPoint(high, low) - 0x10000;
            0 <= u < 0x100000 && high == 0xD800 + u / 0x400 && low == 0xDC00 + u % 0x400
  {
  }
}
