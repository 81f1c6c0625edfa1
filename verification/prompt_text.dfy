/** Turning a prompt's blocks into one text within a byte limit, src/acp/event-mapper.ts. Texts are UTF-16 code
    units; their size is that of their UTF-8 form. */
module PromptTexts {
  import Texts
  import opened JsMaps
  import opened Utf16

  // ---------------------------------------------------------------- bytes

  /** A Unicode scalar value. */
  type CodePoint = n: nat | n < 0x110000 && !(0xD800 <= n <= 0xDFFF)

  type Byte = n: nat | n < 0x100

  const REPLACEMENT: CodePoint := 0xFFFD

  function PairPoint(high: CodeUnit, low: CodeUnit): CodePoint
    requires IsHigh(high) && IsLow(low)
  {
    0x10000 + (high - 0xD800) * 0x400 + (low - 0xDC00)
  }

  predicate StartsWithPair(s: Text16) {
    |s| > 1 && IsHigh(s[0]) && IsLow(s[1])
  }

  /** The first character and the number of units it takes. Section 2.1 of RFC 2781; a lone surrogate becomes
      U+FFFD. */
  function First(s: Text16): (r: (CodePoint, nat))
    requires s != []
    ensures 0 < r.1 <= |s|
  {
    if StartsWithPair(s) then (PairPoint(s[0], s[1]), 2)
    else (if IsHigh(s[0]) || IsLow(s[0]) then REPLACEMENT else s[0], 1)
  }

  function Decode(s: Text16): seq<CodePoint> {
    if s == [] then [] else [First(s).0] + Decode(s[First(s).1..])
  }

  /** Section 3 of RFC 3629. */
  function EncodePoint(c: CodePoint): (bytes: seq<Byte>)
    ensures |bytes| == if c < 0x80 then 1 else if c < 0x800 then 2 else if c < 0x10000 then 3 else 4
  {
    if c < 0x80 then [c]
    else if c < 0x800 then [0xC0 + c / 0x40, 0x80 + c % 0x40]
    else if c < 0x10000 then [0xE0 + c / 0x1000, 0x80 + c / 0x40 % 0x40, 0x80 + c % 0x40]
    else [0xF0 + c / 0x40000, 0x80 + c / 0x1000 % 0x40, 0x80 + c / 0x40 % 0x40, 0x80 + c % 0x40]
  }

  function Encode(cs: seq<CodePoint>): seq<Byte> {
    if cs == [] then [] else EncodePoint(cs[0]) + Encode(cs[1..])
  }

  /** `Buffer.byteLength(s, "utf-8")`. */
  function ByteLength(s: Text16): nat {
    |Encode(Decode(s))|
  }

  lemma {:induction false} EncodeConcat(a: seq<CodePoint>, b: seq<CodePoint>)
    ensures |Encode(a + b)| == |Encode(a)| + |Encode(b)|
  {
    if a == [] {
      assert a + b == b;
    } else {
      EncodeConcat(a[1..], b);
      assert (a + b)[1..] == a[1..] + b;
    }
  }

  /** A pair of surrogates would form across the seam. */
  predicate JoinsPair(a: Text16, b: Text16) {
    a != [] && b != [] && IsHigh(a[|a| - 1]) && IsLow(b[0])
  }

  lemma {:induction false} DecodeConcat(a: Text16, b: Text16)
    requires !JoinsPair(a, b)
    ensures Decode(a + b) == Decode(a) + Decode(b)
  {
    hide First, JoinsPair;
    if a == [] {
      assert a + b == b;
    } else {
      var n := First(a).1;
      FirstOfConcat(a, b);
      DecodeConcat(a[n..], b);
      DropFront(a, b, n);
      Texts.ConcatAssociates([First(a).0], Decode(a[n..]), Decode(b));
    }
  }

  lemma DropFront(a: Text16, b: Text16, n: nat)
    requires n <= |a|
    ensures (a + b)[n..] == a[n..] + b
  {
  }

  lemma FirstOfConcat(a: Text16, b: Text16)
    requires a != [] && !JoinsPair(a, b)
    ensures First(a + b) == First(a) && !JoinsPair(a[First(a).1..], b)
  {
  }

  lemma DecodePair(high: CodeUnit, low: CodeUnit)
    requires IsHigh(high) && IsLow(low)
    ensures Decode([high, low]) == [PairPoint(high, low)]
    ensures Decode([high]) == [REPLACEMENT] && Decode([low]) == [REPLACEMENT]
  {
    assert [high, low][2..] == [] && [high][1..] == [] && [low][1..] == [];
  }

  lemma OnePoint(c: CodePoint)
    ensures |Encode([c])| == |EncodePoint(c)|
  {
    assert [c][1..] == [];
  }

  lemma BytesAdd(a: Text16, b: Text16)
    requires !JoinsPair(a, b)
    ensures ByteLength(a + b) == ByteLength(a) + ByteLength(b)
  {
    DecodeConcat(a, b);
    EncodeConcat(Decode(a), Decode(b));
  }

  /** Byte lengths add up exactly when no surrogate pair forms at the seam: the pair takes four bytes, its lone
      halves three each. */
  lemma ByteLengthsAdd(a: Text16, b: Text16)
    ensures ByteLength(a + b) == ByteLength(a) + ByteLength(b) - (if JoinsPair(a, b) then 2 else 0)
  {
    if JoinsPair(a, b) {
      var x, h, l, y := a[..|a| - 1], a[|a| - 1], b[0], b[1..];
      assert a == x + [h] && b == [l] + y && a + b == x + ([h, l] + y);
      BytesAdd(x, [h]);
      BytesAdd([l], y);
      BytesAdd([h, l], y);
      BytesAdd(x, [h, l] + y);
      DecodePair(h, l);
      OnePoint(PairPoint(h, l));
      OnePoint(REPLACEMENT);
    } else {
      BytesAdd(a, b);
    }
  }

  // ---------------------------------------------------------------- escaping

  predicate IsInlineControl(c: CodeUnit) {
    c <= 0x1F || 0x7F <= c <= 0x9F || c == 0x2028 || c == 0x2029
  }

  function HexDigit(d: nat): CodeUnit
    requires d < 16
  {
    if d < 10 then 0x30 + d else 0x61 + d - 10
  }

  const BACKSLASH: CodeUnit := 0x5C

  /** The named escapes, and `\xhh` for every other control character. */
  function EscapedUnit(c: CodeUnit): (r: Text16)
    ensures forall i :: 0 <= i < |r| ==> !IsInlineControl(r[i])
  {
    if !IsInlineControl(c) then [c]
    else if c == 0x00 then [BACKSLASH, 0x30]
    else if c == 0x0D then [BACKSLASH, 0x72]
    else if c == 0x0A then [BACKSLASH, 0x6E]
    else if c == 0x09 then [BACKSLASH, 0x74]
    else if c == 0x0B then [BACKSLASH, 0x76]
    else if c == 0x0C then [BACKSLASH, 0x66]
    else if c == 0x2028 then [BACKSLASH, 0x75, 0x32, 0x30, 0x32, 0x38]
    else if c == 0x2029 then [BACKSLASH, 0x75, 0x32, 0x30, 0x32, 0x39]
    else [BACKSLASH, 0x78, HexDigit(c / 16), HexDigit(c % 16)]
  }

  function Escaped(s: Text16): (r: Text16)
    ensures forall i :: 0 <= i < |r| ==> !IsInlineControl(r[i])
  {
    if s == [] then [] else Escaped(s[..|s| - 1]) + EscapedUnit(s[|s| - 1])
  }

  method EscapeInlineControlChars(value: Text16) returns (escaped: Text16)
    ensures escaped == Escaped(value)
  {
    escaped := [];
    for i := 0 to |value|
      invariant escaped == Escaped(value[..i])
    {
      assert value[..i + 1][..i] == value[..i];
      escaped := escaped + EscapedUnit(value[i]);
    }
    assert value[..|value|] == value;
  }

  predicate IsBracket(c: CodeUnit) {
    c == 0x28 || c == 0x29 || c == 0x5B || c == 0x5D
  }

  function BracketsEscaped(s: Text16): (r: Text16)
    ensures forall i :: 0 <= i < |r| && IsBracket(r[i]) ==> i > 0 && r[i - 1] == BACKSLASH
    ensures (forall i :: 0 <= i < |s| ==> !IsInlineControl(s[i]))
        ==> (forall i :: 0 <= i < |r| ==> !IsInlineControl(r[i]))
  {
    if s == [] then []
    else
      var c := s[|s| - 1];
      BracketsEscaped(s[..|s| - 1]) + if IsBracket(c) then [BACKSLASH, c] else [c]
  }

  /** A title keeps to one line, and no bracket in it is without a backslash. */
  function EscapedTitle(s: Text16): (r: Text16)
    ensures forall i :: 0 <= i < |r| ==> !IsInlineControl(r[i]) && (IsBracket(r[i]) ==> i > 0 && r[i - 1] == BACKSLASH)
  {
    BracketsEscaped(Escaped(s))
  }

  // ---------------------------------------------------------------- blocks

  datatype Block =
    | TextBlock(text: Text16)
    | Resource(content: Option<Text16>)
    | ResourceLink(title: Option<Text16>, uri: Option<Text16>)
    | OtherBlock

  /** "[Resource link" and its following characters, as code units. */
  const LINK_HEAD: Text16 := [0x5B, 0x52, 0x65, 0x73, 0x6F, 0x75, 0x72, 0x63, 0x65, 0x20, 0x6C, 0x69, 0x6E, 0x6B]

  predicate Given(t: Option<Text16>) {
    t.Some? && t.value != []
  }

  function LinkText(title: Option<Text16>, uri: Option<Text16>): Text16 {
    LINK_HEAD
    + (if Given(title) then [0x20, 0x28] + EscapedTitle(title.value) + [0x29] else [])
    + (if Given(uri) then [0x5D, 0x20] + Escaped(uri.value) else [0x5D])
  }

  function BlockText(b: Block): Option<Text16> {
    match b
    case TextBlock(text) => Some(text)
    case Resource(content) => if Given(content) then content else None
    case ResourceLink(title, uri) => Some(LinkText(title, uri))
    case OtherBlock => None
  }

  /** A link annotation never breaks its line. */
  lemma LinkStaysOnOneLine(title: Option<Text16>, uri: Option<Text16>)
    ensures forall i :: 0 <= i < |LinkText(title, uri)| ==> !IsInlineControl(LinkText(title, uri)[i])
  {
    var a := if Given(title) then [0x20, 0x28] + EscapedTitle(title.value) + [0x29] else [];
    var b := if Given(uri) then [0x5D, 0x20] + Escaped(uri.value) else [0x5D];
    assert forall i :: 0 <= i < |LINK_HEAD| ==> !IsInlineControl(LINK_HEAD[i]);
    assert forall i :: 0 <= i < |a| ==> !IsInlineControl(a[i]);
    assert forall i :: 0 <= i < |b| ==> !IsInlineControl(b[i]);
  }

  function Parts(prompt: seq<Block>): seq<Text16> {
    if prompt == [] then []
    else
      var t := BlockText(prompt[|prompt| - 1]);
      Parts(prompt[..|prompt| - 1]) + if t.Some? then [t.value] else []
  }

  function JoinParts(parts: seq<Text16>): Text16 {
    if parts == [] then []
    else if |parts| == 1 then parts[0]
    else JoinParts(parts[..|parts| - 1]) + [NEWLINE] + parts[|parts| - 1]
  }

  lemma JoinMore(parts: seq<Text16>, t: Text16)
    ensures JoinParts(parts + [t]) == if parts == [] then t else JoinParts(parts) + [NEWLINE] + t
    ensures ByteLength(JoinParts(parts + [t]))
         == if parts == [] then ByteLength(t) else ByteLength(JoinParts(parts)) + 1 + ByteLength(t)
  {
    if parts == [] {
      assert [] + [t] == [t];
    } else {
      assert (parts + [t])[..|parts|] == parts;
      BytesAdd(JoinParts(parts), [NEWLINE]);
      BytesAdd(JoinParts(parts) + [NEWLINE], t);
      assert [NEWLINE][1..] == [] && Decode([NEWLINE]) == [NEWLINE];
      OnePoint(NEWLINE);
    }
  }

  datatype Extracted = Text(text: Text16) | TooLarge

  /** The joined text, refused exactly when there is any part and the text is larger than the limit. */
  function Extract(prompt: seq<Block>, maxBytes: Option<int>): Extracted {
    var text := JoinParts(Parts(prompt));
    if maxBytes.Some? && Parts(prompt) != [] && ByteLength(text) > maxBytes.value then TooLarge else Text(text)
  }

  lemma NextIsLarger(prompt: seq<Block>, n: nat)
    requires n < |prompt| && Parts(prompt[..n]) != []
    ensures var p, q := Parts(prompt[..n]), Parts(prompt[..n + 1]);
            q != [] && ByteLength(JoinParts(q)) >= ByteLength(JoinParts(p))
  {
    hide ByteLength, JoinParts, BlockText;
    assert prompt[..n + 1][..n] == prompt[..n];
    var t := BlockText(prompt[n]);
    if t.Some? {
      JoinMore(Parts(prompt[..n]), t.value);
    } else {
      assert Parts(prompt[..n]) + [] == Parts(prompt[..n]);
    }
  }

  lemma {:induction false} LargerLater(prompt: seq<Block>, n: nat, limit: int)
    requires n <= |prompt| && Parts(prompt[..n]) != [] && ByteLength(JoinParts(Parts(prompt[..n]))) > limit
    ensures Parts(prompt) != [] && ByteLength(JoinParts(Parts(prompt))) > limit
    decreases |prompt| - n
  {
    hide ByteLength, JoinParts, Parts;
    if n == |prompt| {
      assert prompt[..n] == prompt;
    } else {
      NextIsLarger(prompt, n);
      LargerLater(prompt, n + 1, limit);
    }
  }

  /** The running total stays the size of the parts joined so far, so the early refusal is never too early. */
  method ExtractTextFromPrompt(prompt: seq<Block>, maxBytes: Option<int>) returns (r: Extracted)
    ensures r == Extract(prompt, maxBytes)
  {
    var parts: seq<Text16> := [];
    var totalBytes := 0;
    for i := 0 to |prompt|
      invariant parts == Parts(prompt[..i])
      invariant maxBytes.Some? ==> totalBytes == ByteLength(JoinParts(parts))
      invariant maxBytes.Some? && parts != [] ==> totalBytes <= maxBytes.value
    {
      assert prompt[..i + 1][..i] == prompt[..i];
      var blockText := BlockText(prompt[i]);
      if blockText.Some? {
        JoinMore(parts, blockText.value);
        if maxBytes.Some? {
          var separatorBytes := if |parts| > 0 then 1 else 0;
          totalBytes := totalBytes + separatorBytes + ByteLength(blockText.value);
          if totalBytes > maxBytes.value {
            LargerLater(prompt, i + 1, maxBytes.value);
            return TooLarge;
          }
        }
        parts := parts + [blockText.value];
      }
    }
    assert prompt[..|prompt|] == prompt;
    r := Text(JoinParts(parts));
  }
}
