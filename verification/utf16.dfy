/** JavaScript strings as sequences of UTF-16 code units, with the white space of `\s` and `trim`. */
module Utf16 {
  import Texts
  type CodeUnit = n: nat | n < 0x10000

  type Text16 = seq<CodeUnit>

  const SPACE: CodeUnit := 0x20
  const NEWLINE: CodeUnit := 0x0A
  const ELLIPSIS: CodeUnit := 0x2026

  predicate IsSpace(c: CodeUnit) {
    || 0x09 <= c <= 0x0D || c == 0x20 || c == 0xA0 || c == 0x1680 || 0x2000 <= c <= 0x200A
    || c == 0x2028 || c == 0x2029 || c == 0x202F || c == 0x205F || c == 0x3000 || c == 0xFEFF
  }

  /** White space and line terminators of the ECMAScript language, one by one. */
  lemma SpaceExactly(c: CodeUnit)
    ensures IsSpace(c) <==>
            c in {0x09, 0x0A, 0x0B, 0x0C, 0x0D, 0x20, 0xA0, 0x1680, 0x2000, 0x2001, 0x2002, 0x2003, 0x2004, 0x2005,
                  0x2006, 0x2007, 0x2008, 0x2009, 0x200A, 0x2028, 0x2029, 0x202F, 0x205F, 0x3000, 0xFEFF}
  {
  }

  predicate IsHigh(c: CodeUnit) {
    0xD800 <= c <= 0xDBFF
  }

  predicate IsLow(c: CodeUnit) {
    0xDC00 <= c <= 0xDFFF
  }

  function VisibleUnit(c: CodeUnit): Text16 {
    if IsSpace(c) then [] else [c]
  }

  /** The units that are not white space, in order. */
  function Visible(s: Text16): (r: Text16)
    ensures |r| <= |s| && forall i :: 0 <= i < |r| ==> !IsSpace(r[i])
  {
    if s == [] then [] else VisibleUnit(s[0]) + Visible(s[1..])
  }

  predicate Blank(s: Text16) {
    Visible(s) == []
  }

  function TrimStart(s: Text16): (r: Text16)
    ensures |r| <= |s| && (r != [] ==> !IsSpace(r[0]))
  {
    if s != [] && IsSpace(s[0]) then TrimStart(s[1..]) else s
  }

  function TrimEnd(s: Text16): (r: Text16)
    ensures r <= s && (r != [] ==> !IsSpace(r[|r| - 1]))
  {
    if s != [] && IsSpace(s[|s| - 1]) then TrimEnd(s[..|s| - 1]) else s
  }

  /** What `replace(/\s+/g, " ")` leaves: each run of white space becomes one space. */
  function Collapse(s: Text16): (r: Text16)
    ensures |r| <= |s|
  {
    if s == [] then []
    else if !IsSpace(s[0]) then [s[0]] + Collapse(s[1..])
    else if |s| > 1 && IsSpace(s[1]) then Collapse(s[1..])
    else [SPACE] + Collapse(s[1..])
  }

  function Compact(s: Text16): (r: Text16)
    ensures |r| <= |s|
  {
    TrimEnd(TrimStart(Collapse(s)))
  }

  // ---------------------------------------------------------------- white space carries no text

  lemma {:induction false} VisibleConcat(a: Text16, b: Text16)
    ensures Visible(a + b) == Visible(a) + Visible(b)
  {
    if a == [] {
      assert a + b == b;
    } else {
      VisibleConcat(a[1..], b);
      assert (a + b)[1..] == a[1..] + b;
      Texts.ConcatAssociates(VisibleUnit(a[0]), Visible(a[1..]), Visible(b));
    }
  }

  lemma VisibleSnoc(s: Text16)
    requires s != []
    ensures Visible(s) == Visible(s[..|s| - 1]) + VisibleUnit(s[|s| - 1])
  {
    var init, last := s[..|s| - 1], [s[|s| - 1]];
    VisibleConcat(init, last);
    assert last[1..] == [];
    assert Visible(last) == VisibleUnit(last[0]);
    assert init + last == s;
  }

  lemma {:induction false} VisibleCollapse(s: Text16)
    ensures Visible(Collapse(s)) == Visible(s)
  {
    if s != [] {
      VisibleCollapse(s[1..]);
      var rest := Collapse(s[1..]);
      assert ([s[0]] + rest)[1..] == rest && ([SPACE] + rest)[1..] == rest;
    }
  }

  lemma {:induction false} VisibleTrimStart(s: Text16)
    ensures Visible(TrimStart(s)) == Visible(s)
  {
    if s != [] && IsSpace(s[0]) {
      VisibleTrimStart(s[1..]);
    }
  }

  lemma {:induction false} VisibleTrimEnd(s: Text16)
    ensures Visible(TrimEnd(s)) == Visible(s)
  {
    if s != [] && IsSpace(s[|s| - 1]) {
      VisibleTrimEnd(s[..|s| - 1]);
      VisibleSnoc(s);
    }
  }

  /** Compacting changes white space only. */
  lemma VisibleCompact(s: Text16)
    ensures Visible(Compact(s)) == Visible(s)
  {
    VisibleCollapse(s);
    VisibleTrimStart(Collapse(s));
    VisibleTrimEnd(TrimStart(Collapse(s)));
  }

  /** Single spaces between words, none at the ends. */
  ghost predicate Spaced(s: Text16) {
    forall i :: 0 <= i < |s| && IsSpace(s[i]) ==> s[i] == SPACE && (i + 1 < |s| ==> !IsSpace(s[i + 1]))
  }

  lemma {:induction false} CollapseSpaced(s: Text16)
    ensures Spaced(Collapse(s))
    ensures Collapse(s) != [] ==> s != [] && (!IsSpace(s[0]) ==> !IsSpace(Collapse(s)[0]))
  {
    if s != [] {
      CollapseSpaced(s[1..]);
    }
  }

  lemma {:induction false} TrimStartSpaced(s: Text16)
    requires Spaced(s)
    ensures Spaced(TrimStart(s))
  {
    if s != [] && IsSpace(s[0]) {
      assert Spaced(s[1..]) by {
        forall i | 0 <= i < |s| - 1 && IsSpace(s[1..][i])
          ensures s[1..][i] == SPACE && (i + 1 < |s| - 1 ==> !IsSpace(s[1..][i + 1])) {
          assert s[1..][i] == s[i + 1];
        }
      }
      TrimStartSpaced(s[1..]);
    }
  }

  lemma CompactSpaced(s: Text16)
    ensures Spaced(Compact(s))
    ensures var r := Compact(s); r != [] ==> !IsSpace(r[|r| - 1])
  {
    CollapseSpaced(s);
    TrimStartSpaced(Collapse(s));
  }
}
