/** Searching and replacing in texts, as Go's `strings` and JavaScript's `String` methods do it. */
module Texts {

  predicate OccursAt<T(==)>(s: seq<T>, p: seq<T>, i: nat) {
    i + |p| <= |s| && s[i..i + |p|] == p
  }

  ghost predicate Occurs<T>(s: seq<T>, p: seq<T>) {
    exists i: nat :: OccursAt(s, p, i)
  }

  /** The first occurrence of p in s at or after position `from`; -1 if there is none. */
  function IndexFrom<T(==)>(s: seq<T>, p: seq<T>, from: nat): (i: int)
    requires from <= |s|
    ensures i == -1 || (from <= i && OccursAt(s, p, i))
    decreases |s| - from
  {
    if OccursAt(s, p, from) then from
    else if from == |s| then -1
    else IndexFrom(s, p, from + 1)
  }

  /** No occurrence of p starts in s[lo..hi]. */
  ghost predicate NoneIn<T>(s: seq<T>, p: seq<T>, lo: nat, hi: nat) {
    forall j: nat :: lo <= j < hi ==> !OccursAt(s, p, j)
  }

  lemma {:induction false} IndexIsFirst<T>(s: seq<T>, p: seq<T>, from: nat)
    requires from <= |s|
    ensures var i := IndexFrom(s, p, from);
            NoneIn(s, p, from, if i >= 0 then i else |s| + 1)
    decreases |s| - from
  {
    if !OccursAt(s, p, from) && from < |s| {
      IndexIsFirst(s, p, from + 1);
    }
  }

  lemma IndexFound<T>(s: seq<T>, p: seq<T>, from: nat, k: nat)
    requires from <= k && OccursAt(s, p, k)
    ensures from <= IndexFrom(s, p, from) <= k
  {
    IndexIsFirst(s, p, from);
  }

  lemma IndexIs<T>(s: seq<T>, p: seq<T>, from: nat, k: nat)
    requires from <= k && OccursAt(s, p, k) && NoneIn(s, p, from, k)
    ensures IndexFrom(s, p, from) == k
  {
    IndexIsFirst(s, p, from);
  }

  predicate Contains<T(==)>(s: seq<T>, p: seq<T>)
    ensures Contains(s, p) <==> Occurs(s, p)
  {
    IndexIsFirst(s, p, 0);
    IndexFrom(s, p, 0) >= 0
  }

  predicate HasPrefix<T(==)>(s: seq<T>, p: seq<T>) {
    |p| <= |s| && s[..|p|] == p
  }

  predicate HasSuffix<T(==)>(s: seq<T>, p: seq<T>) {
    |p| <= |s| && s[|s| - |p|..] == p
  }

  /** `strings.ReplaceAll` for a non-empty pattern: leftmost occurrences that do not overlap. */
  function ReplaceAll<T(==)>(s: seq<T>, old_: seq<T>, new_: seq<T>): seq<T>
    requires old_ != []
    decreases |s|
  {
    if s == [] then []
    else if HasPrefix(s, old_) then new_ + ReplaceAll(s[|old_|..], old_, new_)
    else [s[0]] + ReplaceAll(s[1..], old_, new_)
  }

  /** White space as `strings.TrimSpace` sees it. */
  predicate IsSpace(c: char) {
    || '\t' <= c <= '\r' || c == ' ' || c == '\U{85}' || c == '\U{a0}' || c == '\U{1680}'
    || '\U{2000}' <= c <= '\U{200a}' || c == '\U{2028}' || c == '\U{2029}' || c == '\U{202f}'
    || c == '\U{205f}' || c == '\U{3000}'
  }

  /** The characters with the Unicode property White_Space, one by one. */
  lemma SpaceExactly(c: char)
    ensures IsSpace(c) <==>
            c as int in {0x09, 0x0A, 0x0B, 0x0C, 0x0D, 0x20, 0x85, 0xA0, 0x1680, 0x2000, 0x2001, 0x2002, 0x2003, 0x2004,
                         0x2005, 0x2006, 0x2007, 0x2008, 0x2009, 0x200A, 0x2028, 0x2029, 0x202F, 0x205F, 0x3000}
  {
  }

  function TrimLeft(s: string): string {
    if s != [] && IsSpace(s[0]) then TrimLeft(s[1..]) else s
  }

  function TrimRight(s: string): string {
    if s != [] && IsSpace(s[|s| - 1]) then TrimRight(s[..|s| - 1]) else s
  }

  function TrimSpace(s: string): string {
    TrimRight(TrimLeft(s))
  }

  /** Trimming leaves nothing exactly of white space. */
  lemma TrimsToNothing(s: string)
    ensures TrimSpace(s) == "" <==> forall i :: 0 <= i < |s| ==> IsSpace(s[i])
  {
    TrimLeftBlank(s);
    TrimRightBlank(TrimLeft(s));
    if s != "" && !(forall i :: 0 <= i < |s| ==> IsSpace(s[i])) {
      assert TrimLeft(s) != "";
    }
  }

  lemma {:induction false} TrimLeftBlank(s: string)
    ensures TrimLeft(s) == "" <==> forall i :: 0 <= i < |s| ==> IsSpace(s[i])
    ensures TrimLeft(s) != "" ==> !IsSpace(TrimLeft(s)[0])
  {
    if s != "" && IsSpace(s[0]) {
      TrimLeftBlank(s[1..]);
      assert forall i :: 0 < i < |s| ==> s[i] == s[1..][i - 1];
    }
  }

  lemma {:induction false} TrimRightBlank(s: string)
    ensures s != "" && !IsSpace(s[0]) ==> TrimRight(s) != ""
    ensures s == "" ==> TrimRight(s) == ""
  {
    if s != "" && IsSpace(s[|s| - 1]) {
      TrimRightBlank(s[..|s| - 1]);
    }
  }

  lemma ConcatAssociates<T>(a: seq<T>, b: seq<T>, c: seq<T>)
    ensures (a + b) + c == a + (b + c)
  {
  }

  /** An occurrence in a concatenation that lies within one part. */
  lemma OccursInLeft<T>(s: seq<T>, t: seq<T>, p: seq<T>, i: nat)
    requires i + |p| <= |s|
    ensures OccursAt(s + t, p, i) <==> OccursAt(s, p, i)
  {
    assert (s + t)[i..i + |p|] == s[i..i + |p|];
  }

  lemma OccursInRight<T>(s: seq<T>, t: seq<T>, p: seq<T>, i: nat)
    requires |s| <= i
    ensures OccursAt(s + t, p, i) <==> OccursAt(t, p, i - |s|)
  {
    if i + |p| <= |s| + |t| {
      assert (s + t)[i..i + |p|] == t[i - |s|..i - |s| + |p|];
    }
  }
}

/** Non-negative numbers in decimal notation. */
module Decimal {

  function Digit(d: nat): char
    requires d < 10
  {
    "0123456789"[d]
  }

  predicate IsDigit(c: char) {
    '0' <= c <= '9'
  }

  function Digits(n: nat): (s: string)
    ensures s != [] && forall i :: 0 <= i < |s| ==> IsDigit(s[i])
  {
    if n < 10 then [Digit(n)] else Digits(n / 10) + [Digit(n % 10)]
  }

  lemma DigitInjective(a: nat, b: nat)
    requires a < 10 && b < 10 && Digit(a) == Digit(b)
    ensures a == b
  {
  }

  /** Different numbers print differently. */
  lemma {:induction false} DigitsInjective(m: nat, n: nat)
    requires Digits(m) == Digits(n)
    ensures m == n
  {
    var s, t := Digits(m), Digits(n);
    assert s[|s| - 1] == t[|t| - 1];
    DigitInjective(m % 10, n % 10);
    if m >= 10 && n >= 10 {
      assert s[..|s| - 1] == Digits(m / 10) && t[..|t| - 1] == Digits(n / 10);
      DigitsInjective(m / 10, n / 10);
    }
  }
}
