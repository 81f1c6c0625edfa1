/** Slicing and truncating without cutting a surrogate pair, src/utils.ts. Surrogates are those of section 2.1 of
    RFC 2781. */
module Utf16Slices {
  import opened JsMaps
  import opened Utf16

  function Clamp(len: nat, x: int): (r: nat)
    ensures r <= len
  {
    if x < 0 then (if len + x > 0 then len + x else 0) else if x < len then x else len
  }

  /** The requested range: negative bounds count from the end, both are clamped, and swapped bounds are put in order. */
  function Requested(len: nat, start: int, end: Option<int>): (r: (nat, nat))
    ensures r.0 <= r.1 <= len
  {
    var a, b := Clamp(len, start), if end.None? then len else Clamp(len, end.value);
    if b < a then (b, a) else (a, b)
  }

  /** Position k lies between the halves of a surrogate pair. */
  predicate SplitsPair(s: Text16, k: nat) {
    0 < k < |s| && IsHigh(s[k - 1]) && IsLow(s[k])
  }

  /** The bounds that are used: the requested ones, moved inwards past a split pair. They may cross. */
  function SafeBounds(s: Text16, start: int, end: Option<int>): (r: (int, int))
    ensures 0 <= r.0 <= |s| && r.1 <= |s|
  {
    var (a, b) := Requested(|s|, start, end);
    (if SplitsPair(s, a) then a + 1 else a, if SplitsPair(s, b) then b - 1 else b)
  }

  function SafeSlice(s: Text16, start: int, end: Option<int>): Text16 {
    var (from, to) := SafeBounds(s, start, end);
    if from <= to then s[from..to] else []
  }

  method SliceUtf16Safe(input: Text16, start: int, end: Option<int>) returns (r: Text16)
    ensures r == SafeSlice(input, start, end)
  {
    hide IsHigh, IsLow;
    var len := |input|;
    var from := Clamp(len, start);
    var to := if end.None? then len else Clamp(len, end.value);
    if to < from {
      from, to := to, from;
    }
    assert (from, to) == Requested(len, start, end);
    ghost var a, b := from, to;
    hide Requested, Clamp;
    if 0 < from < len {
      if IsLow(input[from]) && IsHigh(input[from - 1]) {
        from := from + 1;
      }
    }
    if 0 < to < len {
      if IsHigh(input[to - 1]) && IsLow(input[to]) {
        to := to - 1;
      }
    }
    assert from == if SplitsPair(input, a) then a + 1 else a;
    assert to == if SplitsPair(input, b) then b - 1 else b;
    assert (from, to) == SafeBounds(input, start, end);
    r := if from <= to then input[from..to] else [];
  }

  function Truncated(s: Text16, maxLen: int): Text16 {
    var limit := if maxLen < 0 then 0 else maxLen;
    if |s| <= limit then s else SafeSlice(s, 0, Some(limit))
  }

  // ---------------------------------------------------------------- what the result is

  ghost predicate WellFormedAt(s: Text16, i: nat)
    requires i < |s|
  {
    && (IsHigh(s[i]) ==> i + 1 < |s| && IsLow(s[i + 1]))
    && (IsLow(s[i]) ==> i > 0 && IsHigh(s[i - 1]))
  }

  ghost predicate WellFormed(s: Text16) {
    forall i: nat :: i < |s| ==> WellFormedAt(s, i)
  }

  /** In a well-formed text a part is well-formed exactly when neither end splits a pair. */
  lemma PartWellFormed(s: Text16, a: nat, b: nat)
    requires WellFormed(s) && a < b <= |s|
    ensures WellFormed(s[a..b]) <==> !SplitsPair(s, a) && !SplitsPair(s, b)
  {
    var t := s[a..b];
    forall i: nat | i < b - a
      ensures WellFormedAt(t, i) <==> !(i == 0 && SplitsPair(s, a)) && !(i == b - a - 1 && SplitsPair(s, b)) {
      assert t[i] == s[a + i] && WellFormedAt(s, a + i);
      assert i > 0 ==> t[i - 1] == s[a + i - 1];
      assert i + 1 < b - a ==> t[i + 1] == s[a + i + 1];
    }
    if SplitsPair(s, a) {
      assert !WellFormedAt(t, 0);
    }
    if SplitsPair(s, b) {
      assert !WellFormedAt(t, b - a - 1);
    }
  }

  /** Two pairs cannot overlap. */
  lemma PairsApart(s: Text16, k: nat)
    requires SplitsPair(s, k)
    ensures !SplitsPair(s, k + 1) && !SplitsPair(s, k - 1)
  {
  }

  /** A well-formed text gives a well-formed slice: the longest well-formed part of the requested range, for every
      such part lies within its bounds. It is at most one unit shorter than the range at each end. */
  lemma SafeSliceIsLongest(s: Text16, start: int, end: Option<int>, a: nat, b: nat)
    requires WellFormed(s)
    requires var q := Requested(|s|, start, end); q.0 <= a < b <= q.1 && WellFormed(s[a..b])
    ensures var (from, to) := SafeBounds(s, start, end);
            from <= a && b <= to && SafeSlice(s, start, end) == s[from..to]
  {
    PartWellFormed(s, a, b);
  }

  lemma SafeSliceWellFormed(s: Text16, start: int, end: Option<int>)
    requires WellFormed(s)
    ensures var q := Requested(|s|, start, end);
            var (from, to) := SafeBounds(s, start, end);
            && q.0 <= from <= q.0 + 1 && q.1 - 1 <= to <= q.1
            && WellFormed(SafeSlice(s, start, end))
  {
    var q := Requested(|s|, start, end);
    var (from, to) := SafeBounds(s, start, end);
    if SplitsPair(s, q.0) {
      PairsApart(s, q.0);
    }
    if SplitsPair(s, q.1) {
      PairsApart(s, q.1);
    }
    if from < to {
      PartWellFormed(s, from, to);
    }
  }

  /** The order of two explicit bounds does not matter. */
  lemma SwappedBounds(s: Text16, a: int, b: int)
    ensures SafeSlice(s, a, Some(b)) == SafeSlice(s, b, Some(a))
  {
  }

  /** Cutting a text in two loses nothing, except the pair the cut would split. */
  lemma CutInTwo(s: Text16, k: nat)
    requires k <= |s|
    ensures SafeSlice(s, 0, Some(k)) + SafeSlice(s, k, None)
         == if SplitsPair(s, k) then s[..k - 1] + s[k + 1..] else s
  {
    assert !SplitsPair(s, 0) && !SplitsPair(s, |s|);
    assert s[..k] + s[k..] == s;
  }

  /** Truncation gives a prefix within the limit, one unit short of it exactly when the limit would split a pair. */
  lemma TruncatedPrefix(s: Text16, maxLen: int)
    ensures var r, limit := Truncated(s, maxLen), if maxLen < 0 then 0 else maxLen;
            && r <= s && |r| <= limit && (|s| <= limit ==> r == s)
            && (|s| > limit ==> |r| == if SplitsPair(s, limit) then limit - 1 else limit)
            && (WellFormed(s) ==> WellFormed(r))
  {
    var r, limit := Truncated(s, maxLen), if maxLen < 0 then 0 else maxLen;
    if |s| > limit {
      var to := if SplitsPair(s, limit) then limit - 1 else limit;
      assert r == s[0..to];
      if WellFormed(s) && 0 < to {
        if to < limit {
          PairsApart(s, limit);
        }
        PartWellFormed(s, 0, to);
      }
    }
  }

  /** Bound x stands for position p: a negative bound counts from the end and stops at the beginning, a bound behind the
      end is the end. */
  predicate StandsFor(len: nat, x: int, p: int) {
    && (0 <= x <= len ==> p == x) && (x > len ==> p == len)
    && (x < 0 <= len + x ==> p == len + x) && (len + x < 0 ==> p == 0)
  }

  /** A slice with any bounds is the slice between the positions they stand for; no second bound means the end. */
  lemma BoundsMean(s: Text16, start: int, end: Option<int>, a: nat, b: nat)
    requires StandsFor(|s|, start, a) && if end.None? then b == |s| else StandsFor(|s|, end.value, b)
    ensures SafeSlice(s, start, end) == SafeSlice(s, a, Some(b))
  {
    hide SplitsPair, StandsFor, Requested;
    SameRange(|s|, start, end, a, b);
  }

  lemma SameRange(len: nat, start: int, end: Option<int>, a: nat, b: nat)
    requires StandsFor(len, start, a) && if end.None? then b == len else StandsFor(len, end.value, b)
    ensures Requested(len, start, end) == Requested(len, a, Some(b))
  {
  }

  /** Between bounds within the text that split no pair, the slice is exactly the part between them. */
  lemma PlainSlice(s: Text16, a: nat, b: nat)
    requires a <= b <= |s| && !SplitsPair(s, a) && !SplitsPair(s, b)
    ensures SafeSlice(s, a, Some(b)) == s[a..b]
  {
  }
}
