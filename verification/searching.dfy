/** Where a pattern is first found in a text that is put together from parts. */
module Searching {
  import opened Texts
  import opened Lines

  /** No occurrence of p starts within a, when `rest` follows. */
  ghost predicate NoStart(a: string, rest: string, p: string) {
    NoneIn(a + rest, p, 0, |a|)
  }

  lemma FoundAfter(a: string, p: string, rest: string)
    requires NoStart(a, p + rest, p)
    ensures IndexFrom(a + (p + rest), p, 0) == |a|
  {
    assert (p + rest)[..|p|] == p;
    OccursInRight(a, p + rest, p, |a|);
    IndexIs(a + (p + rest), p, 0, |a|);
  }

  lemma NoStartConcat(a: string, b: string, rest: string, p: string)
    requires NoStart(a, b + rest, p) && NoStart(b, rest, p)
    ensures NoStart(a + b, rest, p)
  {
    assert (a + b) + rest == a + (b + rest);
    forall j: nat | j < |a + b| ensures !OccursAt((a + b) + rest, p, j) {
      if j >= |a| {
        OccursInRight(a, b + rest, p, j);
      }
    }
  }

  lemma NoneShifted(a: string, t: string, p: string, n: nat)
    requires NoneIn(t, p, 0, n)
    ensures NoneIn(a + t, p, |a|, |a| + n)
  {
    forall j: nat | |a| <= j < |a| + n ensures !OccursAt(a + t, p, j) {
      OccursInRight(a, t, p, j);
    }
  }

  lemma FindShifted(a: string, t: string, p: string)
    requires IndexFrom(t, p, 0) >= 0
    ensures IndexFrom(a + t, p, |a|) == |a| + IndexFrom(t, p, 0)
  {
    hide IndexFrom, OccursAt, NoneIn;
    var i := IndexFrom(t, p, 0);
    IndexIsFirst(t, p, 0);
    OccursInRight(a, t, p, |a| + i);
    NoneShifted(a, t, p, i);
    IndexIs(a + t, p, |a|, |a| + i);
  }

  lemma OccursChar(s: string, p: string, j: nat, k: nat)
    requires k < |p|
    ensures OccursAt(s, p, j) ==> s[j + k] == p[k]
  {
    if OccursAt(s, p, j) {
      assert s[j..j + |p|][k] == p[k];
    }
  }

  /** A quoted pattern is found no later than in the quoting text. */
  lemma FoundWithin(a: string, x: string, rest: string, p: string)
    requires Contains(x, p)
    ensures 0 <= IndexFrom(a + (x + rest), p, 0) <= |a| + |x| - |p|
  {
    hide IndexFrom;
    var i := IndexFrom(x, p, 0);
    IndexIsFirst(x, p, 0);
    OccursWithin(a, x, rest, p, i);
    IndexFound(a + (x + rest), p, 0, |a| + i);
  }

  lemma FoundInFront(x: string, rest: string, p: string)
    requires Contains(x, p)
    ensures 0 <= IndexFrom(x + rest, p, 0) <= |x| - |p|
  {
    var i := IndexFrom(x, p, 0);
    IndexIsFirst(x, p, 0);
    OccursInLeft(x, rest, p, i);
    IndexFound(x + rest, p, 0, i);
  }

  lemma OccursWithin(a: string, x: string, rest: string, p: string, i: nat)
    requires OccursAt(x, p, i)
    ensures OccursAt(a + (x + rest), p, |a| + i)
  {
    OccursInLeft(x, rest, p, i);
    OccursInRight(a, x + rest, p, |a| + i);
  }

  lemma OneLineNoStart(x: string, rest: string, p: string)
    requires OneLine(p) && !Contains(x, p) && rest != "" && rest[0] == '\n'
    ensures NoStart(x, rest, p)
  {
    forall j: nat | j < |x| ensures !OccursAt(x + rest, p, j) {
      if j + |p| <= |x| {
        OccursInLeft(x, rest, p, j);
      } else {
        OccursChar(x + rest, p, j, |x| - j);
      }
    }
  }

  lemma NewlineNoStart(rest: string, p: string)
    requires p != "" && p[0] != '\n'
    ensures NoStart("\n", rest, p)
  {
    OccursChar("\n" + rest, p, 0, 0);
  }
}
