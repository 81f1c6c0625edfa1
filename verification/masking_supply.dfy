/** When a placeholder name can be handed out although the text to be masked already contains it: the search for
    names in the text continues behind each match, so it misses a name that begins with a match's last
    underscores, and nothing else. */
module MaskingSupply {
  import opened Texts
  import opened Decimal
  import opened Masking

  /** The search, continued at `from`, stops at i with a match. */
  ghost predicate IsHit(s: string, from: nat, i: nat)
    requires from <= |s|
    decreases |s| - from
  {
    var end := PlaceholderAt(s, from);
    if end > from then i == from || IsHit(s, end, i)
    else if from < |s| then IsHit(s, from + 1, i)
    else false
  }

  /** The first or the second character at i is the last one of a match. */
  ghost predicate Shadowed(s: string, i: nat) {
    exists m: nat :: m <= |s| && IsHit(s, 0, m) && i + 1 <= PlaceholderAt(s, m) <= i + 2
  }

  // ---------------------------------------------------------------- single matches

  lemma {:induction false} RunEndIs(s: string, i: nat, j: nat)
    requires i <= j < |s| && (forall k :: i <= k < j ==> IsDigit(s[k])) && !IsDigit(s[j])
    ensures RunEnd(s, i) == j
    decreases j - i
  {
    if i < j {
      RunEndIs(s, i + 1, j);
    }
  }

  /** Where a name stands, exactly that name is matched. */
  lemma NameMatches(s: string, k: nat, i: nat)
    requires OccursAt(s, Name(k), i)
    ensures PlaceholderAt(s, i) == i + |Name(k)| && s[i..PlaceholderAt(s, i)] == Name(k)
  {
    hide Digits, RunEnd;
    var d, n := Digits(k), Name(k);
    assert n == PREFIX + (d + SUFFIX);
    HalvesOf(s, i, PREFIX, d + SUFFIX);
    HalvesOf(s, i + |PREFIX|, d, SUFFIX);
    DigitsEnd(s, i + |PREFIX|, d);
  }

  lemma HalvesOf(s: string, i: nat, a: string, b: string)
    requires OccursAt(s, a + b, i)
    ensures OccursAt(s, a, i) && OccursAt(s, b, i + |a|)
  {
    var all := s[i..i + |a + b|];
    assert all[..|a|] == a && all[|a|..] == b;
    assert s[i..i + |a|] == all[..|a|];
    assert s[i + |a|..i + |a| + |b|] == all[|a|..];
  }

  lemma DigitsEnd(s: string, i: nat, d: string)
    requires OccursAt(s, d, i) && OccursAt(s, SUFFIX, i + |d|) && forall k :: 0 <= k < |d| ==> IsDigit(d[k])
    ensures RunEnd(s, i) == i + |d|
  {
    assert forall k :: i <= k < i + |d| ==> s[k] == s[i..i + |d|][k - i];
    assert s[i + |d|] == s[i + |d|..i + |d| + 2][0] == '_';
    RunEndIs(s, i, i + |d|);
  }

  predicate AllDigits(d: string) {
    d != "" && forall i :: 0 <= i < |d| ==> IsDigit(d[i])
  }

  /** The placeholders of a text: the prefix, at least one digit, two underscores. */
  lemma PlaceholderExactly(s: string, i: nat, end: nat)
    requires i <= |s|
    ensures PlaceholderAt(s, i) == end && end > i <==>
            exists d :: AllDigits(d) && OccursAt(s, "__OC_I18N_" + (d + "__"), i) && end == i + |d| + 12
  {
    hide PlaceholderAt, OccursAt, Digits;
    if PlaceholderAt(s, i) > i {
      PlaceholderHas(s, i);
    }
    forall d | AllDigits(d) && OccursAt(s, "__OC_I18N_" + (d + "__"), i)
      ensures PlaceholderAt(s, i) == i + |d| + 12
    {
      PlaceholderIs(s, i, d);
    }
  }

  lemma PlaceholderHas(s: string, i: nat)
    requires i <= |s| && PlaceholderAt(s, i) > i
    ensures exists d :: AllDigits(d) && OccursAt(s, "__OC_I18N_" + (d + "__"), i) && PlaceholderAt(s, i) == i + |d| + 12
  {
    var j := RunEnd(s, i + |PREFIX|);
    var d := s[i + |PREFIX|..j];
    assert AllDigits(d);
    WholeOf(s, i, PREFIX, d, SUFFIX);
  }

  lemma PlaceholderIs(s: string, i: nat, d: string)
    requires i <= |s| && AllDigits(d) && OccursAt(s, "__OC_I18N_" + (d + "__"), i)
    ensures PlaceholderAt(s, i) == i + |d| + 12
  {
    HalvesOf(s, i, PREFIX, d + SUFFIX);
    HalvesOf(s, i + |PREFIX|, d, SUFFIX);
    DigitsEnd(s, i + |PREFIX|, d);
  }

  lemma WholeOf(s: string, i: nat, a: string, d: string, b: string)
    requires OccursAt(s, a, i) && OccursAt(s, d, i + |a|) && OccursAt(s, b, i + |a| + |d|)
    ensures OccursAt(s, a + (d + b), i)
  {
    var j, k := i + |a|, i + |a| + |d|;
    assert s[i..k + |b|] == s[i..j] + (s[j..k] + s[k..k + |b|]);
  }

  /** What is collected from a text is a placeholder that occurs in it. */
  lemma CollectedShape(s: string, u: string)
    requires u in UsedIn(s, 0)
    ensures exists d :: AllDigits(d) && u == "__OC_I18N_" + (d + "__") && Occurs(s, u)
  {
    hide UsedIn, IsHit, OccursAt, PlaceholderAt, AllDigits, Occurs;
    var i := CollectedIsHit(s, 0, u);
    HitIsCollected(s, 0, i);
    PlaceholderHas(s, i);
    var d :| AllDigits(d) && OccursAt(s, "__OC_I18N_" + (d + "__"), i) && PlaceholderAt(s, i) == i + |d| + 12;
    SameStretch(s, "__OC_I18N_" + (d + "__"), i);
  }

  lemma SameStretch(s: string, w: string, i: nat)
    requires OccursAt(s, w, i)
    ensures i + |w| <= |s| && s[i..i + |w|] == w && Occurs(s, w)
  {
  }

  /** Names are numbered from 900000. */
  lemma FirstNameIs(s: string)
    requires !Occurs(s, "__OC_I18N_900000__")
    ensures NextName(NewGen(s)) == "__OC_I18N_900000__"
  {
    hide Occurs, UsedIn, Name;
    FirstSpelled();
    if Name(FIRST) in UsedIn(s, 0) {
      CollectedShape(s, Name(FIRST));
    }
    assert FreeFrom(FIRST, UsedIn(s, 0)) == FIRST;
  }

  lemma FirstSpelled()
    ensures Name(FIRST) == "__OC_I18N_900000__"
  {
    assert Digits(9) == "9" && Digits(90) == "90" && Digits(900) == "900";
    assert Digits(9000) == "9000" && Digits(90000) == "90000" && Digits(900000) == "900000";
  }

  /** A name can only begin at the end of a match: the third character of a name occurs nowhere else in one. */
  lemma OverlapIsShort(s: string, m: nat, i: nat)
    requires m < i < |s| && i < PlaceholderAt(s, m) && OccursAt(s, PREFIX, i)
    ensures i + 1 <= PlaceholderAt(s, m) <= i + 2
  {
    var end := PlaceholderAt(s, m);
    assert s[i..i + |PREFIX|][2] == 'O' && s[i + 2] == 'O';
    if i + 2 < end {
      MatchHasOneO(s, m, i + 2);
    }
  }

  lemma MatchHasOneO(s: string, m: nat, k: nat)
    requires m <= k < |s| && k < PlaceholderAt(s, m)
    ensures s[k] == 'O' ==> k == m + 2
  {
    var j := RunEnd(s, m + |PREFIX|);
    if k < m + |PREFIX| {
      assert s[k] == s[m..m + |PREFIX|][k - m] == PREFIX[k - m];
      PrefixHasOneO(k - m);
    } else if k >= j {
      assert s[k] == s[j..j + |SUFFIX|][k - j] == '_';
    } else {
      assert IsDigit(s[k]);
    }
  }

  lemma PrefixHasOneO(x: nat)
    requires x < |PREFIX|
    ensures PREFIX[x] == 'O' ==> x == 2
  {
    assert forall k :: 3 <= k < |PREFIX| ==> PREFIX[k] != 'O';
  }

  // ---------------------------------------------------------------- the search

  lemma {:induction false} HitIsCollected(s: string, from: nat, i: nat)
    requires from <= |s| && IsHit(s, from, i)
    ensures from <= i <= |s| && i < PlaceholderAt(s, i) && s[i..PlaceholderAt(s, i)] in UsedIn(s, from)
    decreases |s| - from
  {
    var end := PlaceholderAt(s, from);
    if end > from {
      if i != from {
        HitIsCollected(s, end, i);
      }
    } else {
      HitIsCollected(s, from + 1, i);
    }
  }

  lemma {:induction false} CollectedIsHit(s: string, from: nat, u: string) returns (i: nat)
    requires from <= |s| && u in UsedIn(s, from)
    ensures i <= |s| && IsHit(s, from, i) && s[i..PlaceholderAt(s, i)] == u
    decreases |s| - from
  {
    var end := PlaceholderAt(s, from);
    if end > from {
      if u == s[from..end] {
        i := from;
      } else {
        i := CollectedIsHit(s, end, u);
      }
    } else {
      i := CollectedIsHit(s, from + 1, u);
    }
  }

  /** A match is hit unless another hit reaches into it. */
  lemma {:induction false} HitOrCovered(s: string, from: nat, i: nat)
    requires from <= i <= |s| && PlaceholderAt(s, i) > i
    ensures IsHit(s, from, i)
         || exists m: nat :: m < i && IsHit(s, from, m) && i < PlaceholderAt(s, m)
    decreases |s| - from
  {
    var end := PlaceholderAt(s, from);
    if end > from {
      if end <= i {
        HitOrCovered(s, end, i);
        if m: nat :| m < i && IsHit(s, end, m) && i < PlaceholderAt(s, m) {
          assert IsHit(s, from, m);
        }
      } else {
        assert IsHit(s, from, from);
      }
    } else if from < i {
      HitOrCovered(s, from + 1, i);
      if m: nat :| m < i && IsHit(s, from + 1, m) && i < PlaceholderAt(s, m) {
        assert IsHit(s, from, m);
      }
    }
  }

  lemma {:induction false} HitsAreDisjoint(s: string, from: nat, m: nat, i: nat)
    requires from <= |s| && m < i <= |s| && IsHit(s, from, m) && IsHit(s, from, i)
    ensures PlaceholderAt(s, m) <= i
    decreases |s| - from
  {
    var end := PlaceholderAt(s, from);
    if end > from {
      if m == from {
        HitIsCollected(s, end, i);
      } else {
        HitIsCollected(s, end, m);
        HitsAreDisjoint(s, end, m, i);
      }
    } else {
      HitsAreDisjoint(s, from + 1, m, i);
    }
  }

  lemma HitIsNotShadowed(s: string, i: nat)
    requires i <= |s| && IsHit(s, 0, i) && PlaceholderAt(s, i) > i + 2
    ensures !Shadowed(s, i)
  {
    forall m: nat | m <= |s| && IsHit(s, 0, m)
      ensures !(i + 1 <= PlaceholderAt(s, m) <= i + 2)
    {
      HitIsCollected(s, 0, m);
      if m < i {
        HitsAreDisjoint(s, 0, m, i);
      } else if i < m {
        HitsAreDisjoint(s, 0, i, m);
      }
    }
  }

  // ---------------------------------------------------------------- what is missed, and what follows

  /** A name is collected exactly when it occurs somewhere in the text without sharing its leading underscores
      with a match before it. */
  lemma NameIsCollectedExactly(s: string, k: nat)
    ensures Name(k) in UsedIn(s, 0) <==> exists i: nat :: OccursAt(s, Name(k), i) && !Shadowed(s, i)
  {
    if Name(k) in UsedIn(s, 0) {
      var i := CollectedIsHit(s, 0, Name(k));
      HitIsCollected(s, 0, i);
      assert OccursAt(s, Name(k), i);
      HitIsNotShadowed(s, i);
    }
    forall i: nat | OccursAt(s, Name(k), i) && !Shadowed(s, i)
      ensures Name(k) in UsedIn(s, 0)
    {
      UnshadowedIsCollected(s, k, i);
    }
  }

  lemma UnshadowedIsCollected(s: string, k: nat, i: nat)
    requires OccursAt(s, Name(k), i) && !Shadowed(s, i)
    ensures Name(k) in UsedIn(s, 0)
  {
    NameMatches(s, k, i);
    HitOrCovered(s, 0, i);
    if m: nat :| m < i && IsHit(s, 0, m) && i < PlaceholderAt(s, m) {
      NameStartsWithPrefix(s, k, i);
      OverlapIsShort(s, m, i);
    }
    HitIsCollected(s, 0, i);
  }

  lemma NameStartsWithPrefix(s: string, k: nat, i: nat)
    requires OccursAt(s, Name(k), i)
    ensures OccursAt(s, PREFIX, i)
  {
    assert Name(k) == PREFIX + (Digits(k) + SUFFIX);
    assert s[i..i + |Name(k)|][..|PREFIX|] == PREFIX;
  }

  /** The supply after n names. */
  function Supply(text: string, n: nat): Gen {
    if n == 0 then NewGen(text) else NextGen(Supply(text, n - 1))
  }

  /** Every name ever handed out for a text can occur in it only in the shadow of matches. */
  lemma SuppliedOnlyShadowed(text: string, n: nat, i: nat)
    requires OccursAt(text, NextName(Supply(text, n)), i)
    ensures Shadowed(text, i)
  {
    SupplyKeepsUsed(text, n);
    var k: nat :| NextName(Supply(text, n)) == Name(k);
    NameIsCollectedExactly(text, k);
  }

  lemma {:induction false} SupplyKeepsUsed(text: string, n: nat)
    ensures UsedIn(text, 0) <= Supply(text, n).used
  {
    if n > 0 {
      SupplyKeepsUsed(text, n - 1);
    }
  }

  /** A text that begins with a name's prefix and digits and goes on with the first name of the supply. */
  function Overlapping(d: nat, rest: string): string {
    (PREFIX + Digits(d)) + (Name(FIRST) + rest)
  }

  lemma OverlapBegins(d: nat, rest: string)
    requires d != FIRST
    ensures var text, front := Overlapping(d, rest), PREFIX + Digits(d);
            && OccursAt(text, Name(FIRST), |front|) && PlaceholderAt(text, 0) == |front| + 2
            && forall i: nat :: i < |front| ==> !OccursAt(text, Name(FIRST), i)
  {
    hide Digits, PlaceholderAt;
    var text, front, n := Overlapping(d, rest), PREFIX + Digits(d), Name(FIRST);
    assert text[|front|..|front| + |n|] == n;
    NameStartsText(d, rest);
    NameMatches(text, d, 0);
    forall i: nat | i < |front|
      ensures !OccursAt(text, n, i)
    {
      if OccursAt(text, n, i) {
        OnlyAtTheEnd(text, d, i);
      }
    }
  }

  lemma OnlyAtTheEnd(text: string, d: nat, i: nat)
    requires d != FIRST && OccursAt(text, Name(d), 0) && OccursAt(text, Name(FIRST), i)
    ensures i + 2 >= |Name(d)|
  {
    hide Digits, PlaceholderAt;
    NameMatches(text, d, 0);
    if i == 0 {
      NameMatches(text, FIRST, 0);
      NameInjective(d, FIRST);
    } else if i < |Name(d)| {
      NameStartsWithPrefix(text, FIRST, i);
      OverlapIsShort(text, 0, i);
    }
  }

  lemma NameStartsText(d: nat, rest: string)
    ensures OccursAt(Overlapping(d, rest), Name(d), 0)
  {
    hide Digits;
    var core := "OC_I18N_" + Digits(FIRST) + SUFFIX;
    assert Name(FIRST) == SUFFIX + core;
    ConcatAssociates(SUFFIX, core, rest);
    ConcatAssociates(PREFIX + Digits(d), SUFFIX, core + rest);
    OccursInFront(Name(d), core + rest);
  }

  lemma OccursInFront(a: string, b: string)
    ensures OccursAt(a + b, a, 0)
  {
  }

  /** It does happen: in `__OC_I18N_5__OC_I18N_900000__` the second name shares its underscores with the first,
      is not collected, and is the first one handed out. */
  lemma TextNameIsHandedOut(d: nat, rest: string)
    requires d != FIRST && '_' !in rest
    ensures var text := Overlapping(d, rest);
            OccursAt(text, Name(FIRST), |PREFIX + Digits(d)|) && NextName(NewGen(text)) == Name(FIRST)
  {
    hide Digits, NextGen;
    var text, front, n := Overlapping(d, rest), PREFIX + Digits(d), Name(FIRST);
    OverlapBegins(d, rest);
    assert IsHit(text, 0, 0);
    forall i: nat | OccursAt(text, n, i)
      ensures Shadowed(text, i)
    {
      if i > |front| {
        NameNeedsUnderscores(front, n, rest, i);
      }
    }
    NameIsCollectedExactly(text, FIRST);
  }

  lemma NameNeedsUnderscores(front: string, n: string, rest: string, i: nat)
    requires '_' !in rest && n != "" && n[|n| - 1] == '_' && i > |front|
    ensures !OccursAt(front + (n + rest), n, i)
  {
    var text := front + (n + rest);
    if i + |n| <= |text| {
      assert text[i..i + |n|][|n| - 1] == rest[i - |front| - 1];
    }
  }
}
