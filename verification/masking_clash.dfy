/** What a name of the text that is handed out again does to the text. */
module MaskingClash {
  import opened Texts
  import opened Decimal
  import opened Masking
  import opened MaskingTokens
  import opened MaskingRoundTrip
  import opened MaskingSupply

  const CODE := "`x`"

  lemma {:induction false} NoBacktickUpTo(s: string, i: nat, j: nat)
    requires i <= j <= |s| && forall k :: i <= k < j ==> s[k] != '`'
    ensures FindAll(InlineCode, s, i) == FindAll(InlineCode, s, j)
    decreases j - i
  {
    hide IndexFrom, AngleLinkAt, LinkUrlAt;
    if i < j {
      NoBacktickUpTo(s, i + 1, j);
    }
  }

  lemma {:induction false} NoBrackets(s: string, i: nat)
    requires i <= |s| && forall k :: i <= k < |s| ==> s[k] != '['
    ensures FindAll(LinkUrl, s, i) == []
    decreases |s| - i
  {
    if i < |s| {
      NoBrackets(s, i + 1);
    }
  }

  lemma CodeIsFound(u: string)
    requires '`' !in u
    ensures FindAll(InlineCode, u + CODE, 0) == [Span(|u|, |u|, |u| + 3, |u| + 3)]
  {
    var s := u + CODE;
    NoBacktickUpTo(s, 0, |u|);
    FirstPlace(s, '`', |u| + 1, |u| + 2);
    assert InlineCodeAt(s, |u|) == Match(Span(|u|, |u|, |u| + 3, |u| + 3));
    assert FindAll(InlineCode, s, |u| + 3) == [];
  }

  /** Only the code span of such a text is masked, and its placeholder is the one already there. */
  lemma CodeIsMasked(u: string, n: string)
    requires n == NextName(NewGen(u + CODE))
    requires forall k :: 0 <= k < |u + n| ==> (u + n)[k] != '<' && (u + n)[k] != '[' && (u + n)[k] != '`'
    ensures var m := Mask(u + CODE); m.text == u + n && m.placeholders == [n] && m.mapping == map[n := CODE]
  {
    hide MaskPass, FindAll, NextName, NextGen, NewGen;
    var s := u + CODE;
    assert forall k :: 0 <= k < |u| ==> u[k] == (u + n)[k];
    CodeIsFound(u);
    PassOnce(InlineCode, Masked(s, NewGen(s), [], map[]), Span(|u|, |u|, |u| + 3, |u| + 3));
    var m := MaskPass(InlineCode, Masked(s, NewGen(s), [], map[]));
    assert s[..|u|] == u && s[|u|..|u| + 3] == CODE && s[|u| + 3..] == "";
    assert m.text == u + n;
    NoAngle(m.text, 0, |m.text|);
    AngleEnds(m.text);
    PassNothing(AngleLink, m);
    NoBrackets(m.text, 0);
    PassNothing(LinkUrl, m);
  }

  lemma AngleEnds(s: string)
    ensures FindAll(AngleLink, s, |s|) == []
  {
  }

  lemma NameIsPlain(k: nat)
    ensures forall i :: 0 <= i < |Name(k)| ==> Name(k)[i] != '<' && Name(k)[i] != '[' && Name(k)[i] != '`'
  {
    var n, d := Name(k), Digits(k);
    assert n == PREFIX + (d + SUFFIX);
    assert forall i :: 0 <= i < |d| ==> IsDigit(d[i]);
  }

  /** Unmasking then replaces the name in the text as well. */
  lemma BothAreReplaced(d: nat)
    requires d != FIRST
    ensures ReplaceAll(Overlapping(d, Name(FIRST)), Name(FIRST), CODE) == PREFIX + Digits(d) + (CODE + CODE)
  {
    hide Digits;
    var front, n := PREFIX + Digits(d), Name(FIRST);
    OverlapBegins(d, n);
    forall j | 0 <= j < |front|
      ensures !HasPrefix(front[j..] + (n + n), n)
    {
      assert front + (n + n) == Overlapping(d, n);
      assert (front + (n + n))[j..] == front[j..] + (n + n);
      assert !OccursAt(Overlapping(d, n), n, j);
    }
    ReplaceSkips(front, n + n, n, CODE);
    Twice(n);
  }

  lemma Twice(n: string)
    requires n != ""
    ensures ReplaceAll(n + n, n, CODE) == CODE + CODE
  {
    assert (n + n)[..|n|] == n && (n + n)[|n|..] == n;
    assert n[|n|..] == "";
    assert ReplaceAll("", n, CODE) == "";
    assert ReplaceAll(n, n, CODE) == CODE + "";
  }

  lemma ClashIsMasked(d: nat)
    requires d != FIRST
    ensures var m := Mask(Overlapping(d, CODE));
            && m.text == Overlapping(d, Name(FIRST)) && m.placeholders == [Name(FIRST)]
            && m.mapping == map[Name(FIRST) := CODE]
  {
    hide Digits, Mask, Name, NextName, NewGen;
    var front, n := PREFIX + Digits(d), Name(FIRST);
    TextNameIsHandedOut(d, CODE);
    ConcatAssociates(front, n, CODE);
    ConcatAssociates(front, n, n);
    NameIsPlain(FIRST);
    FrontIsPlain(d);
    CodeIsMasked(front + n, n);
  }

  lemma UnmaskOne(text: string, n: string, v: string)
    requires n != ""
    ensures Unmask(text, [n], map[n := v]) == ReplaceAll(text, n, v)
  {
    hide ReplaceAll;
    assert [n][1..] == [];
  }

  /** A text in which a name of the supply hides behind another one, followed by a code span: validation accepts the
      masked text unchanged, but unmasking it puts the code in both places. `__OC_I18N_5__OC_I18N_900000__` followed
      by a code span `x` is such a text. */
  lemma HiddenNameIsOverwritten(d: nat)
    requires d != FIRST
    ensures var s := Overlapping(d, CODE);
            var m := Mask(s);
            && Validate(m.text, m.placeholders)
            && Unmask(m.text, m.placeholders, m.mapping) == PREFIX + Digits(d) + (CODE + CODE) != s
  {
    hide Digits, Mask, ReplaceAll, Unmask, OccursAt, IndexFrom;
    ClashIsMasked(d);
    OverlapBegins(d, Name(FIRST));
    BothAreReplaced(d);
    UnmaskOne(Overlapping(d, Name(FIRST)), Name(FIRST), CODE);
    assert Occurs(Overlapping(d, Name(FIRST)), Name(FIRST));
    assert |Overlapping(d, CODE)| != |PREFIX + Digits(d) + (CODE + CODE)|;
  }

  lemma FrontIsPlain(d: nat)
    ensures var u := PREFIX + Digits(d);
            forall i :: 0 <= i < |u| ==> u[i] != '<' && u[i] != '[' && u[i] != '`'
  {
    NameIsPlain(d);
    var u := PREFIX + Digits(d);
    assert forall i :: 0 <= i < |u| ==> u[i] == Name(d)[i];
  }
}
