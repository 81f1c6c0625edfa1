/** Masked text as a sequence of tokens: literal characters and whole placeholders. In a text whose literal
    parts hold no `OC_I18N_` followed by a digit, a placeholder's characters occur only where its token is. */
module MaskingTokens {
  import opened Texts
  import opened Decimal
  import opened Masking

  datatype Token = Lit(c: char) | Ph(name: string)

  /** The m-th character of `OC_I18N_`. */
  function CoreChar(m: nat): char
    requires m < 8
  {
    if m == 0 then 'O' else if m == 1 then 'C' else if m == 2 || m == 7 then '_'
    else if m == 3 then 'I' else if m == 4 then '1' else if m == 5 then '8' else 'N'
  }

  /** s begins with the rest of `OC_I18N_` from its m-th character on, and a digit. */
  predicate Core(s: string, m: nat)
    requires m <= 8
    decreases 8 - m
  {
    if m == 8 then s != "" && IsDigit(s[0])
    else s != "" && s[0] == CoreChar(m) && Core(s[1..], m + 1)
  }

  /** No `OC_I18N_` followed by a digit. */
  ghost predicate CoreFree(s: string) {
    forall i :: 0 <= i <= |s| ==> !Core(s[i..], 0)
  }

  ghost predicate IsName(n: string) {
    exists k: nat :: n == Name(k)
  }

  ghost predicate NamesOk(ts: seq<Token>) {
    forall i :: 0 <= i < |ts| && ts[i].Ph? ==> IsName(ts[i].name)
  }

  function RenderOne(t: Token): string {
    match t case Lit(c) => [c] case Ph(n) => n
  }

  function Render(ts: seq<Token>): string {
    if ts == [] then "" else RenderOne(ts[0]) + Render(ts[1..])
  }

  /** `Core`, in literal tokens. */
  predicate LitCore(ts: seq<Token>, m: nat)
    requires m <= 8
    decreases 8 - m
  {
    if m == 8 then ts != [] && ts[0].Lit? && IsDigit(ts[0].c)
    else ts != [] && ts[0] == Lit(CoreChar(m)) && LitCore(ts[1..], m + 1)
  }

  ghost predicate Clean(ts: seq<Token>) {
    forall i :: 0 <= i <= |ts| ==> !LitCore(ts[i..], 0)
  }

  lemma CleanTail(ts: seq<Token>)
    requires Clean(ts) && ts != []
    ensures Clean(ts[1..])
  {
    forall i | 0 <= i <= |ts[1..]|
      ensures !LitCore(ts[1..][i..], 0)
    {
      assert ts[1..][i..] == ts[i + 1..];
    }
  }

  // ---------------------------------------------------------------- the shape of names

  /** Two underscores, the core, more digits, two underscores; the only `O` is the third character. */
  ghost predicate Shape(n: string) {
    && |n| >= 13 && n[0] == n[1] == '_' && n[2] == 'O'
    && Core(n[2..], 0)
    && (forall i :: 10 <= i < |n| - 2 ==> IsDigit(n[i]))
    && n[|n| - 2] == n[|n| - 1] == '_'
    && (forall i :: 3 <= i < |n| ==> n[i] != 'O')
    && (forall i :: 0 <= i < |n| ==> !Outside(n[i]))
  }

  lemma PrefixCore(d: string, rest: string)
    requires d != "" && IsDigit(d[0])
    ensures Core((PREFIX + d + rest)[2..], 0)
  {
    var s := PREFIX + d + rest;
    var t := s[2..];
    assert forall i :: 0 <= i < 10 ==> s[i] == PREFIX[i];
    assert Core(t[8..], 8);
    assert t[7..][1..] == t[8..] && Core(t[7..], 7);
    assert t[6..][1..] == t[7..] && Core(t[6..], 6);
    assert t[5..][1..] == t[6..] && Core(t[5..], 5);
    assert t[4..][1..] == t[5..] && Core(t[4..], 4);
    assert t[3..][1..] == t[4..] && Core(t[3..], 3);
    assert t[2..][1..] == t[3..] && Core(t[2..], 2);
    assert t[1..][1..] == t[2..] && Core(t[1..], 1);
  }

  lemma NameShape(n: string)
    requires IsName(n)
    ensures Shape(n)
  {
    var k: nat :| n == Name(k);
    var d := Digits(k);
    assert n == PREFIX + d + SUFFIX;
    PrefixCore(d, SUFFIX);
    assert forall i :: 0 <= i < 10 ==> n[i] == PREFIX[i];
    assert forall i :: 10 <= i < |n| - 2 ==> n[i] == d[i - 10];
    assert n[|n| - 2] == SUFFIX[0] && n[|n| - 1] == SUFFIX[1];
  }

  /** One name is not a proper prefix of another. */
  lemma NamesArePrefixFree(m: string, n: string, rest: string)
    requires Shape(m) && Shape(n) && HasPrefix(n + rest, m)
    ensures m == n
  {
    var s := n + rest;
    assert forall i :: 0 <= i < |m| ==> s[i] == m[i];
    assert forall i :: 0 <= i < |n| ==> s[i] == n[i];
    assert |m| <= |n| ==> n[|m| - 2] == '_';
    assert |n| <= |m| ==> m[|n| - 2] == '_';
  }

  // ---------------------------------------------------------------- where names occur

  /** A core in the rendering is literal: a placeholder's two underscores fit nowhere in it. */
  lemma {:induction false} CoreIsLiteral(ts: seq<Token>, m: nat)
    requires NamesOk(ts) && m <= 8
    ensures Core(Render(ts), m) ==> LitCore(ts, m)
    decreases 8 - m
  {
    if ts != [] {
      if ts[0].Ph? {
        NameShape(ts[0].name);
        TwoUnderscores(Render(ts), m);
      } else if m < 8 {
        assert Render(ts[1..]) == Render(ts)[1..];
        CoreIsLiteral(ts[1..], m + 1);
      }
    }
  }

  lemma TwoUnderscores(s: string, m: nat)
    requires m <= 8 && |s| >= 2 && s[0] == s[1] == '_'
    ensures !Core(s, m)
  {
    assert m < 8 ==> s[1..][0] == '_' && !(s[0] == CoreChar(m) && Core(s[1..], m + 1));
  }

  lemma NoCoreAhead(ts: seq<Token>)
    requires NamesOk(ts) && Clean(ts)
    ensures !Core(Render(ts), 0)
  {
    assert ts[0..] == ts;
    CoreIsLiteral(ts, 0);
  }

  lemma {:induction false} CorePrefix(s: string, p: string, m: nat)
    requires m <= 8 && Core(p, m)
    ensures HasPrefix(s, p) ==> Core(s, m)
    decreases 8 - m
  {
    if s != "" && m < 8 {
      CorePrefix(s[1..], p[1..], m + 1);
      PrefixTail(s, p, 1);
    }
    assert HasPrefix(s, p) ==> s != "" && s[0] == s[..|p|][0];
  }

  lemma PrefixTail(s: string, p: string, d: nat)
    requires d <= |p| && d <= |s|
    ensures HasPrefix(s, p) ==> HasPrefix(s[d..], p[d..])
  {
    if |p| <= |s| {
      assert s[d..][..|p| - d] == s[..|p|][d..];
    }
  }

  /** What follows one or two underscores is not the rest of a name. */
  lemma AfterUnderscores(ts: seq<Token>, n: string, k: nat)
    requires NamesOk(ts) && Clean(ts) && Shape(n) && 1 <= k <= 2
    ensures !HasPrefix(Render(ts), n[k..])
  {
    if k == 2 {
      NoCoreAhead(ts);
      CorePrefix(Render(ts), n[2..], 0);
    } else if ts != [] {
      OneUnderscore(ts, n);
    }
  }

  lemma OneUnderscore(ts: seq<Token>, n: string)
    requires NamesOk(ts) && Clean(ts) && Shape(n) && ts != []
    ensures !HasPrefix(Render(ts), n[1..])
  {
    var s := Render(ts);
    if ts[0].Ph? {
      NameShape(ts[0].name);
      assert s[1] == '_';
      SecondOfPrefix(s, n[1..]);
    } else {
      CleanTail(ts);
      NoCoreAhead(ts[1..]);
      assert Render(ts[1..]) == s[1..];
      PrefixTail(s, n[1..], 1);
      assert n[1..][1..] == n[2..];
      CorePrefix(s[1..], n[2..], 0);
    }
  }

  lemma SecondOfPrefix(s: string, p: string)
    requires |s| >= 2 && |p| >= 2 && s[1] != p[1]
    ensures !HasPrefix(s, p)
  {
    assert |p| <= |s| ==> s[..|p|][1] == s[1];
  }

  /** A name that begins at the start of the rendering is the first token. */
  lemma NameAtHead(ts: seq<Token>, n: string)
    requires NamesOk(ts) && Clean(ts) && IsName(n)
    ensures HasPrefix(Render(ts), n) ==> ts != [] && ts[0] == Ph(n)
  {
    NameShape(n);
    if ts != [] {
      var s := Render(ts);
      if ts[0].Ph? {
        NameShape(ts[0].name);
        if HasPrefix(s, n) {
          NamesArePrefixFree(n, ts[0].name, Render(ts[1..]));
        }
      } else {
        assert Render(ts[1..]) == s[1..];
        CleanTail(ts);
        AfterUnderscores(ts[1..], n, 1);
        PrefixTail(s, n, 1);
      }
    }
  }

  /** No name begins inside a placeholder. */
  lemma NoNameInside(q: string, k: nat, ts: seq<Token>, n: string)
    requires Shape(q) && 0 < k < |q| && NamesOk(ts) && Clean(ts) && Shape(n)
    ensures !HasPrefix(q[k..] + Render(ts), n)
  {
    var rest := Render(ts);
    if k + 2 < |q| {
      ThirdOfPrefix(q[k..] + rest, n);
    } else {
      var d := |q| - k;
      AfterUnderscores(ts, n, d);
      assert (q[k..] + rest)[d..] == rest;
      PrefixTail(q[k..] + rest, n, d);
    }
  }

  lemma ThirdOfPrefix(s: string, p: string)
    requires |s| >= 3 && |p| >= 3 && s[2] != p[2]
    ensures !HasPrefix(s, p)
  {
    assert |p| <= |s| ==> s[..|p|][2] == s[2];
  }

  lemma OccursAtIsPrefix(s: string, n: string, i: nat)
    ensures OccursAt(s, n, i) <==> i <= |s| && HasPrefix(s[i..], n)
  {
    if i + |n| <= |s| {
      assert s[i..][..|n|] == s[i..i + |n|];
    }
  }

  lemma {:induction false} NameIsToken(ts: seq<Token>, n: string, i: nat)
    requires NamesOk(ts) && Clean(ts) && IsName(n) && OccursAt(Render(ts), n, i)
    ensures Ph(n) in ts
    decreases |ts|
  {
    NameShape(n);
    OccursAtIsPrefix(Render(ts), n, i);
    if i == 0 {
      assert Render(ts)[0..] == Render(ts);
      NameAtHead(ts, n);
    } else {
      assert ts != [];
      CleanTail(ts);
      NameLater(ts[0], ts[1..], n, i);
      NameIsToken(ts[1..], n, i - |RenderOne(ts[0])|);
    }
  }

  lemma NameLater(head: Token, tail: seq<Token>, n: string, i: nat)
    requires (head.Ph? ==> IsName(head.name)) && NamesOk(tail) && Clean(tail) && Shape(n) && i > 0
    requires OccursAt(RenderOne(head) + Render(tail), n, i)
    ensures i >= |RenderOne(head)| && OccursAt(Render(tail), n, i - |RenderOne(head)|)
  {
    if i < |RenderOne(head)| {
      NameShape(head.name);
      NoNameInside(head.name, i, tail, n);
      NotInHead(head.name, Render(tail), n, i);
    } else {
      OccursInRight(RenderOne(head), Render(tail), n, i);
    }
  }

  lemma NotInHead(h: string, rest: string, n: string, i: nat)
    requires i < |h| && !HasPrefix(h[i..] + rest, n)
    ensures !OccursAt(h + rest, n, i)
  {
    OccursAtIsPrefix(h + rest, n, i);
    assert (h + rest)[i..] == h[i..] + rest;
  }

  lemma {:induction false} TokenOccurs(ts: seq<Token>, n: string) returns (i: nat)
    requires Ph(n) in ts
    ensures OccursAt(Render(ts), n, i)
  {
    if ts[0] == Ph(n) {
      i := 0;
    } else {
      var j := TokenOccurs(ts[1..], n);
      var h := RenderOne(ts[0]);
      i := |h| + j;
      OccursInRight(h, Render(ts[1..]), n, i);
    }
  }

  /** A placeholder occurs in the text exactly if it is one of its tokens. */
  lemma ContainsIsToken(ts: seq<Token>, n: string)
    requires NamesOk(ts) && Clean(ts) && IsName(n)
    ensures Contains(Render(ts), n) <==> Ph(n) in ts
  {
    if Contains(Render(ts), n) {
      var i: nat :| OccursAt(Render(ts), n, i);
      NameIsToken(ts, n, i);
    }
    if Ph(n) in ts {
      var i := TokenOccurs(ts, n);
    }
  }

  // ---------------------------------------------------------------- replacing a placeholder

  function Subst(ts: seq<Token>, n: string, by_: seq<Token>): seq<Token> {
    if ts == [] then []
    else (if ts[0] == Ph(n) then by_ else [ts[0]]) + Subst(ts[1..], n, by_)
  }

  lemma {:induction false} RenderConcat(ts: seq<Token>, us: seq<Token>)
    ensures Render(ts + us) == Render(ts) + Render(us)
  {
    if ts == [] {
      assert ts + us == us;
    } else {
      assert (ts + us)[1..] == ts[1..] + us;
      RenderConcat(ts[1..], us);
    }
  }

  /** `ReplaceAll` copies a stretch in which the pattern does not begin. */
  lemma {:induction false} ReplaceSkips(u: string, rest: string, n: string, v: string)
    requires n != "" && forall j :: 0 <= j < |u| ==> !HasPrefix(u[j..] + rest, n)
    ensures ReplaceAll(u + rest, n, v) == u + ReplaceAll(rest, n, v)
    decreases |u|
  {
    if u == "" {
      assert u + rest == rest;
    } else {
      assert u[0..] == u;
      assert (u + rest)[1..] == u[1..] + rest;
      forall j | 0 <= j < |u[1..]|
        ensures !HasPrefix(u[1..][j..] + rest, n)
      {
        assert u[1..][j..] == u[j + 1..];
      }
      ReplaceSkips(u[1..], rest, n, v);
    }
  }

  lemma ReplaceSkipsName(q: string, ts: seq<Token>, n: string, v: string)
    requires Shape(q) && NamesOk(ts) && Clean(ts) && Shape(n) && !HasPrefix(q + Render(ts), n)
    ensures ReplaceAll(q + Render(ts), n, v) == q + ReplaceAll(Render(ts), n, v)
  {
    forall j | 0 <= j < |q|
      ensures !HasPrefix(q[j..] + Render(ts), n)
    {
      if j == 0 {
        assert q[0..] == q;
      } else {
        NoNameInside(q, j, ts, n);
      }
    }
    ReplaceSkips(q, Render(ts), n, v);
  }

  lemma ReplaceSkipsChar(c: char, rest: string, n: string, v: string)
    requires n != "" && !HasPrefix([c] + rest, n)
    ensures ReplaceAll([c] + rest, n, v) == [c] + ReplaceAll(rest, n, v)
  {
    assert ([c] + rest)[1..] == rest;
  }

  lemma ReplaceHead(head: Token, tail: seq<Token>, n: string, v: string)
    requires (head.Ph? ==> IsName(head.name)) && NamesOk(tail) && Clean(tail) && Shape(n)
    requires !HasPrefix(RenderOne(head) + Render(tail), n)
    ensures ReplaceAll(RenderOne(head) + Render(tail), n, v) == RenderOne(head) + ReplaceAll(Render(tail), n, v)
  {
    match head {
      case Lit(c) => ReplaceSkipsChar(c, Render(tail), n, v);
      case Ph(q) =>
        NameShape(q);
        ReplaceSkipsName(q, tail, n, v);
    }
  }

  /** Replacing a placeholder in the text replaces its tokens. */
  lemma {:induction false} ReplaceIsSubst(ts: seq<Token>, n: string, by_: seq<Token>)
    requires NamesOk(ts) && Clean(ts) && IsName(n) && n != ""
    ensures ReplaceAll(Render(ts), n, Render(by_)) == Render(Subst(ts, n, by_))
    decreases |ts|
  {
    if ts != [] {
      CleanTail(ts);
      ReplaceIsSubst(ts[1..], n, by_);
      ReplaceStep(ts, n, by_);
    }
  }

  lemma ReplaceStep(ts: seq<Token>, n: string, by_: seq<Token>)
    requires NamesOk(ts) && Clean(ts) && IsName(n) && n != "" && ts != []
    requires ReplaceAll(Render(ts[1..]), n, Render(by_)) == Render(Subst(ts[1..], n, by_))
    ensures ReplaceAll(Render(ts), n, Render(by_)) == Render(Subst(ts, n, by_))
  {
    var s, rest := Render(ts), Render(ts[1..]);
    NameShape(n);
    if ts[0] == Ph(n) {
      assert s[..|n|] == n && s[|n|..] == rest;
      RenderConcat(by_, Subst(ts[1..], n, by_));
    } else {
      NameAtHead(ts, n);
      CleanTail(ts);
      ReplaceHead(ts[0], ts[1..], n, Render(by_));
      var us := Subst(ts[1..], n, by_);
      assert ([ts[0]] + us)[1..] == us;
    }
  }

  // ---------------------------------------------------------------- splitting at cuts

  /** A position next to a character that no placeholder contains falls between two tokens. */
  lemma {:induction false} SplitAtCut(ts: seq<Token>, k: nat) returns (t: nat)
    requires NamesOk(ts) && Cut(Render(ts), k)
    ensures t <= |ts| && Render(ts[..t]) == Render(ts)[..k] && Render(ts[t..]) == Render(ts)[k..]
    decreases |ts|
  {
    if k == 0 {
      t := 0;
      assert ts[..0] == [] && ts[0..] == ts;
    } else {
      var h := RenderOne(ts[0]);
      CutTail(ts[0], ts[1..], k);
      var t0 := SplitAtCut(ts[1..], k - |h|);
      t := t0 + 1;
      SplitStep(ts, k, t0);
    }
  }

  /** The same for the rest of a text from position pos on. */
  lemma SplitRest(rest: seq<Token>, text: string, pos: nat, k: nat) returns (t: nat)
    requires pos <= k <= |text| && Render(rest) == text[pos..] && NamesOk(rest) && Cut(text, k)
    ensures t <= |rest| && NamesOk(rest[t..])
    ensures Render(rest[..t]) == text[pos..k] && Render(rest[t..]) == text[k..]
  {
    ShiftedCut(text, pos, k, Render(rest));
    t := SplitAtCut(rest, k - pos);
    SliceOfSlice(text, pos, k, Render(rest), Render(rest[..t]), Render(rest[t..]));
    NamesOkTail(rest, t);
  }

  lemma NamesOkTail(ts: seq<Token>, t: nat)
    requires NamesOk(ts) && t <= |ts|
    ensures NamesOk(ts[t..])
  {
    assert forall i :: 0 <= i < |ts[t..]| ==> ts[t..][i] == ts[t + i];
  }

  lemma ShiftedCut(s: string, pos: nat, k: nat, rest: string)
    requires pos <= k <= |s| && Cut(s, k) && rest == s[pos..]
    ensures Cut(rest, k - pos)
  {
  }

  lemma SliceOfSlice(s: string, pos: nat, k: nat, rest: string, a: string, b: string)
    requires pos <= k <= |s| && rest == s[pos..] && a == rest[..k - pos] && b == rest[k - pos..]
    ensures a == s[pos..k] && b == s[k..]
  {
  }

  lemma SplitStep(ts: seq<Token>, k: nat, t0: nat)
    requires ts != [] && t0 < |ts| && |RenderOne(ts[0])| <= k <= |Render(ts)|
    requires var d := k - |RenderOne(ts[0])|;
      Render(ts[1..][..t0]) == Render(ts[1..])[..d] && Render(ts[1..][t0..]) == Render(ts[1..])[d..]
    ensures Render(ts[..t0 + 1]) == Render(ts)[..k] && Render(ts[t0 + 1..]) == Render(ts)[k..]
  {
    assert ts[..t0 + 1][1..] == ts[1..][..t0] && ts[t0 + 1..] == ts[1..][t0..];
    SplitLater(RenderOne(ts[0]), Render(ts[1..]), k);
  }

  lemma SplitLater(h: string, rest: string, k: nat)
    requires |h| <= k <= |h| + |rest|
    ensures (h + rest)[..k] == h + rest[..k - |h|] && (h + rest)[k..] == rest[k - |h|..]
  {
  }

  lemma CutTail(head: Token, tail: seq<Token>, k: nat)
    requires head.Ph? ==> IsName(head.name)
    requires Cut(RenderOne(head) + Render(tail), k) && k > 0
    ensures k >= |RenderOne(head)| && Cut(Render(tail), k - |RenderOne(head)|)
  {
    var h, rest := RenderOne(head), Render(tail);
    var s := h + rest;
    if head.Ph? {
      NameShape(h);
      assert forall i :: 0 <= i < |h| ==> !Outside(s[i]);
    }
    assert forall i :: |h| <= i < |s| ==> s[i] == rest[i - |h|];
  }
}
