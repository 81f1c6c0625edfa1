/** Masking a text and unmasking it again gives the text back exactly when validation accepts the masked text,
    that is, when no later pass has swallowed a placeholder. */
module MaskingRoundTrip {
  import opened Texts
  import opened Decimal
  import opened Masking
  import opened MaskingTokens

  /** The source text that tokens stand for, given the source text of each placeholder. */
  function Flat(ts: seq<Token>, orig: map<string, string>): string {
    if ts == [] then "" else FlatOne(ts[0], orig) + Flat(ts[1..], orig)
  }

  function FlatOne(t: Token, orig: map<string, string>): string {
    match t
    case Lit(c) => [c]
    case Ph(n) => if n in orig then orig[n] else ""
  }

  /** How a masked text came about: the tokens each placeholder replaced, and the source text it covers. */
  datatype Record = Record(defs: map<string, seq<Token>>, orig: map<string, string>)

  /** The tokens that p replaced. */
  function Def(r: Record, p: string): seq<Token> {
    if p in r.defs then r.defs[p] else []
  }

  /** What one placeholder's entries say. */
  ghost predicate EntryOk(r: Record, mapping: map<string, string>, p: string) {
    && p in r.orig && p in mapping
    && mapping[p] == Render(Def(r, p))
    && NamesOk(Def(r, p)) && Clean(Def(r, p))
    && Flat(Def(r, p), r.orig) == r.orig[p]
  }

  ghost predicate EntriesOk(r: Record, m: Masked) {
    forall p :: p in m.placeholders ==> EntryOk(r, m.mapping, p)
  }

  /** Placeholders are distinct names that the supply will not give again. */
  ghost predicate SupplyOk(m: Masked) {
    && (forall i, j :: 0 <= i < j < |m.placeholders| ==> m.placeholders[i] != m.placeholders[j])
    && (forall p :: p in m.placeholders ==> IsName(p) && p in m.gen.used)
  }

  /** The i-th placeholder was replaced, whole, by a later one. */
  ghost predicate Swallowed(r: Record, m: Masked, i: nat)
    requires i < |m.placeholders|
  {
    exists j :: i < j < |m.placeholders| && Ph(m.placeholders[i]) in Def(r, m.placeholders[j])
  }

  /** Every placeholder token is recorded, once; a placeholder is in the text or swallowed by a later one. */
  ghost predicate PlacesOk(r: Record, m: Masked, ts: seq<Token>) {
    && (forall i, j :: 0 <= i < j < |ts| && ts[i].Ph? ==> ts[i] != ts[j])
    && (forall q :: Ph(q) in ts ==> q in m.placeholders)
    && (forall i: nat :: i < |m.placeholders| ==> (Ph(m.placeholders[i]) in ts <==> !Swallowed(r, m, i)))
    && (forall j, q :: 0 <= j < |m.placeholders| && Ph(q) in Def(r, m.placeholders[j]) ==> q in m.placeholders[..j])
  }

  ghost predicate TextOk(r: Record, source: string, ts: seq<Token>) {
    NamesOk(ts) && Flat(ts, r.orig) == source
  }

  ghost predicate Explains(r: Record, m: Masked, source: string, ts: seq<Token>) {
    TextOk(r, source, ts) && EntriesOk(r, m) && SupplyOk(m) && PlacesOk(r, m, ts)
  }

  // ---------------------------------------------------------------- flattening

  lemma {:induction false} FlatConcat(ts: seq<Token>, us: seq<Token>, orig: map<string, string>)
    ensures Flat(ts + us, orig) == Flat(ts, orig) + Flat(us, orig)
  {
    if ts == [] {
      assert ts + us == us;
    } else {
      assert (ts + us)[1..] == ts[1..] + us;
      FlatConcat(ts[1..], us, orig);
    }
  }

  lemma {:induction false} FlatFrame(ts: seq<Token>, orig: map<string, string>, p: string, v: string)
    requires Ph(p) !in ts
    ensures Flat(ts, orig[p := v]) == Flat(ts, orig)
  {
    if ts != [] {
      FlatFrame(ts[1..], orig, p, v);
    }
  }

  lemma {:induction false} LitCoreFlat(ts: seq<Token>, orig: map<string, string>, m: nat)
    requires m <= 8
    ensures LitCore(ts, m) ==> Core(Flat(ts, orig), m)
    decreases 8 - m
  {
    if m < 8 && ts != [] && ts[0].Lit? {
      LitCoreFlat(ts[1..], orig, m + 1);
      assert Flat(ts, orig)[1..] == Flat(ts[1..], orig);
    }
  }

  lemma FlatTail(ts: seq<Token>, orig: map<string, string>, i: nat)
    requires i <= |ts|
    ensures exists d: nat :: d <= |Flat(ts, orig)| && Flat(ts, orig)[d..] == Flat(ts[i..], orig)
  {
    FlatConcat(ts[..i], ts[i..], orig);
    assert ts == ts[..i] + ts[i..];
    assert Flat(ts, orig)[|Flat(ts[..i], orig)|..] == Flat(ts[i..], orig);
  }

  /** Literal runs of tokens are literal runs of the source. */
  lemma SourceIsClean(ts: seq<Token>, orig: map<string, string>)
    requires CoreFree(Flat(ts, orig))
    ensures Clean(ts)
  {
    forall i | 0 <= i <= |ts|
      ensures !LitCore(ts[i..], 0)
    {
      FlatTail(ts, orig, i);
      LitCoreFlat(ts[i..], orig, 0);
    }
  }

  lemma {:induction false} LitCoreExtends(ts: seq<Token>, us: seq<Token>, m: nat)
    requires m <= 8
    ensures LitCore(ts, m) ==> LitCore(ts + us, m)
    decreases 8 - m
  {
    if m < 8 && ts != [] {
      assert (ts + us)[1..] == ts[1..] + us;
      LitCoreExtends(ts[1..], us, m + 1);
    }
  }

  lemma PartIsClean(x: seq<Token>, b: seq<Token>, y: seq<Token>)
    requires Clean(x + b + y)
    ensures Clean(b)
  {
    forall i | 0 <= i <= |b|
      ensures !LitCore(b[i..], 0)
    {
      LitCoreExtends(b[i..], y, 0);
      assert (x + b + y)[|x| + i..] == b[i..] + y;
    }
  }

  // ---------------------------------------------------------------- one replacement

  /** The record after placeholder p has replaced the tokens b. */
  function Extend(r: Record, p: string, b: seq<Token>): Record {
    Record(r.defs[p := b], r.orig[p := Flat(b, r.orig)])
  }

  lemma FlatParts(x: seq<Token>, b: seq<Token>, y: seq<Token>, orig: map<string, string>)
    ensures Flat(x + b + y, orig) == Flat(x, orig) + Flat(b, orig) + Flat(y, orig)
  {
    FlatConcat(x + b, y, orig);
    FlatConcat(x, b, orig);
  }

  lemma CoverText(r: Record, source: string, x: seq<Token>, b: seq<Token>, y: seq<Token>, p: string)
    requires TextOk(r, source, x + b + y) && IsName(p) && Ph(p) !in x && Ph(p) !in y
    ensures TextOk(Extend(r, p, b), source, x + [Ph(p)] + y)
  {
    FlatCovered(r.orig, x, b, y, p);
    NamesOkCovered(x, b, y, p);
  }

  lemma FlatCovered(orig: map<string, string>, x: seq<Token>, b: seq<Token>, y: seq<Token>, p: string)
    requires Ph(p) !in x && Ph(p) !in y
    ensures Flat(x + [Ph(p)] + y, orig[p := Flat(b, orig)]) == Flat(x + b + y, orig)
  {
    var v := Flat(b, orig);
    FlatParts(x, b, y, orig);
    FlatFrame(x, orig, p, v);
    FlatFrame(y, orig, p, v);
    FlatParts(x, [Ph(p)], y, orig[p := v]);
    FlatSingle(p, orig[p := v]);
  }

  lemma FlatSingle(p: string, orig: map<string, string>)
    requires p in orig
    ensures Flat([Ph(p)], orig) == orig[p]
  {
    assert [Ph(p)][1..] == [];
  }

  lemma NamesOkCovered(x: seq<Token>, b: seq<Token>, y: seq<Token>, p: string)
    requires NamesOk(x + b + y) && IsName(p)
    ensures NamesOk(x + [Ph(p)] + y)
  {
    NamesOkParts(x, b, y);
    var us := x + [Ph(p)] + y;
    assert forall i :: 0 <= i < |x| ==> us[i] == x[i];
    assert forall i :: 0 <= i < |y| ==> us[|x| + 1 + i] == y[i];
  }

  lemma NamesOkParts(x: seq<Token>, b: seq<Token>, y: seq<Token>)
    requires NamesOk(x + b + y)
    ensures NamesOk(x) && NamesOk(b) && NamesOk(y)
  {
    var ts := x + b + y;
    assert forall i :: 0 <= i < |x| ==> x[i] == ts[i];
    assert forall i :: 0 <= i < |b| ==> b[i] == ts[|x| + i];
    assert forall i :: 0 <= i < |y| ==> y[i] == ts[|x| + |b| + i];
  }

  lemma CoverEntries(r: Record, m: Masked, ts: seq<Token>, b: seq<Token>, p: string)
    requires EntriesOk(r, m) && PlacesOk(r, m, ts)
    requires p !in m.placeholders && NamesOk(b) && Clean(b) && Ph(p) !in b
    ensures forall q :: q in m.placeholders + [p] ==> EntryOk(Extend(r, p, b), m.mapping[p := Render(b)], q)
  {
    FlatFrame(b, r.orig, p, Flat(b, r.orig));
    forall q | q in m.placeholders
      ensures EntryOk(Extend(r, p, b), m.mapping[p := Render(b)], q)
    {
      NotInDefs(r, m, ts, p, q);
      EntryFrame(r, m.mapping, b, p, q);
    }
  }

  lemma NotInDefs(r: Record, m: Masked, ts: seq<Token>, p: string, q: string)
    requires PlacesOk(r, m, ts) && p !in m.placeholders && q in m.placeholders
    ensures Ph(p) !in Def(r, q)
  {
    var j :| 0 <= j < |m.placeholders| && m.placeholders[j] == q;
    assert forall k :: 0 <= k < j ==> m.placeholders[..j][k] in m.placeholders;
    assert p !in m.placeholders[..j];
  }

  lemma EntryFrame(r: Record, mapping: map<string, string>, b: seq<Token>, p: string, q: string)
    requires EntryOk(r, mapping, q) && q != p && Ph(p) !in Def(r, q)
    ensures EntryOk(Extend(r, p, b), mapping[p := Render(b)], q)
  {
    FlatFrame(Def(r, q), r.orig, p, Flat(b, r.orig));
  }

  lemma CoverPlaces(r: Record, m: Masked, x: seq<Token>, b: seq<Token>, y: seq<Token>, p: string, n: Masked)
    requires PlacesOk(r, m, x + b + y) && p !in m.placeholders && n.placeholders == m.placeholders + [p]
    ensures PlacesOk(Extend(r, p, b), n, x + [Ph(p)] + y)
  {
    CoverDistinct(x, b, y, p);
    CoverMembers(x, b, y, p);
    forall i: nat | i < |n.placeholders|
      ensures Ph(n.placeholders[i]) in x + [Ph(p)] + y <==> !Swallowed(Extend(r, p, b), n, i)
    {
      CoverSwallowed(r, m, x, b, y, p, n, i);
    }
    forall j, q | 0 <= j < |n.placeholders| && Ph(q) in Def(Extend(r, p, b), n.placeholders[j])
      ensures q in n.placeholders[..j]
    {
      CoverOrder(r, m, x, b, y, p, n, j, q);
    }
  }

  lemma CoverOrder(r: Record, m: Masked, x: seq<Token>, b: seq<Token>, y: seq<Token>, p: string, n: Masked,
                   j: nat, q: string)
    requires PlacesOk(r, m, x + b + y) && p !in m.placeholders && n.placeholders == m.placeholders + [p]
    requires j < |n.placeholders| && Ph(q) in Def(Extend(r, p, b), n.placeholders[j])
    ensures q in n.placeholders[..j]
  {
    if j < |m.placeholders| {
      assert n.placeholders[..j] == m.placeholders[..j];
      assert n.placeholders[j] == m.placeholders[j] && m.placeholders[j] in m.placeholders;
    } else {
      assert n.placeholders[..j] == m.placeholders;
      assert Ph(q) in x + b + y;
    }
  }

  lemma CoverDistinct(x: seq<Token>, b: seq<Token>, y: seq<Token>, p: string)
    requires var ts := x + b + y; forall i, j :: 0 <= i < j < |ts| && ts[i].Ph? ==> ts[i] != ts[j]
    requires Ph(p) !in x + b + y
    ensures var us := x + [Ph(p)] + y; forall i, j :: 0 <= i < j < |us| && us[i].Ph? ==> us[i] != us[j]
  {
    var ts, us := x + b + y, x + [Ph(p)] + y;
    forall i, j | 0 <= i < j < |us| && us[i].Ph?
      ensures us[i] != us[j]
    {
      var i', j' := if i <= |x| then i else i - 1 + |b|, if j <= |x| then j else j - 1 + |b|;
      assert i != |x| ==> us[i] == ts[i'];
      assert j != |x| ==> us[j] == ts[j'];
      assert i != |x| ==> us[i] in ts;
      assert j != |x| ==> us[j] in ts;
    }
  }

  /** Which placeholder tokens are left: p, and those that were not among the replaced ones. */
  lemma CoverMembers(x: seq<Token>, b: seq<Token>, y: seq<Token>, p: string)
    requires var ts := x + b + y; forall i, j :: 0 <= i < j < |ts| && ts[i].Ph? ==> ts[i] != ts[j]
    ensures forall q :: Ph(q) in x + [Ph(p)] + y <==> q == p || (Ph(q) in x + b + y && Ph(q) !in b)
  {
    var ts := x + b + y;
    forall q
      ensures Ph(q) in x + [Ph(p)] + y <==> q == p || (Ph(q) in ts && Ph(q) !in b)
    {
      if Ph(q) in b {
        var k :| 0 <= k < |b| && b[k] == Ph(q);
        assert ts[|x| + k] == Ph(q);
        assert forall i :: 0 <= i < |x| ==> ts[i] == x[i];
        assert forall i :: 0 <= i < |y| ==> ts[|x| + |b| + i] == y[i];
      }
    }
  }

  /** Covering `b` by `p` swallows exactly the placeholders in `b`, besides those swallowed before. */
  lemma SwallowedByCover(r: Record, m: Masked, b: seq<Token>, p: string, n: Masked, i: nat)
    requires p !in m.placeholders && n.placeholders == m.placeholders + [p] && i < |m.placeholders|
    ensures Swallowed(Extend(r, p, b), n, i) <==> Swallowed(r, m, i) || Ph(m.placeholders[i]) in b
  {
    var r', k, q := Extend(r, p, b), |m.placeholders|, m.placeholders[i];
    forall j | 0 <= j < k
      ensures n.placeholders[j] == m.placeholders[j] && Def(r', n.placeholders[j]) == Def(r, m.placeholders[j]) {
      assert m.placeholders[j] in m.placeholders;
    }
    assert n.placeholders[k] == p && Def(r', p) == b;
    if Swallowed(r, m, i) {
      var j :| i < j < k && Ph(q) in Def(r, m.placeholders[j]);
      assert Ph(q) in Def(r', n.placeholders[j]);
    }
  }

  lemma CoverSwallowed(r: Record, m: Masked, x: seq<Token>, b: seq<Token>, y: seq<Token>, p: string, n: Masked, i: nat)
    requires PlacesOk(r, m, x + b + y) && p !in m.placeholders
    requires n.placeholders == m.placeholders + [p] && i < |n.placeholders|
    ensures Ph(n.placeholders[i]) in x + [Ph(p)] + y <==> !Swallowed(Extend(r, p, b), n, i)
  {
    hide Swallowed, Def, Extend;
    CoverMembers(x, b, y, p);
    if i < |m.placeholders| {
      SwallowedByCover(r, m, b, p, n, i);
      assert n.placeholders[i] == m.placeholders[i] && m.placeholders[i] in m.placeholders;
    } else {
      LastNotSwallowed(Extend(r, p, b), n);
    }
  }

  lemma LastNotSwallowed(r: Record, n: Masked)
    requires n.placeholders != []
    ensures !Swallowed(r, n, |n.placeholders| - 1)
  {
  }

  lemma CoverSupply(m: Masked, gap: string, covered: string)
    requires SupplyOk(m)
    ensures SupplyOk(Append(m, gap, covered)) && NextName(m.gen) !in m.placeholders && IsName(NextName(m.gen))
  {
  }

  /** Replacing tokens by a fresh placeholder keeps the record an explanation. */
  lemma Cover(r: Record, m: Masked, source: string, x: seq<Token>, b: seq<Token>, y: seq<Token>, gap: string)
    requires Explains(r, m, source, x + b + y) && CoreFree(source)
    ensures var p := NextName(m.gen);
            Explains(Extend(r, p, b), Append(m, gap, Render(b)), source, x + [Ph(p)] + y)
  {
    var p, n := NextName(m.gen), Append(m, gap, Render(b));
    var ts := x + b + y;
    CoverSupply(m, gap, Render(b));
    assert Ph(p) !in ts;
    assert Ph(p) !in x && Ph(p) !in b && Ph(p) !in y;
    NamesOkParts(x, b, y);
    SourceIsClean(ts, r.orig);
    PartIsClean(x, b, y);
    CoverText(r, source, x, b, y, p);
    CoverEntries(r, m, ts, b, p);
    CoverPlaces(r, m, x, b, y, p, n);
  }

  // ---------------------------------------------------------------- a pass

  /** The tokens of `rest` split where the span begins and ends. */
  lemma SplitSpan(rest: seq<Token>, text: string, pos: nat, x: Span)
    returns (a: seq<Token>, b: seq<Token>, c: seq<Token>)
    requires pos <= |text| && Render(rest) == text[pos..] && NamesOk(rest) && SpanOk(text, x) && pos <= x.start
    ensures rest == a + b + c
    ensures Render(a) == text[pos..x.start] && Render(b) == text[x.start..x.end] && Render(c) == text[x.end..]
  {
    var t := SplitRest(rest, text, pos, x.start);
    var u := SplitRest(rest[t..], text, x.start, x.end);
    a, b, c := rest[..t], rest[t..][..u], rest[t..][u..];
    ThreeParts(rest, t, u);
  }

  lemma NamesOkSuffix(done: seq<Token>, rest: seq<Token>)
    requires NamesOk(done + rest)
    ensures NamesOk(rest)
  {
    assert forall i :: 0 <= i < |rest| ==> rest[i] == (done + rest)[|done| + i];
  }

  lemma Regroup(done: seq<Token>, a: seq<Token>, b: seq<Token>, c: seq<Token>)
    ensures done + (a + b + c) == (done + a) + b + c
  {
  }

  lemma ThreeParts(ts: seq<Token>, t: nat, u: nat)
    requires t + u <= |ts|
    ensures ts == ts[..t] + ts[t..][..u] + ts[t..][u..]
  {
  }

  lemma {:induction false} SpliceExplained(text: string, spans: seq<Span>, pos: nat, m: Masked, source: string,
                                           r: Record, done: seq<Token>, rest: seq<Token>)
    returns (r': Record, ts: seq<Token>)
    requires pos <= |text| && forall k :: 0 <= k < |spans| ==> SpanOk(text, spans[k])
    requires m.text == Render(done) && Render(rest) == text[pos..]
    requires Explains(r, m, source, done + rest) && CoreFree(source)
    ensures var n := Splice(text, spans, pos, m); n.text == Render(ts) && Explains(r', n, source, ts)
    decreases |spans|
  {
    if spans == [] {
      r', ts := r, done + rest;
      RenderConcat(done, rest);
    } else if spans[0].full < pos {
      r', ts := SpliceExplained(text, spans[1..], pos, m, source, r, done, rest);
    } else {
      var x := spans[0];
      var r1, done1, c := SpliceOne(text, x, pos, m, source, r, done, rest);
      var m1 := Append(m, text[pos..x.start], text[x.start..x.end]);
      r', ts := SpliceExplained(text, spans[1..], x.end, m1, source, r1, done1, c);
    }
  }

  lemma SpliceOne(text: string, x: Span, pos: nat, m: Masked, source: string, r: Record, done: seq<Token>,
                  rest: seq<Token>)
    returns (r': Record, done': seq<Token>, rest': seq<Token>)
    requires pos <= |text| && SpanOk(text, x) && pos <= x.full
    requires m.text == Render(done) && Render(rest) == text[pos..]
    requires Explains(r, m, source, done + rest) && CoreFree(source)
    ensures var m' := Append(m, text[pos..x.start], text[x.start..x.end]);
            && m'.text == Render(done') && Render(rest') == text[x.end..]
            && Explains(r', m', source, done' + rest')
  {
    NamesOkSuffix(done, rest);
    var a, b, c := SplitSpan(rest, text, pos, x);
    Regroup(done, a, b, c);
    Cover(r, m, source, done + a, b, c, text[pos..x.start]);
    var p := NextName(m.gen);
    RenderSpan(done, a, p);
    r', done', rest' := Extend(r, p, b), done + a + [Ph(p)], c;
  }

  lemma RenderSpan(done: seq<Token>, a: seq<Token>, p: string)
    ensures Render(done + a + [Ph(p)]) == Render(done) + Render(a) + p
  {
    RenderConcat(done + a, [Ph(p)]);
    RenderConcat(done, a);
    assert [Ph(p)][1..] == [];
  }

  lemma PassExplained(p: Pattern, m: Masked, source: string, r: Record, ts0: seq<Token>)
    returns (r': Record, ts: seq<Token>)
    requires m.text == Render(ts0) && Explains(r, m, source, ts0) && CoreFree(source)
    ensures MaskPass(p, m).text == Render(ts) && Explains(r', MaskPass(p, m), source, ts)
  {
    assert [] + ts0 == ts0;
    assert m.text[0..] == m.text;
    r', ts := SpliceExplained(m.text, FindAll(p, m.text, 0), 0, m.(text := ""), source, r, [], ts0);
  }

  lemma {:induction false} LitsRender(s: string) returns (ts: seq<Token>)
    ensures Render(ts) == s && Flat(ts, map[]) == s && NamesOk(ts) && forall t :: t in ts ==> t.Lit?
  {
    if s == "" {
      ts := [];
    } else {
      var us := LitsRender(s[1..]);
      ts := [Lit(s[0])] + us;
      assert ts[1..] == us;
    }
  }

  lemma MaskExplained(source: string) returns (r: Record, ts: seq<Token>)
    requires CoreFree(source)
    ensures Mask(source).text == Render(ts) && Explains(r, Mask(source), source, ts)
  {
    var m0 := Masked(source, NewGen(source), [], map[]);
    var ts0 := LitsRender(source);
    assert TextOk(Record(map[], map[]), source, ts0);
    assert forall q :: Ph(q) !in ts0;
    assert PlacesOk(Record(map[], map[]), m0, ts0);
    var r1, ts1 := PassExplained(InlineCode, m0, source, Record(map[], map[]), ts0);
    var m1 := MaskPass(InlineCode, m0);
    var r2, ts2 := PassExplained(AngleLink, m1, source, r1, ts1);
    r, ts := PassExplained(LinkUrl, MaskPass(AngleLink, m1), source, r2, ts2);
  }

  // ---------------------------------------------------------------- unmasking

  /** What unmasking does to the tokens. */
  function UnmaskTokens(ts: seq<Token>, ps: seq<string>, r: Record): seq<Token>
    decreases |ps|
  {
    if ps == [] then ts else UnmaskTokens(Subst(ts, ps[0], Def(r, ps[0])), ps[1..], r)
  }

  lemma {:induction false} SubstText(ts: seq<Token>, p: string, by_: seq<Token>, orig: map<string, string>)
    requires NamesOk(ts) && NamesOk(by_) && p in orig && Flat(by_, orig) == orig[p]
    ensures NamesOk(Subst(ts, p, by_)) && Flat(Subst(ts, p, by_), orig) == Flat(ts, orig)
  {
    if ts != [] {
      assert ts == [] + [ts[0]] + ts[1..];
      NamesOkParts([], [ts[0]], ts[1..]);
      SubstText(ts[1..], p, by_, orig);
      var head := if ts[0] == Ph(p) then by_ else [ts[0]];
      FlatConcat(head, Subst(ts[1..], p, by_), orig);
      assert [ts[0]][1..] == [];
    }
  }

  lemma {:induction false} UnmaskIsSubst(ts: seq<Token>, ps: seq<string>, r: Record, mapping: map<string, string>,
                                         source: string)
    requires TextOk(r, source, ts) && CoreFree(source) && Named(ps)
    requires forall p :: p in ps ==> EntryOk(r, mapping, p) && IsName(p)
    ensures Unmask(Render(ts), ps, mapping) == Render(UnmaskTokens(ts, ps, r))
    ensures TextOk(r, source, UnmaskTokens(ts, ps, r))
    decreases |ps|
  {
    if ps != [] {
      var p := ps[0];
      assert EntryOk(r, mapping, p) && p != "";
      SourceIsClean(ts, r.orig);
      ReplaceIsSubst(ts, p, Def(r, p));
      SubstText(ts, p, Def(r, p), r.orig);
      UnmaskIsSubst(Subst(ts, p, Def(r, p)), ps[1..], r, mapping, source);
    }
  }

  lemma {:induction false} SubstMembers(ts: seq<Token>, p: string, by_: seq<Token>, t: Token)
    ensures t in Subst(ts, p, by_) <==> (t in ts && t != Ph(p)) || (Ph(p) in ts && t in by_)
  {
    if ts != [] {
      SubstMembers(ts[1..], p, by_, t);
    }
  }

  /** If nothing was swallowed, no placeholder is left. */
  lemma {:induction false} AllUnmasked(ts: seq<Token>, ps: seq<string>, r: Record, q: string)
    requires forall p, x :: p in ps ==> Ph(x) !in Def(r, p)
    requires Ph(q) in UnmaskTokens(ts, ps, r)
    ensures Ph(q) in ts && q !in ps
    decreases |ps|
  {
    if ps != [] {
      AllUnmasked(Subst(ts, ps[0], Def(r, ps[0])), ps[1..], r, q);
      SubstMembers(ts, ps[0], Def(r, ps[0]), Ph(q));
    }
  }

  /** A placeholder that is in the tokens and is not to be replaced any more stays. */
  lemma {:induction false} StaysMasked(ts: seq<Token>, ps: seq<string>, r: Record, q: string)
    requires Ph(q) in ts && q !in ps
    ensures Ph(q) in UnmaskTokens(ts, ps, r)
    decreases |ps|
  {
    if ps != [] {
      SubstMembers(ts, ps[0], Def(r, ps[0]), Ph(q));
      StaysMasked(Subst(ts, ps[0], Def(r, ps[0])), ps[1..], r, q);
    }
  }

  /** A swallowed placeholder comes back when the later one that holds it is replaced, too late for itself. */
  lemma {:induction false} ComesBack(ts: seq<Token>, ps: seq<string>, r: Record, k: nat, q: string)
    requires k < |ps| && forall i, j :: 0 <= i < j < |ps| ==> ps[i] != ps[j]
    requires Ph(ps[k]) in ts && Ph(q) in Def(r, ps[k]) && q !in ps[k..]
    ensures Ph(q) in UnmaskTokens(ts, ps, r)
    decreases |ps|
  {
    var us := Subst(ts, ps[0], Def(r, ps[0]));
    if k == 0 {
      SubstMembers(ts, ps[0], Def(r, ps[0]), Ph(q));
      assert ps[0..] == ps;
      StaysMasked(us, ps[1..], r, q);
    } else {
      SubstMembers(ts, ps[0], Def(r, ps[0]), Ph(ps[k]));
      assert ps[1..][k - 1..] == ps[k..];
      ComesBack(us, ps[1..], r, k - 1, q);
    }
  }

  lemma {:induction false} LiteralTokens(ts: seq<Token>, orig: map<string, string>)
    requires forall t :: t in ts ==> t.Lit?
    ensures Render(ts) == Flat(ts, orig)
  {
    if ts != [] {
      assert ts[0] in ts;
      LiteralTokens(ts[1..], orig);
    }
  }

  lemma PlaceholderHasCore(ts: seq<Token>, q: string)
    requires Ph(q) in ts && IsName(q)
    ensures !CoreFree(Render(ts))
  {
    var i := TokenOccurs(ts, q);
    NameShape(q);
    var s := Render(ts);
    OccursAtIsPrefix(s, q, i);
    PrefixTail(s[i..], q, 2);
    assert s[i..][2..] == s[i + 2..];
    CorePrefix(s[i + 2..], q[2..], 0);
  }

  // ---------------------------------------------------------------- main results

  /** No placeholder is swallowed. */
  ghost predicate NoneSwallowed(r: Record, m: Masked) {
    forall i: nat :: i < |m.placeholders| ==> !Swallowed(r, m, i)
  }

  lemma {:induction false} LastSwallowed(r: Record, m: Masked, n: nat) returns (i: nat)
    requires n <= |m.placeholders| && !NoneSwallowed(r, m)
    requires forall j: nat :: n <= j < |m.placeholders| ==> !Swallowed(r, m, j)
    ensures i < |m.placeholders| && Swallowed(r, m, i)
    ensures forall j: nat :: i < j < |m.placeholders| ==> !Swallowed(r, m, j)
    decreases n
  {
    if Swallowed(r, m, n - 1) {
      i := n - 1;
    } else {
      i := LastSwallowed(r, m, n - 1);
    }
  }

  lemma ValidateMeansNoneSwallowed(r: Record, m: Masked, source: string, ts: seq<Token>)
    requires m.text == Render(ts) && Explains(r, m, source, ts) && CoreFree(source)
    ensures Validate(m.text, m.placeholders) <==> NoneSwallowed(r, m)
  {
    SourceIsClean(ts, r.orig);
    forall i: nat | i < |m.placeholders|
      ensures Contains(m.text, m.placeholders[i]) <==> !Swallowed(r, m, i)
    {
      assert m.placeholders[i] in m.placeholders;
      ContainsIsToken(ts, m.placeholders[i]);
    }
  }

  lemma UnmaskWhenNoneSwallowed(r: Record, m: Masked, source: string, ts: seq<Token>)
    requires m.text == Render(ts) && Explains(r, m, source, ts) && CoreFree(source) && Named(m.placeholders)
    requires NoneSwallowed(r, m)
    ensures Unmask(m.text, m.placeholders, m.mapping) == source
  {
    var us := UnmaskTokens(ts, m.placeholders, r);
    UnmaskIsSubst(ts, m.placeholders, r, m.mapping, source);
    forall p, x | p in m.placeholders
      ensures Ph(x) !in Def(r, p)
    {
      if Ph(x) in Def(r, p) {
        HolderSwallows(r, m, ts, p, x);
      }
    }
    forall t | t in us
      ensures t.Lit?
    {
      if t.Ph? {
        AllUnmasked(ts, m.placeholders, r, t.name);
      }
    }
    LiteralTokens(us, r.orig);
  }

  lemma HolderSwallows(r: Record, m: Masked, ts: seq<Token>, p: string, x: string)
    requires PlacesOk(r, m, ts) && p in m.placeholders && Ph(x) in Def(r, p)
    ensures !NoneSwallowed(r, m)
  {
    hide Def;
    var j :| 0 <= j < |m.placeholders| && m.placeholders[j] == p;
    var i := EarlierPlace(m.placeholders, j, x);
    assert Swallowed(r, m, i);
  }

  lemma EarlierPlace(ps: seq<string>, j: nat, x: string) returns (i: nat)
    requires j < |ps| && x in ps[..j]
    ensures i < j && ps[i] == x
  {
    i :| 0 <= i < j && ps[..j][i] == x;
  }

  lemma UnmaskWhenSwallowed(r: Record, m: Masked, source: string, ts: seq<Token>)
    requires m.text == Render(ts) && Explains(r, m, source, ts) && CoreFree(source) && Named(m.placeholders)
    requires !NoneSwallowed(r, m)
    ensures Unmask(m.text, m.placeholders, m.mapping) != source
  {
    var ps := m.placeholders;
    UnmaskIsSubst(ts, ps, r, m.mapping, source);
    var i := LastSwallowed(r, m, |ps|);
    var k :| i < k < |ps| && Ph(ps[i]) in Def(r, ps[k]);
    assert !Swallowed(r, m, k);
    assert ps[i] !in ps[k..];
    ComesBack(ts, ps, r, k, ps[i]);
    assert ps[i] in ps;
    PlaceholderHasCore(UnmaskTokens(ts, ps, r), ps[i]);
  }

  /** For every text without `OC_I18N_` followed by a digit: the placeholders are distinct and none is cut by a
      later pass, each being whole either in the masked text or in what a later placeholder stands for;
      validation accepts the masked text exactly when no later placeholder holds an earlier one; and unmasking
      the masked text gives the text back exactly when validation accepts. */
  lemma MaskRoundTrip(source: string)
    requires CoreFree(source)
    ensures var m := Mask(source);
      && (forall i, j :: 0 <= i < j < |m.placeholders| ==> m.placeholders[i] != m.placeholders[j])
      && (forall i: nat :: i < |m.placeholders| ==> Contains(m.text, m.placeholders[i]) || HeldLater(m, i))
      && (Validate(m.text, m.placeholders) <==> forall i: nat :: i < |m.placeholders| ==> !HeldLater(m, i))
      && (Unmask(m.text, m.placeholders, m.mapping) == source <==> Validate(m.text, m.placeholders))
  {
    var m := Mask(source);
    var r, ts := MaskExplained(source);
    SourceIsClean(ts, r.orig);
    forall i: nat | i < |m.placeholders|
      ensures Contains(m.text, m.placeholders[i]) <==> !Swallowed(r, m, i)
      ensures HeldLater(m, i) <==> Swallowed(r, m, i)
    {
      assert m.placeholders[i] in m.placeholders;
      ContainsIsToken(ts, m.placeholders[i]);
      HeldIsSwallowed(r, m, source, ts, i);
    }
    ValidateMeansNoneSwallowed(r, m, source, ts);
    if NoneSwallowed(r, m) {
      UnmaskWhenNoneSwallowed(r, m, source, ts);
    } else {
      UnmaskWhenSwallowed(r, m, source, ts);
    }
  }

  /** What a later placeholder stands for contains the i-th placeholder. */
  ghost predicate HeldLater(m: Masked, i: nat)
    requires i < |m.placeholders|
  {
    exists j :: i < j < |m.placeholders| && m.placeholders[j] in m.mapping
                && Contains(m.mapping[m.placeholders[j]], m.placeholders[i])
  }

  lemma HeldIsSwallowed(r: Record, m: Masked, source: string, ts: seq<Token>, i: nat)
    requires Explains(r, m, source, ts) && i < |m.placeholders|
    ensures HeldLater(m, i) <==> Swallowed(r, m, i)
  {
    assert m.placeholders[i] in m.placeholders;
    forall j | i < j < |m.placeholders|
      ensures m.placeholders[j] in m.mapping
      ensures Contains(m.mapping[m.placeholders[j]], m.placeholders[i])
          <==> Ph(m.placeholders[i]) in Def(r, m.placeholders[j])
    {
      assert m.placeholders[j] in m.placeholders;
      assert EntryOk(r, m.mapping, m.placeholders[j]);
      ContainsIsToken(Def(r, m.placeholders[j]), m.placeholders[i]);
    }
  }

  // ---------------------------------------------------------------- a model that echoes its input

  predicate Trimmed(s: string) {
    s != "" && !IsSpace(s[0]) && !IsSpace(s[|s| - 1])
  }

  lemma TrimmedStays(s: string)
    requires Trimmed(s)
    ensures TrimSpace(s) == s
  {
  }

  lemma {:induction false} LastChar(ts: seq<Token>, orig: map<string, string>)
    requires NamesOk(ts) && ts != []
    ensures Render(ts) != ""
    ensures var s := Render(ts); var t := ts[|ts| - 1];
            s[|s| - 1] == '_' || (t.Lit? && s[|s| - 1] == t.c)
  {
    if |ts| == 1 {
      assert ts[1..] == [];
      if ts[0].Ph? {
        NameShape(ts[0].name);
      }
    } else {
      assert ts[1..][|ts| - 2] == ts[|ts| - 1];
      NamesOkTail(ts, 1);
      LastChar(ts[1..], orig);
      var h, rest := RenderOne(ts[0]), Render(ts[1..]);
      assert (h + rest)[|h + rest| - 1] == rest[|rest| - 1];
    }
  }

  lemma FirstChar(ts: seq<Token>, orig: map<string, string>)
    requires NamesOk(ts) && ts != [] && Flat(ts, orig) != ""
    ensures Render(ts) != "" && (Render(ts)[0] == '_' || Render(ts)[0] == Flat(ts, orig)[0])
  {
    if ts[0].Ph? {
      NameShape(ts[0].name);
    }
  }

  lemma FlatLast(ts: seq<Token>, orig: map<string, string>)
    requires ts != [] && ts[|ts| - 1].Lit?
    ensures Flat(ts, orig) != "" && Flat(ts, orig)[|Flat(ts, orig)| - 1] == ts[|ts| - 1].c
  {
    var n := |ts| - 1;
    assert ts == ts[..n] + [ts[n]];
    FlatConcat(ts[..n], [ts[n]], orig);
    assert [ts[n]][1..] == [];
    assert Flat([ts[n]], orig) == [ts[n].c];
  }

  /** The masked form of a trimmed text is trimmed: it begins and ends as the text does, or with an underscore. */
  lemma MaskedIsTrimmed(source: string, ts: seq<Token>, orig: map<string, string>)
    requires Trimmed(source) && NamesOk(ts) && Flat(ts, orig) == source
    ensures Trimmed(Render(ts))
  {
    assert ts != [];
    LastChar(ts, orig);
    FirstChar(ts, orig);
    if ts[|ts| - 1].Lit? {
      FlatLast(ts, orig);
    }
  }

  /** If the model returns the masked text unchanged, the translation of a trimmed text is that text, unless a
      placeholder was swallowed, in which case the translation is rejected. */
  lemma EchoTranslation(core: string)
    requires CoreFree(core) && Trimmed(core)
    ensures var m := Mask(core);
            TranslateMasked(core, m.text) ==
              if forall i: nat :: i < |m.placeholders| ==> !HeldLater(m, i) then Translated(core)
              else PlaceholderMissing
  {
    var r, ts := MaskExplained(core);
    MaskedIsTrimmed(core, ts, r.orig);
    TrimmedStays(Mask(core).text);
    MaskRoundTrip(core);
  }

  // ---------------------------------------------------------------- a swallowed placeholder

  /** The link `[x](<https://a>)`: its angle link becomes the first placeholder, which the link's own
      placeholder then holds. Validation rejects it, and unmasking would not restore it. */
  lemma NestedLinkIsSwallowed()
    ensures var s := "[x](<https://a>)";
            && !Validate(Mask(s).text, Mask(s).placeholders)
            && Unmask(Mask(s).text, Mask(s).placeholders, Mask(s).mapping) != s
  {
    var s := "[x](<https://a>)";
    NestedLinkIsCoreFree();
    var p, q := NestedLinkMasked();
    HeldWhole(Mask(s), p, q);
    MaskRoundTrip(s);
  }

  lemma NestedLinkMasked() returns (p: string, q: string)
    ensures var m := Mask("[x](<https://a>)"); m.placeholders == [p, q] && q in m.mapping && m.mapping[q] == p
  {
    hide MaskPass, FindAll, NextName, NextGen, NewGen, IsName;
    var s := "[x](<https://a>)";
    p := NestedAngleMasked(s, NewGen(s));
    var m2 := MaskPass(AngleLink, MaskPass(InlineCode, Masked(s, NewGen(s), [], map[])));
    LinkAroundName(p);
    PassOnce(LinkUrl, m2, Span(0, 4, 4 + |p|, 5 + |p|));
    q := NextName(m2.gen);
    assert m2.text[4..4 + |p|] == p;
  }

  lemma NestedAngleMasked(s: string, g: Gen) returns (p: string)
    requires s == "[x](<https://a>)"
    ensures IsName(p)
    ensures var m := MaskPass(AngleLink, MaskPass(InlineCode, Masked(s, g, [], map[])));
            m.text == "[x](" + p + ")" && m.placeholders == [p]
  {
    hide MaskPass, FindAll, NextName, NextGen, IsName;
    var m0 := Masked(s, g, [], map[]);
    NoBackticks(s, 0);
    PassNothing(InlineCode, m0);
    AngleInNestedLink(s);
    PassOnce(AngleLink, m0, Span(4, 4, 15, 15));
    p := NextName(g);
    NextIsName(g);
    NestedLinkParts(s);
  }

  lemma NestedLinkParts(s: string)
    requires s == "[x](<https://a>)"
    ensures s[..4] == "[x](" && s[15..] == ")"
  {
    assert s == "[x](" + "<https://a>" + ")";
  }

  lemma PassNothing(p: Pattern, m: Masked)
    requires FindAll(p, m.text, 0) == []
    ensures MaskPass(p, m) == m
  {
    assert "" + m.text[0..] == m.text;
  }

  lemma NextIsName(g: Gen)
    ensures IsName(NextName(g))
  {
  }

  lemma HeldWhole(m: Masked, p: string, q: string)
    requires m.placeholders == [p, q] && q in m.mapping && m.mapping[q] == p
    ensures HeldLater(m, 0)
  {
    assert OccursAt(p, p, 0);
    assert Contains(m.mapping[m.placeholders[1]], m.placeholders[0]);
  }

  lemma PassOnce(p: Pattern, m: Masked, x: Span)
    requires FindAll(p, m.text, 0) == [x]
    ensures SpanOk(m.text, x)
    ensures var q := NextName(m.gen);
            MaskPass(p, m) == Masked(m.text[..x.start] + q + m.text[x.end..], NextGen(m.gen),
                                     m.placeholders + [q], m.mapping[q := m.text[x.start..x.end]])
  {
    hide FindAll, NextName, NextGen;
    assert SpanOk(m.text, FindAll(p, m.text, 0)[0]);
    SpliceSingle(m.text, x, m.(text := ""));
  }

  lemma SpliceSingle(text: string, x: Span, m: Masked)
    requires SpanOk(text, x) && m.text == ""
    ensures var q := NextName(m.gen);
            Splice(text, [x], 0, m) == Masked(text[..x.start] + q + text[x.end..], NextGen(m.gen),
                                              m.placeholders + [q], m.mapping[q := text[x.start..x.end]])
  {
    hide NextName, NextGen, Cut;
    assert [x][1..] == [];
    var a := Append(m, text[0..x.start], text[x.start..x.end]);
    assert a.text == text[..x.start] + NextName(m.gen);
    assert Splice(text, [x], 0, m) == Splice(text, [], x.end, a);
  }

  lemma NestedLinkIsCoreFree()
    ensures CoreFree("[x](<https://a>)")
  {
    assert 'O' !in "[x](<https://a>)";
    NoCapitalO("[x](<https://a>)");
  }

  lemma NoCapitalO(s: string)
    requires 'O' !in s
    ensures CoreFree(s)
  {
    forall i | 0 <= i <= |s|
      ensures !Core(s[i..], 0)
    {
      if i < |s| {
        assert s[i..][0] in s;
      }
    }
  }

  lemma {:induction false} NoBackticks(s: string, i: nat)
    requires i <= |s| && '`' !in s
    ensures FindAll(InlineCode, s, i) == []
    decreases |s| - i
  {
    if i < |s| {
      assert s[i] in s;
      NoBackticks(s, i + 1);
    }
  }

  lemma StartsOtherwise(s: string, p: string, i: nat)
    requires i < |s| && p != "" && s[i] != p[0]
    ensures !OccursAt(s, p, i)
  {
    if i + |p| <= |s| {
      assert s[i..i + |p|][0] == s[i];
    }
  }

  /** The first place of a character. */
  lemma FirstPlace(s: string, c: char, i: nat, j: nat)
    requires i <= j < |s| && s[j] == c && forall k :: i <= k < j ==> s[k] != c
    ensures IndexFrom(s, [c], i) == j
  {
    assert OccursAt(s, [c], j);
    forall k: nat | i <= k < j
      ensures !OccursAt(s, [c], k)
    {
      StartsOtherwise(s, [c], k);
    }
    IndexIs(s, [c], i, j);
  }

  lemma {:induction false} NoAngle(s: string, i: nat, j: nat)
    requires i <= j <= |s| && forall k :: i <= k < j ==> s[k] != '<'
    ensures FindAll(AngleLink, s, i) == FindAll(AngleLink, s, j)
    decreases j - i
  {
    if i < j {
      StartsOtherwise(s, "<https://", i);
      StartsOtherwise(s, "<http://", i);
      NoAngle(s, i + 1, j);
    }
  }

  lemma AngleInNestedLink(s: string)
    requires s == "[x](<https://a>)"
    ensures FindAll(AngleLink, s, 0) == [Span(4, 4, 15, 15)]
  {
    NoAngle(s, 0, 4);
    assert s[4..13] == "<https://";
    assert OccursAt(s, "<https://", 4);
    FirstPlace(s, '>', 13, 14);
    assert AngleLinkAt(s, 4) == Match(Span(4, 4, 15, 15));
    NoAngle(s, 15, 16);
    assert FindAll(AngleLink, s, 16) == [];
  }

  lemma LinkAroundName(p: string)
    requires IsName(p)
    ensures var s := "[x](" + p + ")"; FindAll(LinkUrl, s, 0) == [Span(0, 4, 4 + |p|, 5 + |p|)]
  {
    var s := "[x](" + p + ")";
    NameShape(p);
    FirstPlace(s, ']', 1, 2);
    assert s[2..4] == "](";
    assert OccursAt(s, "](", 2);
    assert forall k :: 4 <= k < 4 + |p| ==> s[k] == p[k - 4];
    FirstPlace(s, ')', 4, 4 + |p|);
    assert LinkUrlAt(s, 0) == Match(Span(0, 4, 4 + |p|, 5 + |p|));
    assert FindAll(LinkUrl, s, 5 + |p|) == [];
  }

  /** What becomes of any reply of the model: it is refused exactly if nothing but white space is in it, or if it
      lacks a placeholder of the masked text; otherwise its placeholders are replaced. */
  lemma ReplyExactly(core: string, reply: string)
    ensures var m, r := Mask(core), TranslateMasked(core, reply);
            && (r == EmptyTranslation <==> forall i :: 0 <= i < |reply| ==> IsSpace(reply[i]))
            && (r == PlaceholderMissing <==>
                && (exists i :: 0 <= i < |reply| && !IsSpace(reply[i]))
                && exists p :: p in m.placeholders && !Occurs(TrimSpace(reply), p))
            && (r.Translated? ==> r.text == Unmask(TrimSpace(reply), m.placeholders, m.mapping))
  {
    hide Mask, Unmask, TrimSpace, Occurs;
    TrimsToNothing(reply);
  }
}
