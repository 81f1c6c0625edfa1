/** Placeholder masking of scripts/docs-i18n: `placeholders.go` and `masking.go`. The regular expressions are
    written out as the matches they have: each consists of fixed delimiters around negated classes, so the match
    that starts at a position is determined by the next delimiters. */
module Masking {
  import opened Texts
  import opened Decimal

  const PREFIX := "__OC_I18N_"
  const SUFFIX := "__"
  const FIRST := 900000

  function Name(n: nat): string {
    PREFIX + Digits(n) + SUFFIX
  }

  lemma NameInjective(m: nat, n: nat)
    requires Name(m) == Name(n)
    ensures m == n
  {
    assert Name(m)[|PREFIX|..|Name(m)| - 2] == Digits(m);
    assert Name(n)[|PREFIX|..|Name(n)| - 2] == Digits(n);
    DigitsInjective(m, n);
  }

  // ---------------------------------------------------------------- the placeholder supply

  /** A placeholder state: the next number to try and the names already taken. */
  datatype Gen = Gen(counter: nat, used: set<string>)

  function RunEnd(s: string, i: nat): (j: nat)
    requires i <= |s|
    ensures i <= j <= |s| && (forall k :: i <= k < j ==> IsDigit(s[k])) && (j < |s| ==> !IsDigit(s[j]))
    decreases |s| - i
  {
    if i < |s| && IsDigit(s[i]) then RunEnd(s, i + 1) else i
  }

  /** The end of a match of `__OC_I18N_\d+__` at i, or i if there is none. */
  function PlaceholderAt(s: string, i: nat): (end: nat)
    requires i <= |s|
    ensures i <= end <= |s|
  {
    if !OccursAt(s, PREFIX, i) then i
    else
      var j := RunEnd(s, i + |PREFIX|);
      if j > i + |PREFIX| && OccursAt(s, SUFFIX, j) then j + |SUFFIX| else i
  }

  /** The names the text already uses: matches that do not overlap. */
  function UsedIn(s: string, i: nat): set<string>
    requires i <= |s|
    decreases |s| - i
  {
    var end := PlaceholderAt(s, i);
    if end > i then {s[i..end]} + UsedIn(s, end)
    else if i < |s| then UsedIn(s, i + 1)
    else {}
  }

  function NewGen(text: string): Gen {
    Gen(FIRST, UsedIn(text, 0))
  }

  /** The used names numbered n or higher. */
  ghost function UsedFrom(used: set<string>, n: nat): set<string> {
    set u | u in used && exists k: nat :: k >= n && u == Name(k)
  }

  lemma UsedShrinks(used: set<string>, n: nat)
    requires Name(n) in used
    ensures |UsedFrom(used, n + 1)| < |UsedFrom(used, n)|
  {
    var a, b := UsedFrom(used, n + 1), UsedFrom(used, n);
    assert Name(n) in b;
    if Name(n) in a {
      var k: nat :| k >= n + 1 && Name(n) == Name(k);
      NameInjective(n, k);
    }
    assert a <= b - {Name(n)};
    SubsetSize(a, b - {Name(n)});
  }

  lemma {:induction false} SubsetSize(a: set<string>, b: set<string>)
    requires a <= b
    ensures |a| <= |b|
  {
    if x :| x in a {
      SubsetSize(a - {x}, b - {x});
    } else {
      assert a == {};
    }
  }

  /** The least free number from n on. */
  function FreeFrom(n: nat, used: set<string>): (k: nat)
    ensures n <= k && Name(k) !in used
    ensures forall j: nat :: n <= j < k ==> Name(j) in used
    decreases |UsedFrom(used, n)|
  {
    if Name(n) in used then
      UsedShrinks(used, n);
      FreeFrom(n + 1, used)
    else n
  }

  function NextGen(g: Gen): Gen {
    var k := FreeFrom(g.counter, g.used);
    Gen(k + 1, g.used + {Name(k)})
  }

  function NextName(g: Gen): (name: string)
    ensures name !in g.used
    ensures exists k: nat :: k >= g.counter && name == Name(k)
  {
    Name(FreeFrom(g.counter, g.used))
  }

  class PlaceholderState {
    var counter: nat
    var used: set<string>

    constructor (text: string)
      ensures State() == NewGen(text)
    {
      counter := FIRST;
      used := UsedIn(text, 0);
    }

    ghost function State(): Gen
      reads this
    {
      Gen(counter, used)
    }

    method Next() returns (candidate: string)
      modifies this
      ensures candidate == NextName(old(State())) && State() == NextGen(old(State()))
    {
      candidate := Name(counter);
      while candidate in used
        invariant used == old(used) && candidate == Name(counter)
        invariant FreeFrom(counter, used) == FreeFrom(old(counter), used)
        decreases |UsedFrom(used, counter)|
      {
        UsedShrinks(used, counter);
        counter := counter + 1;
        candidate := Name(counter);
      }
      counter := counter + 1;
      used := used + {candidate};
    }
  }

  // ---------------------------------------------------------------- the three patterns

  datatype Pattern = InlineCode | AngleLink | LinkUrl

  /** A match: it begins at `full` and ends at `stop`; the text from `start` to `end` is to be masked. */
  datatype Span = Span(full: nat, start: nat, end: nat, stop: nat)

  datatype Match = NoMatch | Match(span: Span)

  /** A backtick, at least one other character, a backtick. */
  function InlineCodeAt(s: string, i: nat): (m: Match)
    requires i < |s|
    ensures m.Match? ==> SpanOk(s, m.span) && m.span.full == i
  {
    if s[i] != '`' then NoMatch
    else
      var j := IndexFrom(s, "`", i + 1);
      if j >= i + 2 then Match(Span(i, i, j + 1, j + 1)) else NoMatch
  }

  /** `<http://` or `<https://`, at least one character other than `>`, then `>`. */
  function AngleLinkAt(s: string, i: nat): (m: Match)
    requires i < |s|
    ensures m.Match? ==> SpanOk(s, m.span) && m.span.full == i
  {
    var k := if OccursAt(s, "<https://", i) then i + 9 else if OccursAt(s, "<http://", i) then i + 8 else 0;
    if k == 0 then NoMatch
    else
      var j := IndexFrom(s, ">", k);
      if j >= k + 1 then Match(Span(i, i, j + 1, j + 1)) else NoMatch
  }

  /** `[`, a label without `]`, `](`, at least one character other than `)`, then `)`; the part in parentheses
      is the span. */
  function LinkUrlAt(s: string, i: nat): (m: Match)
    requires i < |s|
    ensures m.Match? ==> SpanOk(s, m.span) && m.span.full == i
  {
    if s[i] != '[' then NoMatch
    else
      var j := IndexFrom(s, "]", i + 1);
      if j == -1 || !OccursAt(s, "](", j) then NoMatch
      else
        var k := IndexFrom(s, ")", j + 2);
        if k >= j + 3 then Match(Span(i, j + 2, k, k + 1)) else NoMatch
  }

  function MatchAt(p: Pattern, s: string, i: nat): (m: Match)
    requires i < |s|
    ensures m.Match? ==> SpanOk(s, m.span) && m.span.full == i
  {
    match p
    case InlineCode => InlineCodeAt(s, i)
    case AngleLink => AngleLinkAt(s, i)
    case LinkUrl => LinkUrlAt(s, i)
  }

  /** A character that no placeholder contains. */
  predicate Outside(c: char) {
    c != '_' && c != 'O' && c != 'C' && c != 'I' && c != 'N' && !IsDigit(c)
  }

  /** Position k does not lie between two characters that could both be in a placeholder. */
  predicate Cut(s: string, k: nat) {
    k <= |s| && (0 < k < |s| ==> Outside(s[k - 1]) || Outside(s[k]))
  }

  predicate SpanOk(s: string, x: Span) {
    x.full <= x.start < x.end <= x.stop <= |s| && Cut(s, x.start) && Cut(s, x.end)
  }

  /** Leftmost matches that do not overlap, from position i on. */
  function FindAll(p: Pattern, s: string, i: nat): (spans: seq<Span>)
    requires i <= |s|
    ensures forall k :: 0 <= k < |spans| ==> SpanOk(s, spans[k]) && i <= spans[k].full
    decreases |s| - i
  {
    if i == |s| then []
    else
      match MatchAt(p, s, i)
      case NoMatch => FindAll(p, s, i + 1)
      case Match(x) => [x] + FindAll(p, s, x.stop)
  }

  // ---------------------------------------------------------------- masking

  /** The text so far, the supply, the placeholders in the order they were made, and what each stands for. */
  datatype Masked = Masked(text: string, gen: Gen, placeholders: seq<string>, mapping: map<string, string>)

  /** Placeholders are never empty. */
  predicate Named(placeholders: seq<string>) {
    forall i :: 0 <= i < |placeholders| ==> placeholders[i] != ""
  }

  /** A new placeholder for `covered`, after `gap`. */
  function Append(m: Masked, gap: string, covered: string): (r: Masked)
    ensures Named(m.placeholders) ==> Named(r.placeholders)
  {
    var p := NextName(m.gen);
    Masked(m.text + gap + p, NextGen(m.gen), m.placeholders + [p], m.mapping[p := covered])
  }

  /** The output once the remaining spans of `text` have been handled, `text[..pos]` being done. */
  function Splice(text: string, spans: seq<Span>, pos: nat, m: Masked): (r: Masked)
    requires pos <= |text| && forall k :: 0 <= k < |spans| ==> SpanOk(text, spans[k])
    ensures Named(m.placeholders) ==> Named(r.placeholders)
  {
    if spans == [] then m.(text := m.text + text[pos..])
    else
      var x := spans[0];
      assert SpanOk(text, x);
      if x.full < pos then Splice(text, spans[1..], pos, m)
      else Splice(text, spans[1..], x.end, Append(m, text[pos..x.start], text[x.start..x.end]))
  }

  function MaskPass(p: Pattern, m: Masked): (r: Masked)
    ensures Named(m.placeholders) ==> Named(r.placeholders)
  {
    Splice(m.text, FindAll(p, m.text, 0), 0, m.(text := ""))
  }

  function Mask(text: string): (r: Masked)
    ensures Named(r.placeholders)
  {
    var m := Masked(text, NewGen(text), [], map[]);
    MaskPass(LinkUrl, MaskPass(AngleLink, MaskPass(InlineCode, m)))
  }

  /** `maskMatches` and `maskLinkURLs`: the same loop, over whole matches or over the group of each match. */
  method MaskMatches(text: string, p: Pattern, next: PlaceholderState, placeholders0: seq<string>,
                     mapping0: map<string, string>)
    returns (out: string, placeholders: seq<string>, mapping: map<string, string>)
    modifies next
    ensures Masked(out, next.State(), placeholders, mapping)
         == MaskPass(p, Masked(text, old(next.State()), placeholders0, mapping0))
  {
    placeholders, mapping := placeholders0, mapping0;
    var spans := FindAll(p, text, 0);
    if spans == [] {
      return text, placeholders, mapping;
    }
    out := "";
    var pos := 0;
    var i := 0;
    while i < |spans|
      invariant 0 <= i <= |spans| && 0 <= pos <= |text|
      invariant Splice(text, spans[i..], pos, Masked(out, next.State(), placeholders, mapping))
             == MaskPass(p, Masked(text, old(next.State()), placeholders0, mapping0))
    {
      var x := spans[i];
      assert spans[i..][1..] == spans[i + 1..];
      i := i + 1;
      if x.full < pos {
        continue;
      }
      out := out + text[pos..x.start];
      var placeholder := next.Next();
      mapping := mapping[placeholder := text[x.start..x.end]];
      placeholders := placeholders + [placeholder];
      out := out + placeholder;
      pos := x.end;
    }
    out := out + text[pos..];
  }

  method MaskMarkdown(text: string, next: PlaceholderState)
    returns (masked: string, placeholders: seq<string>, mapping: map<string, string>)
    requires next.State() == NewGen(text)
    modifies next
    ensures Masked(masked, next.State(), placeholders, mapping) == Mask(text)
  {
    masked, placeholders, mapping := MaskMatches(text, InlineCode, next, [], map[]);
    masked, placeholders, mapping := MaskMatches(masked, AngleLink, next, placeholders, mapping);
    masked, placeholders, mapping := MaskMatches(masked, LinkUrl, next, placeholders, mapping);
  }

  // ---------------------------------------------------------------- unmasking and validation

  /** Every placeholder replaced by what it stands for, in the order the placeholders were made. A missing map
      entry reads as the empty string. */
  function Unmask(text: string, placeholders: seq<string>, mapping: map<string, string>): string
    requires Named(placeholders)
    decreases |placeholders|
  {
    if placeholders == [] then text
    else
      var p := placeholders[0];
      var value := if p in mapping then mapping[p] else "";
      Unmask(ReplaceAll(text, p, value), placeholders[1..], mapping)
  }

  predicate Validate(text: string, placeholders: seq<string>) {
    forall i :: 0 <= i < |placeholders| ==> Contains(text, placeholders[i])
  }

  method UnmaskMarkdown(text: string, placeholders: seq<string>, mapping: map<string, string>)
    returns (out: string)
    requires Named(placeholders)
    ensures out == Unmask(text, placeholders, mapping)
  {
    out := text;
    var i := 0;
    while i < |placeholders|
      invariant 0 <= i <= |placeholders|
      invariant Unmask(out, placeholders[i..], mapping) == Unmask(text, placeholders, mapping)
    {
      var p := placeholders[i];
      assert placeholders[i..][1..] == placeholders[i + 1..];
      out := ReplaceAll(out, p, if p in mapping then mapping[p] else "");
      i := i + 1;
    }
  }

  method ValidatePlaceholders(text: string, placeholders: seq<string>) returns (ok: bool)
    ensures ok == Validate(text, placeholders)
  {
    for i := 0 to |placeholders|
      invariant forall j :: 0 <= j < i ==> Contains(text, placeholders[j])
    {
      if !Contains(text, placeholders[i]) {
        return false;
      }
    }
    return true;
  }

  datatype Translation = Translated(text: string) | EmptyTranslation | PlaceholderMissing

  /** `translateMasked`, with the model's reply as an input. */
  function TranslateMasked(core: string, reply: string): Translation {
    var m := Mask(core);
    var translated := TrimSpace(reply);
    if translated == "" then EmptyTranslation
    else if !Validate(translated, m.placeholders) then PlaceholderMissing
    else Translated(Unmask(translated, m.placeholders, m.mapping))
  }
}
