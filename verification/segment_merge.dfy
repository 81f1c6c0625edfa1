/** Collecting the translatable segments of a document from the walk over its syntax tree,
    scripts/docs-i18n/markdown_segments.go. */
module SegmentMerges {
  import opened JsMaps
  import opened Texts

  /** What the walk sees: entering and leaving code and raw HTML, and text nodes with the translatable block they
      belong to, if any. */
  datatype Event = EnterCode | LeaveCode | TextNode(block: Option<nat>, start: nat, stop: nat)

  datatype Segment = Segment(start: nat, stop: nat)

  datatype Collector = Collector(segments: seq<Segment>, lastBlock: Option<nat>, skipDepth: int)

  const Fresh := Collector([], None, 0)

  predicate Blank(s: string) {
    TrimSpace(s) == ""
  }

  /** The event is a text node whose text is collected. */
  predicate Collected(source: string, skipDepth: int, e: Event) {
    e.TextNode? && e.start <= e.stop <= |source| && skipDepth <= 0 && e.block.Some? && !Blank(source[e.start..e.stop])
  }

  predicate Joins(source: string, c: Collector, e: Event)
    requires e.TextNode? && e.start <= e.stop <= |source|
  {
    && c.segments != [] && c.lastBlock == e.block
    && c.segments[|c.segments| - 1].stop <= e.start
    && Blank(source[c.segments[|c.segments| - 1].stop..e.start])
  }

  function Step(source: string, c: Collector, e: Event): Collector {
    match e
    case EnterCode => c.(skipDepth := c.skipDepth + 1)
    case LeaveCode => c.(skipDepth := c.skipDepth - 1)
    case TextNode(block, start, stop) =>
      if !Collected(source, c.skipDepth, e) then c
      else if Joins(source, c, e) then
        var n := |c.segments| - 1;
        c.(segments := c.segments[..n] + [Segment(c.segments[n].start, stop)])
      else c.(segments := c.segments + [Segment(start, stop)], lastBlock := block)
  }

  function Walk(source: string, es: seq<Event>): Collector {
    if es == [] then Fresh else Step(source, Walk(source, es[..|es| - 1]), es[|es| - 1])
  }

  /** Text nodes come in document order, within the document. */
  predicate Ascending(source: string, es: seq<Event>)
    ensures Ascending(source, es) ==> Reached(es) <= |source|
  {
    if es == [] then true
    else
      var init, last := es[..|es| - 1], es[|es| - 1];
      && Ascending(source, init)
      && (last.TextNode? ==> Reached(init) <= last.start <= last.stop <= |source|)
  }

  function Reached(es: seq<Event>): nat {
    if es == [] then 0
    else
      var last := es[|es| - 1];
      if last.TextNode? then last.stop else Reached(es[..|es| - 1])
  }

  method ExtractSegments(source: string, es: seq<Event>) returns (segments: seq<Segment>)
    requires Ascending(source, es)
    ensures segments == Walk(source, es).segments
  {
    segments := [];
    var skipDepth := 0;
    var lastBlock: Option<nat> := None;
    assert es[..0] == [];
    for i := 0 to |es|
      invariant Collector(segments, lastBlock, skipDepth) == Walk(source, es[..i])
    {
      assert es[..i + 1][..i] == es[..i];
      AscendingPrefix(source, es, i + 1);
      WalkOrdered(source, es[..i]);
      match es[i] {
        case EnterCode => skipDepth := skipDepth + 1;
        case LeaveCode => skipDepth := skipDepth - 1;
        case TextNode(block, start, stop) =>
          if skipDepth > 0 || block.None? || TrimSpace(source[start..stop]) == "" {
            continue;
          }
          var n := |segments| - 1;
          if n >= 0 && lastBlock == block && TrimSpace(source[segments[n].stop..start]) == "" {
            segments := segments[..n] + [Segment(segments[n].start, stop)];
            continue;
          }
          segments := segments + [Segment(start, stop)];
          lastBlock := block;
      }
    }
    assert es[..|es|] == es;
  }

  lemma {:induction false} AscendingPrefix(source: string, es: seq<Event>, n: nat)
    requires Ascending(source, es) && n <= |es|
    ensures Ascending(source, es[..n])
    decreases |es|
  {
    if n < |es| {
      assert es[..|es| - 1][..n] == es[..n];
      AscendingPrefix(source, es[..|es| - 1], n);
    } else {
      assert es[..n] == es;
    }
  }

  // ---------------------------------------------------------------- sorted and disjoint

  function Stop(ss: seq<Segment>): nat {
    if ss == [] then 0 else ss[|ss| - 1].stop
  }

  /** Disjoint segments from left to right. */
  predicate InOrder(ss: seq<Segment>) {
    if ss == [] then true
    else
      var last := ss[|ss| - 1];
      InOrder(ss[..|ss| - 1]) && Stop(ss[..|ss| - 1]) <= last.start <= last.stop
  }

  lemma {:induction false} WalkOrdered(source: string, es: seq<Event>)
    requires Ascending(source, es)
    ensures InOrder(Walk(source, es).segments) && Stop(Walk(source, es).segments) <= Reached(es) <= |source|
  {
    if es != [] {
      var init, e := es[..|es| - 1], es[|es| - 1];
      WalkOrdered(source, init);
      StepOrdered(source, Walk(source, init), e);
    }
  }

  lemma StepOrdered(source: string, c: Collector, e: Event)
    requires InOrder(c.segments) && (e.TextNode? ==> Stop(c.segments) <= e.start <= e.stop)
    ensures InOrder(Step(source, c, e).segments)
    ensures Stop(Step(source, c, e).segments) <= if e.TextNode? then e.stop else Stop(c.segments)
  {
    var ss := c.segments;
    if e.TextNode? && Collected(source, c.skipDepth, e) {
      if Joins(source, c, e) {
        var n := |ss| - 1;
        assert (ss[..n] + [Segment(ss[n].start, e.stop)])[..n] == ss[..n];
      } else {
        assert (ss + [Segment(e.start, e.stop)])[..|ss|] == ss;
      }
    }
  }

  // ---------------------------------------------------------------- exactly the visible text

  predicate Within(ss: seq<Segment>, k: nat) {
    exists i :: 0 <= i < |ss| && ss[i].start <= k < ss[i].stop
  }

  /** Position k belongs to a text node that is collected. */
  predicate InCollected(source: string, es: seq<Event>, k: nat) {
    if es == [] then false
    else
      var init, e := es[..|es| - 1], es[|es| - 1];
      || InCollected(source, init, k)
      || (Collected(source, Walk(source, init).skipDepth, e) && e.start <= k < e.stop)
  }

  lemma BlankGap(source: string, from: nat, to: nat, k: nat)
    requires from <= to <= |source| && k < |source| && !IsSpace(source[k])
    ensures Blank(source[from..to]) ==> !(from <= k < to)
  {
    TrimsToNothing(source[from..to]);
    if from <= k < to {
      assert source[from..to][k - from] == source[k];
    }
  }

  lemma StepCovers(source: string, c: Collector, e: Event, k: nat)
    requires k < |source| && !IsSpace(source[k])
    requires e.TextNode? ==> Stop(c.segments) <= e.start <= e.stop <= |source|
    requires InOrder(c.segments)
    ensures Within(Step(source, c, e).segments, k) <==>
            Within(c.segments, k) || (Collected(source, c.skipDepth, e) && e.start <= k < e.stop)
  {
    var ss := c.segments;
    if e.TextNode? && Collected(source, c.skipDepth, e) {
      var n := |ss| - 1;
      if Joins(source, c, e) {
        var gap := source[ss[n].stop..e.start];
        BlankGap(source, ss[n].stop, e.start, k);
        Replaced(ss[..n], ss[n], Segment(ss[n].start, e.stop), k);
        assert ss == ss[..n] + [ss[n]];
      } else {
        Replaced(ss, Segment(0, 0), Segment(e.start, e.stop), k);
      }
    }
  }

  lemma Replaced(ss: seq<Segment>, a: Segment, b: Segment, k: nat)
    ensures Within(ss + [b], k) <==> Within(ss, k) || b.start <= k < b.stop
    ensures Within(ss + [a], k) <==> Within(ss, k) || a.start <= k < a.stop
  {
    assert (ss + [b])[|ss|] == b && (ss + [a])[|ss|] == a;
    assert forall i :: 0 <= i < |ss| ==> (ss + [b])[i] == ss[i] && (ss + [a])[i] == ss[i];
  }

  /** Sorted, disjoint segments within the document, which hold exactly the visible characters of the collected text
      nodes: merging adds white space only. */
  lemma {:induction false} SegmentsAreExact(source: string, es: seq<Event>, k: nat)
    requires Ascending(source, es) && k < |source| && !IsSpace(source[k])
    ensures Within(Walk(source, es).segments, k) <==> InCollected(source, es, k)
  {
    if es != [] {
      var init, e := es[..|es| - 1], es[|es| - 1];
      SegmentsAreExact(source, init, k);
      WalkOrdered(source, init);
      StepCovers(source, Walk(source, init), e, k);
    }
  }

  predicate AllVisible(source: string, ss: seq<Segment>) {
    forall i :: 0 <= i < |ss| ==> ss[i].start <= ss[i].stop <= |source| && !Blank(source[ss[i].start..ss[i].stop])
  }

  /** No segment is blank, so the filter behind the walk drops none. */
  lemma {:induction false} NoSegmentIsBlank(source: string, es: seq<Event>)
    requires Ascending(source, es)
    ensures AllVisible(source, Walk(source, es).segments)
  {
    if es != [] {
      var init, e := es[..|es| - 1], es[|es| - 1];
      NoSegmentIsBlank(source, init);
      WalkOrdered(source, init);
      var c := Walk(source, init);
      if e.TextNode? && Collected(source, c.skipDepth, e) && Joins(source, c, e) {
        LongerStaysVisible(source, c.segments[|c.segments| - 1], e.stop);
      }
    }
  }

  lemma LongerStaysVisible(source: string, s: Segment, stop: nat)
    requires s.start <= s.stop <= stop <= |source| && !Blank(source[s.start..s.stop])
    ensures !Blank(source[s.start..stop])
  {
    TrimsToNothing(source[s.start..s.stop]);
    TrimsToNothing(source[s.start..stop]);
    var i :| 0 <= i < s.stop - s.start && !IsSpace(source[s.start..s.stop][i]);
    assert source[s.start..stop][i] == source[s.start..s.stop][i];
  }
}
