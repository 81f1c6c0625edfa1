/** Which text nodes become one segment: told by the nodes themselves, without the walk. */
module SegmentMergeProperties {
  import opened JsMaps
  import opened Texts
  import opened SegmentMerges

  datatype TextSpan = TextSpan(block: nat, start: nat, stop: nat)

  function Enters(es: seq<Event>): int {
    if es == [] then 0 else Enters(es[..|es| - 1]) + if es[|es| - 1].EnterCode? then 1 else 0
  }

  function Leaves(es: seq<Event>): int {
    if es == [] then 0 else Leaves(es[..|es| - 1]) + if es[|es| - 1].LeaveCode? then 1 else 0
  }

  predicate AllSpace(source: string, lo: nat, hi: nat)
    requires hi <= |source|
  {
    forall k :: lo <= k < hi ==> IsSpace(source[k])
  }

  /** The last event is a visible text node of a translatable block, outside code: no more code was entered than
      left. */
  predicate EndsInText(source: string, es: seq<Event>) {
    && es != [] && es[|es| - 1].TextNode? && es[|es| - 1].block.Some?
    && es[|es| - 1].start <= es[|es| - 1].stop <= |source|
    && Enters(es) <= Leaves(es) && !AllSpace(source, es[|es| - 1].start, es[|es| - 1].stop)
  }

  /** The text nodes that are translated, in order. */
  function Nodes(source: string, es: seq<Event>): seq<TextSpan> {
    if es == [] then []
    else
      var last := es[|es| - 1];
      Nodes(source, es[..|es| - 1])
      + if EndsInText(source, es) then [TextSpan(last.block.value, last.start, last.stop)] else []
  }

  /** Neighbours of one block with nothing but white space between them. */
  predicate Together(source: string, a: TextSpan, b: TextSpan) {
    a.block == b.block && a.stop <= b.start <= |source| && AllSpace(source, a.stop, b.start)
  }

  /** The nodes first to last. */
  datatype Group = Group(first: nat, last: nat)

  /** Node m goes with the node before it. */
  predicate Joined(source: string, ns: seq<TextSpan>, m: int) {
    0 < m < |ns| && Together(source, ns[m - 1], ns[m])
  }

  /** Node n joins the last group or opens one. */
  function AddNode(gs: seq<Group>, joined: bool, n: nat): seq<Group>
    requires joined ==> gs != []
  {
    if joined then gs[..|gs| - 1] + [Group(gs[|gs| - 1].first, n)] else gs + [Group(n, n)]
  }

  function Groups(source: string, ns: seq<TextSpan>): (gs: seq<Group>)
    ensures ns != [] ==> gs != []
  {
    if ns == [] then [] else AddNode(Groups(source, ns[..|ns| - 1]), Joined(source, ns, |ns| - 1), |ns| - 1)
  }

  predicate GroupOk(source: string, ns: seq<TextSpan>, g: Group) {
    && g.first <= g.last < |ns| && !Joined(source, ns, g.first)
    && forall m :: g.first < m <= g.last ==> Joined(source, ns, m)
  }

  /** The groups follow each other from the first node to the last one, neighbours are in one group exactly if they go
      together. */
  predicate Partition(source: string, ns: seq<TextSpan>, gs: seq<Group>) {
    && (ns == [] <==> gs == [])
    && (forall k :: 0 <= k < |gs| ==> GroupOk(source, ns, gs[k]))
    && (forall k :: 0 < k < |gs| ==> gs[k].first == gs[k - 1].last + 1)
    && (gs != [] ==> gs[0].first == 0 && gs[|gs| - 1].last == |ns| - 1)
  }

  lemma JoinedLater(source: string, ns: seq<TextSpan>, b: TextSpan)
    ensures forall m :: m < |ns| ==> (Joined(source, ns + [b], m) <==> Joined(source, ns, m))
  {
  }

  lemma GroupOkLater(source: string, ns: seq<TextSpan>, b: TextSpan, g: Group)
    requires GroupOk(source, ns, g)
    ensures GroupOk(source, ns + [b], g)
    ensures g.last == |ns| - 1 && Joined(source, ns + [b], |ns|) ==> GroupOk(source, ns + [b], Group(g.first, |ns|))
  {
    hide Joined;
    JoinedLater(source, ns, b);
  }

  lemma AddPartition(source: string, ns: seq<TextSpan>, b: TextSpan, gs: seq<Group>)
    requires Partition(source, ns, gs)
    ensures Joined(source, ns + [b], |ns|) ==> gs != []
    ensures Partition(source, ns + [b], AddNode(gs, Joined(source, ns + [b], |ns|), |ns|))
  {
    hide Together, GroupOk;
    forall k | 0 <= k < |gs|
      ensures GroupOk(source, ns + [b], gs[k])
      ensures k == |gs| - 1 && Joined(source, ns + [b], |ns|) ==> GroupOk(source, ns + [b], Group(gs[k].first, |ns|))
    {
      GroupOkLater(source, ns, b, gs[k]);
    }
    NewGroupOk(source, ns, b);
  }

  lemma NewGroupOk(source: string, ns: seq<TextSpan>, b: TextSpan)
    ensures !Joined(source, ns + [b], |ns|) ==> GroupOk(source, ns + [b], Group(|ns|, |ns|))
  {
  }

  lemma {:induction false} GroupsPartition(source: string, ns: seq<TextSpan>)
    ensures Partition(source, ns, Groups(source, ns))
  {
    hide Partition, Joined, AddNode;
    if ns == [] {
      NoGroups(source);
    } else {
      GroupsPartition(source, ns[..|ns| - 1]);
      AddPartition(source, ns[..|ns| - 1], ns[|ns| - 1], Groups(source, ns[..|ns| - 1]));
      assert ns == ns[..|ns| - 1] + [ns[|ns| - 1]];
    }
  }

  lemma NoGroups(source: string)
    ensures Partition(source, [], [])
  {
  }

  function SegmentOf(ns: seq<TextSpan>, g: Group): Segment
    requires g.first <= g.last < |ns|
  {
    Segment(ns[g.first].start, ns[g.last].stop)
  }

  predicate SegmentsOf(ns: seq<TextSpan>, gs: seq<Group>, ss: seq<Segment>) {
    |ss| == |gs| && forall k :: 0 <= k < |gs| ==> gs[k].first <= gs[k].last < |ns| && ss[k] == SegmentOf(ns, gs[k])
  }

  lemma BlankIsSpace(source: string, lo: nat, hi: nat)
    requires lo <= hi <= |source|
    ensures Blank(source[lo..hi]) <==> AllSpace(source, lo, hi)
  {
    TrimsToNothing(source[lo..hi]);
    assert forall k :: lo <= k < hi ==> source[lo..hi][k - lo] == source[k];
  }

  lemma {:induction false} SkipDepthIs(source: string, es: seq<Event>)
    ensures Walk(source, es).skipDepth == Enters(es) - Leaves(es)
  {
    if es != [] {
      SkipDepthIs(source, es[..|es| - 1]);
    }
  }

  lemma CollectedIsText(source: string, es: seq<Event>)
    requires es != []
    ensures Collected(source, Walk(source, es[..|es| - 1]).skipDepth, es[|es| - 1]) <==> EndsInText(source, es)
  {
    var init, e := es[..|es| - 1], es[|es| - 1];
    SkipDepthIs(source, init);
    if e.TextNode? && e.start <= e.stop <= |source| {
      BlankIsSpace(source, e.start, e.stop);
    }
  }

  ghost predicate Follows(source: string, c: Collector, ns: seq<TextSpan>) {
    && SegmentsOf(ns, Groups(source, ns), c.segments)
    && c.lastBlock == if ns == [] then None else Some(ns[|ns| - 1].block)
  }

  lemma {:induction false} WalkFollows(source: string, es: seq<Event>)
    requires Ascending(source, es)
    ensures Follows(source, Walk(source, es), Nodes(source, es))
  {
    hide Collected, EndsInText, Follows, Groups;
    if es == [] {
      NothingFollows(source);
    } else {
      var init, e := es[..|es| - 1], es[|es| - 1];
      WalkFollows(source, init);
      CollectedIsText(source, es);
      WalkOrdered(source, init);
      TextIsNode(source, es);
      if EndsInText(source, es) {
        NodeFollows(source, Walk(source, init), Nodes(source, init), e);
      } else {
        OtherFollows(source, Walk(source, init), Nodes(source, init), e);
        assert Nodes(source, init) + [] == Nodes(source, init);
      }
    }
  }

  lemma TextIsNode(source: string, es: seq<Event>)
    ensures EndsInText(source, es) ==> es[|es| - 1].TextNode? && es[|es| - 1].block.Some?
  {
  }

  lemma NothingFollows(source: string)
    ensures Follows(source, Fresh, [])
  {
  }

  lemma OtherFollows(source: string, c: Collector, ns: seq<TextSpan>, e: Event)
    requires Follows(source, c, ns) && !Collected(source, c.skipDepth, e)
    ensures Follows(source, Step(source, c, e), ns)
  {
  }

  lemma NodeFollows(source: string, c: Collector, ns: seq<TextSpan>, e: Event)
    requires Follows(source, c, ns) && e.TextNode? && e.block.Some? && Collected(source, c.skipDepth, e)
    requires Stop(c.segments) <= e.start
    ensures Follows(source, Step(source, c, e), ns + [TextSpan(e.block.value, e.start, e.stop)])
  {
    hide Blank, AllSpace, Joined, Groups, SegmentsOf;
    var b := TextSpan(e.block.value, e.start, e.stop);
    GroupsPartition(source, ns);
    GroupsMore(source, ns, b);
    JoinsIsJoined(source, c, ns, e);
    SegmentsAdd(ns, b, Groups(source, ns), c.segments, Joined(source, ns + [b], |ns|));
  }

  lemma GroupsMore(source: string, ns: seq<TextSpan>, b: TextSpan)
    ensures Joined(source, ns + [b], |ns|) ==> Groups(source, ns) != []
    ensures Groups(source, ns + [b]) == AddNode(Groups(source, ns), Joined(source, ns + [b], |ns|), |ns|)
  {
    assert (ns + [b])[..|ns|] == ns;
  }

  lemma JoinsIsJoined(source: string, c: Collector, ns: seq<TextSpan>, e: Event)
    requires Follows(source, c, ns) && e.TextNode? && e.block.Some? && e.start <= e.stop <= |source|
    requires Partition(source, ns, Groups(source, ns)) && Stop(c.segments) <= e.start
    ensures Joins(source, c, e) <==> Joined(source, ns + [TextSpan(e.block.value, e.start, e.stop)], |ns|)
  {
    hide Blank, AllSpace, GroupOk;
    if ns != [] {
      var a := ns[|ns| - 1];
      assert c.segments[|c.segments| - 1].stop == a.stop;
      BlankIsSpace(source, a.stop, e.start);
    }
  }

  lemma SegmentsAdd(ns: seq<TextSpan>, b: TextSpan, gs: seq<Group>, ss: seq<Segment>, joined: bool)
    requires SegmentsOf(ns, gs, ss) && (joined ==> gs != [])
    ensures var n := |ss| - 1;
            SegmentsOf(ns + [b], AddNode(gs, joined, |ns|),
                       if joined then ss[..n] + [Segment(ss[n].start, b.stop)] else ss + [Segment(b.start, b.stop)])
  {
  }

  /** The segments of a document are the longest runs of translated text nodes that go together, each from the start of
      its first node to the end of its last one. */
  lemma SegmentsAreRuns(source: string, es: seq<Event>)
    requires Ascending(source, es)
    ensures exists gs :: Partition(source, Nodes(source, es), gs)
                         && SegmentsOf(Nodes(source, es), gs, Walk(source, es).segments)
  {
    hide Partition, SegmentsOf;
    WalkFollows(source, es);
    GroupsPartition(source, Nodes(source, es));
  }
}
