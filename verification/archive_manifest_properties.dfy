/** What a manifest path is: reached through accepted directories, relative and clean, listed behind its directory.
    And the trees for which all this is meant do exist. */
module ArchiveManifestProperties {
  import opened JsMaps
  import opened TextOrders
  import opened FileTrees
  import opened ArchiveManifests

  function PathOf(path: string, names: seq<string>): string
    decreases |names|
  {
    if names == [] then path else PathOf(Child(path, names[0]), names[1..])
  }

  /** Following `names` from `node`, everything on the way is supported and accepted. */
  predicate Accepted(filter: Filter, path: string, node: Node, names: seq<string>)
    decreases |names|
  {
    && !node.Special? && filter(path, node)
    && (names == []
        || (node.Dir?
            && exists i ::
                 && 0 <= i < |node.entries| && node.entries[i].name == names[0]
                 && Accepted(filter, Child(path, names[0]), node.entries[i].node, names[1..])))
  }

  /** A path is gathered exactly when every directory on the way to it is accepted and so is it. */
  lemma {:induction false} GatherExactly(filter: Filter, path: string, node: Node, x: string)
    ensures x in Gather(filter, path, node)
       <==> exists names :: Accepted(filter, path, node, names) && x == PathOf(path, names)
    decreases NodeSize(node)
  {
    if x in Gather(filter, path, node) {
      var _ := WayTo(filter, path, node, x);
    }
    forall names | Accepted(filter, path, node, names) && x == PathOf(path, names)
      ensures x in Gather(filter, path, node) {
      WayGathered(filter, path, node, names);
    }
  }

  lemma {:induction false} WayGathered(filter: Filter, path: string, node: Node, names: seq<string>)
    requires Accepted(filter, path, node, names)
    ensures PathOf(path, names) in Gather(filter, path, node)
    decreases |names|
  {
    if names != [] {
      var es := node.entries;
      var i :| 0 <= i < |es| && es[i].name == names[0]
               && Accepted(filter, Child(path, names[0]), es[i].node, names[1..]);
      WayGathered(filter, Child(path, names[0]), es[i].node, names[1..]);
      GatherAllIn(filter, path, es, PathOf(path, names));
    }
  }

  lemma {:induction false} WayTo(filter: Filter, path: string, node: Node, x: string) returns (names: seq<string>)
    requires x in Gather(filter, path, node)
    ensures Accepted(filter, path, node, names) && x == PathOf(path, names)
    decreases NodeSize(node)
  {
    if x == path {
      names := [];
    } else {
      var es := node.entries;
      GatherAllIn(filter, path, es, x);
      var i :| 0 <= i < |es| && x in Gather(filter, Child(path, es[i].name), es[i].node);
      EntrySize(es, i);
      var rest := WayTo(filter, Child(path, es[i].name), es[i].node, x);
      names := [es[i].name] + rest;
      assert names[1..] == rest;
    }
  }

  /** In ascending order a directory stands before everything below it. */
  lemma DirectoriesFirst(paths: seq<string>, i: nat, j: nat, below: string)
    requires Ascending(paths) && i < |paths| && j < |paths| && paths[j] == paths[i] + "/" + below
    ensures i < j
  {
    PrefixBelow(paths[i], "/" + below);
    assert paths[i] + ("/" + below) == paths[j];
    BelowTotal(paths[i], paths[j]);
  }

  // ---------------------------------------------------------------- clean paths

  /** A name that a directory can hold. */
  predicate GoodName(s: string) {
    CleanSegment(s) && forall i :: 0 <= i < |s| ==> s[i] != '/'
  }

  predicate GoodNames(es: seq<Entry>)
    decreases Size(es), 2
  {
    es == [] || (GoodName(es[0].name) && GoodNamesIn(es[0].node) && GoodNames(es[1..]))
  }

  predicate GoodNamesIn(n: Node)
    decreases NodeSize(n), 1
  {
    n.Dir? ==> GoodNames(n.entries)
  }

  lemma {:induction false} GoodEntry(es: seq<Entry>, i: nat)
    requires GoodNames(es) && i < |es|
    ensures GoodName(es[i].name) && GoodNamesIn(es[i].node)
  {
    if i > 0 {
      GoodEntry(es[1..], i - 1);
    }
  }

  lemma {:induction false} OneSegment(s: string)
    requires forall i :: 0 <= i < |s| ==> s[i] != '/'
    ensures Segments(s) == [s]
  {
    if s != "" {
      OneSegment(s[1..]);
      assert [s[0]] + s[1..] == s;
    }
  }

  lemma {:induction false} ChildSegments(path: string, name: string)
    requires forall i :: 0 <= i < |name| ==> name[i] != '/'
    ensures Segments(Child(path, name)) == Segments(path) + [name]
  {
    var t := Child(path, name);
    if path == "" {
      OneSegment(name);
      assert t[1..] == name;
    } else {
      ChildSegments(path[1..], name);
      assert t[1..] == Child(path[1..], name);
      assert (Segments(path[1..]) + [name])[1..] == Segments(path[1..])[1..] + [name];
    }
  }

  lemma ChildIsClean(path: string, name: string)
    requires Clean(path) && GoodName(name)
    ensures Clean(Child(path, name))
  {
    ChildSegments(path, name);
  }

  /** No listed path leaves the directory the archive is made of. */
  lemma {:induction false} GatheredIsClean(filter: Filter, path: string, node: Node, x: string)
    requires Clean(path) && GoodNamesIn(node) && x in Gather(filter, path, node)
    ensures Clean(x)
    decreases NodeSize(node)
  {
    if x != path {
      var es := node.entries;
      GatherAllIn(filter, path, es, x);
      var i :| 0 <= i < |es| && x in Gather(filter, Child(path, es[i].name), es[i].node);
      EntrySize(es, i);
      GoodEntry(es, i);
      ChildIsClean(path, es[i].name);
      GatheredIsClean(filter, Child(path, es[i].name), es[i].node, x);
    }
  }

  // ---------------------------------------------------------------- trees

  function NodeAt(es: seq<Entry>, segments: seq<string>): Option<Node>
    requires segments != []
    decreases |segments|
  {
    var n := Lookup(es, segments[0]);
    if |segments| == 1 || n.None? then n
    else if n.value.Dir? then NodeAt(n.value.entries, segments[1..])
    else None
  }

  function LstatOf(es: seq<Entry>): Lstat {
    path => NodeAt(es, Segments(path))
  }

  lemma {:induction false} LookupGood(es: seq<Entry>, name: string)
    requires DistinctNames(es) && GoodNames(es) && Lookup(es, name).Some?
    ensures DistinctNamesIn(Lookup(es, name).value) && GoodNamesIn(Lookup(es, name).value)
  {
    if es[0].name != name {
      LookupGood(es[1..], name);
    }
  }

  lemma {:induction false} LookupEntry(es: seq<Entry>, i: nat)
    requires DistinctNames(es) && i < |es|
    ensures Lookup(es, es[i].name) == Some(es[i].node)
  {
    if i > 0 {
      assert es[1..][i - 1].name == es[i].name;
      LookupEntry(es[1..], i - 1);
    }
  }

  lemma {:induction false} NodeBelow(es: seq<Entry>, segments: seq<string>, name: string)
    requires DistinctNames(es) && GoodNames(es) && segments != [] && NodeAt(es, segments).Some?
    ensures var n := NodeAt(es, segments).value;
            && DistinctNamesIn(n) && GoodNamesIn(n)
            && (n.Dir? ==> NodeAt(es, segments + [name]) == Lookup(n.entries, name))
    decreases |segments|
  {
    LookupGood(es, segments[0]);
    var n := Lookup(es, segments[0]).value;
    if |segments| > 1 {
      NodeBelow(n.entries, segments[1..], name);
      assert (segments + [name])[1..] == segments[1..] + [name];
    } else {
      assert (segments + [name])[1..] == [name];
    }
  }

  /** Every tree with distinct, slash-free names in each directory can be walked. */
  lemma TreeIsConsistent(es: seq<Entry>)
    requires DistinctNames(es) && GoodNames(es)
    ensures Consistent(LstatOf(es))
  {
    var lstat := LstatOf(es);
    forall path ensures ConsistentAt(lstat, path) {
      if lstat(path).Some? && lstat(path).value.Dir? {
        var sub := lstat(path).value.entries;
        forall i | 0 <= i < |sub| ensures lstat(Child(path, sub[i].name)) == Some(sub[i].node) {
          NodeBelow(es, Segments(path), sub[i].name);
          GoodEntry(sub, i);
          LookupEntry(sub, i);
          ChildSegments(path, sub[i].name);
        }
      }
    }
  }
}
