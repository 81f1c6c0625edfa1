/** The list of files that go into a release archive, scripts/release-archive.ts: a depth-first walk from several
    roots, which may overlap, through a filter. */
module ArchiveManifests {
  import opened JsMaps
  import opened TextOrders
  import opened FileTrees

  /** What `lstat` finds at a path, and for a directory what `readdir` finds in it. */
  type Lstat = string -> Option<Node>

  type Filter = (string, Node) -> bool

  function Child(path: string, name: string): (r: string)
    ensures |r| > |path|
  {
    path + "/" + name
  }

  predicate ConsistentAt(lstat: Lstat, path: string) {
    match lstat(path)
    case Some(Dir(es)) => forall i :: 0 <= i < |es| ==> lstat(Child(path, es[i].name)) == Some(es[i].node)
    case _ => true
  }

  /** The entries of a directory are what is found under their names. */
  ghost predicate Consistent(lstat: Lstat) {
    forall path :: ConsistentAt(lstat, path)
  }

  // ---------------------------------------------------------------- roots

  function Segments(s: string): (r: seq<string>)
    ensures r != []
  {
    if s == "" then [""]
    else if s[0] == '/' then [""] + Segments(s[1..])
    else
      var rest := Segments(s[1..]);
      [[s[0]] + rest[0]] + rest[1..]
  }

  predicate CleanSegment(s: string) {
    s != "" && s != "." && s != ".."
  }

  /** A relative path without empty, `.` or `..` segments. */
  predicate Clean(path: string) {
    var segments := Segments(path);
    forall i :: 0 <= i < |segments| ==> CleanSegment(segments[i])
  }

  /** White space as JavaScript's `trim` sees it. */
  predicate IsTrimmed(c: char) {
    || '\t' <= c <= '\r' || c == ' ' || c == '\U{a0}' || c == '\U{1680}' || '\U{2000}' <= c <= '\U{200a}'
    || c == '\U{2028}' || c == '\U{2029}' || c == '\U{202f}' || c == '\U{205f}' || c == '\U{3000}' || c == '\U{feff}'
  }

  predicate ValidRoot(entry: string) {
    && entry != "" && !IsTrimmed(entry[0]) && !IsTrimmed(entry[|entry| - 1])
    && (forall i :: 0 <= i < |entry| ==> entry[i] != '\\' && entry[i] != '\0')
    && entry[0] != '@' && entry[0] != '/'
    && Clean(entry)
  }

  // ---------------------------------------------------------------- what belongs in the manifest

  /** The paths of `node` and of everything below it that are reached through accepted directories only. */
  function Gather(filter: Filter, path: string, node: Node): set<string>
    decreases NodeSize(node), 1
  {
    if node.Special? || !filter(path, node) then {}
    else if node.Dir? then {path} + GatherAll(filter, path, node.entries)
    else {path}
  }

  function GatherAll(filter: Filter, path: string, es: seq<Entry>): set<string>
    decreases Size(es), 2
  {
    if es == [] then {}
    else Gather(filter, Child(path, es[0].name), es[0].node) + GatherAll(filter, path, es[1..])
  }

  /** The walk meets something that no archive can hold. It looks before it asks the filter. */
  predicate Blocked(filter: Filter, path: string, node: Node)
    decreases NodeSize(node), 1
  {
    node.Special? || (filter(path, node) && node.Dir? && BlockedIn(filter, path, node.entries))
  }

  predicate BlockedIn(filter: Filter, path: string, es: seq<Entry>)
    decreases Size(es), 2
  {
    es != [] && (Blocked(filter, Child(path, es[0].name), es[0].node) || BlockedIn(filter, path, es[1..]))
  }

  function GatherAt(lstat: Lstat, filter: Filter, path: string): set<string> {
    if lstat(path).None? then {} else Gather(filter, path, lstat(path).value)
  }

  predicate BlockedAt(lstat: Lstat, filter: Filter, path: string) {
    lstat(path).Some? && Blocked(filter, path, lstat(path).value)
  }

  /** What the given paths contribute together. */
  ghost predicate InSome(lstat: Lstat, filter: Filter, paths: seq<string>, x: string) {
    exists p :: p in paths && x in GatherAt(lstat, filter, p)
  }

  ghost predicate SomeBlocked(lstat: Lstat, filter: Filter, paths: seq<string>) {
    exists p :: p in paths && BlockedAt(lstat, filter, p)
  }

  ghost predicate SomeMissing(lstat: Lstat, paths: seq<string>) {
    exists p :: p in paths && lstat(p).None?
  }

  function ChildPaths(path: string, names: seq<string>): (r: seq<string>)
    ensures |r| == |names| && forall i :: 0 <= i < |r| ==> r[i] == Child(path, names[i])
  {
    seq(|names|, i requires 0 <= i < |names| => Child(path, names[i]))
  }

  function Names(es: seq<Entry>): (r: seq<string>)
    ensures |r| == |es| && forall i :: 0 <= i < |r| ==> r[i] == es[i].name
  {
    seq(|es|, i requires 0 <= i < |es| => es[i].name)
  }

  lemma {:induction false} GatherAllIn(filter: Filter, path: string, es: seq<Entry>, x: string)
    ensures x in GatherAll(filter, path, es)
       <==> exists i :: 0 <= i < |es| && x in Gather(filter, Child(path, es[i].name), es[i].node)
    ensures BlockedIn(filter, path, es)
       <==> exists i :: 0 <= i < |es| && Blocked(filter, Child(path, es[i].name), es[i].node)
  {
    if es != [] {
      GatherAllIn(filter, path, es[1..], x);
      assert forall i :: 0 <= i < |es[1..]| ==> es[1..][i] == es[i + 1];
      if x in GatherAll(filter, path, es[1..]) {
        var i :| 0 <= i < |es[1..]| && x in Gather(filter, Child(path, es[1..][i].name), es[1..][i].node);
        assert x in Gather(filter, Child(path, es[i + 1].name), es[i + 1].node);
      }
      if BlockedIn(filter, path, es[1..]) {
        var i :| 0 <= i < |es[1..]| && Blocked(filter, Child(path, es[1..][i].name), es[1..][i].node);
        assert Blocked(filter, Child(path, es[i + 1].name), es[i + 1].node);
      }
    }
  }

  /** A directory's contribution, child path by child path in any order. */
  lemma ChildrenOf(lstat: Lstat, filter: Filter, path: string, es: seq<Entry>, names: seq<string>, x: string)
    requires Consistent(lstat) && lstat(path) == Some(Dir(es)) && Elements(names) == Elements(Names(es))
    ensures x in GatherAll(filter, path, es) <==> InSome(lstat, filter, ChildPaths(path, names), x)
    ensures BlockedIn(filter, path, es) <==> SomeBlocked(lstat, filter, ChildPaths(path, names))
  {
    GatherAllIn(filter, path, es, x);
    assert ConsistentAt(lstat, path);
    forall i | 0 <= i < |es| ensures Child(path, es[i].name) in ChildPaths(path, names) {
      assert Names(es)[i] in Elements(names);
      var k :| 0 <= k < |names| && names[k] == es[i].name;
      assert ChildPaths(path, names)[k] == Child(path, es[i].name);
    }
    forall p | p in ChildPaths(path, names)
      ensures exists i :: 0 <= i < |es| && p == Child(path, es[i].name) && lstat(p) == Some(es[i].node) {
      var k :| 0 <= k < |names| && ChildPaths(path, names)[k] == p;
      assert names[k] in Elements(Names(es));
      var i :| 0 <= i < |es| && Names(es)[i] == names[k];
      assert lstat(Child(path, es[i].name)) == Some(es[i].node);
    }
  }

  // ---------------------------------------------------------------- the walk

  datatype Outcome = Done | Missing | Unsupported

  ghost predicate Recorded(lstat: Lstat, m: map<string, Node>) {
    forall p :: p in m ==> lstat(p) == Some(m[p])
  }

  predicate CompleteAt(filter: Filter, m: map<string, Node>, p: string)
    requires p in m
  {
    Gather(filter, p, m[p]) <= m.Keys && !Blocked(filter, p, m[p])
  }

  /** Whatever is listed is listed with all below it, but for the directories still being walked. */
  ghost predicate Complete(filter: Filter, m: map<string, Node>, walking: set<string>) {
    forall p :: p in m && p !in walking ==> CompleteAt(filter, m, p)
  }

  function Weight(lstat: Lstat, path: string): nat {
    if lstat(path).None? then 0 else NodeSize(lstat(path).value)
  }

  lemma AddNode(lstat: Lstat, filter: Filter, m: map<string, Node>, walking: set<string>, path: string, node: Node)
    requires Recorded(lstat, m) && Complete(filter, m, walking) && lstat(path) == Some(node) && path !in m
    ensures Recorded(lstat, m[path := node]) && Complete(filter, m[path := node], walking + {path})
  {
    var m' := m[path := node];
    forall p | p in m' && p !in walking + {path} ensures CompleteAt(filter, m', p) {
      assert CompleteAt(filter, m, p);
    }
  }

  /** A directory is walked once everything it gathers is listed. */
  lemma CloseNode(lstat: Lstat, filter: Filter, m: map<string, Node>, walking: set<string>, path: string)
    requires Recorded(lstat, m) && Complete(filter, m, walking + {path}) && path in m
    requires GatherAt(lstat, filter, path) <= m.Keys && !BlockedAt(lstat, filter, path)
    ensures Complete(filter, m, walking)
  {
    assert CompleteAt(filter, m, path);
    forall p | p in m && p !in walking ensures CompleteAt(filter, m, p) {}
  }

  class ManifestBuilder {
    const lstat: Lstat
    const filter: Filter
    var manifest: JsMap<string, Node>

    constructor (lstat: Lstat, filter: Filter)
      ensures this.lstat == lstat && this.filter == filter && manifest == Empty<string, Node>()
    {
      this.lstat := lstat;
      this.filter := filter;
      manifest := Empty<string, Node>();
    }

    /** `walking` holds the directories on the way from the root to `path`. */
    method Visit(path: string, ghost walking: set<string>) returns (r: Outcome)
      requires Consistent(lstat) && forall q :: q in walking ==> |q| < |path|
      requires Recorded(lstat, manifest.values) && Complete(filter, manifest.values, walking)
      modifies this
      ensures r.Missing? <==> lstat(path).None?
      ensures r.Unsupported? <==> BlockedAt(lstat, filter, path)
      ensures r.Done? ==> manifest.values.Keys == old(manifest.values.Keys) + GatherAt(lstat, filter, path)
                          && Recorded(lstat, manifest.values) && Complete(filter, manifest.values, walking)
      decreases Weight(lstat, path), 1
    {
      hide Consistent, Recorded, Complete, GatherAt, BlockedAt, GatherAll, BlockedIn;
      Unfold(lstat, filter, path);
      if manifest.Has(path) {
        ListedAlready(lstat, filter, manifest.values, walking, path);
        return Done;
      }
      var stat := lstat(path);
      if stat.None? {
        return Missing;
      }
      var node := stat.value;
      if node.Special? {
        return Unsupported;
      }
      if !filter(path, node) {
        return Done;
      }
      AddNode(lstat, filter, manifest.values, walking, path, node);
      manifest := Set(manifest, path, node);
      if node.Dir? {
        r := VisitChildren(path, node.entries, walking + {path});
        if r.Unsupported? {
          return;
        }
      }
      CloseNode(lstat, filter, manifest.values, walking, path);
      return Done;
    }

    method VisitChildren(path: string, es: seq<Entry>, ghost walking: set<string>) returns (r: Outcome)
      requires Consistent(lstat) && lstat(path) == Some(Dir(es)) && forall q :: q in walking ==> |q| <= |path|
      requires Recorded(lstat, manifest.values) && Complete(filter, manifest.values, walking)
      modifies this
      ensures r.Unsupported? <==> BlockedIn(filter, path, es)
      ensures !r.Unsupported? ==> manifest.values.Keys == old(manifest.values.Keys) + GatherAll(filter, path, es)
                                  && Recorded(lstat, manifest.values) && Complete(filter, manifest.values, walking)
      decreases Size(es), 2
    {
      hide Recorded, Complete, GatherAll, BlockedIn, InSome, SomeBlocked, GatherAt, BlockedAt;
      var children := Sort(Names(es));
      SortAscending(Names(es));
      ghost var paths := ChildPaths(path, children);
      ghost var was := manifest.values.Keys;
      NoPaths(lstat, filter);
      for i := 0 to |children|
        invariant Recorded(lstat, manifest.values) && Complete(filter, manifest.values, walking)
        invariant !SomeBlocked(lstat, filter, paths[..i])
        invariant forall x :: x in manifest.values.Keys <==> x in was || InSome(lstat, filter, paths[..i], x)
      {
        ChildWeight(lstat, path, es, children[i]);
        OnePathMore(lstat, filter, paths, i);
        var child := Visit(Child(path, children[i]), walking);
        if child.Unsupported? {
          SomeBlockedLater(lstat, filter, paths, i);
          ChildrenOf(lstat, filter, path, es, children, "");
          return Unsupported;
        }
      }
      assert paths[..|children|] == paths;
      forall x ensures x in GatherAll(filter, path, es) <==> InSome(lstat, filter, paths, x) {
        ChildrenOf(lstat, filter, path, es, children, x);
      }
      ChildrenOf(lstat, filter, path, es, children, "");
      return Done;
    }
  }

  lemma Unfold(lstat: Lstat, filter: Filter, path: string)
    ensures var gathered, blocked := GatherAt(lstat, filter, path), BlockedAt(lstat, filter, path);
            match lstat(path)
            case None => gathered == {} && !blocked
            case Some(node) =>
              if node.Special? then blocked
              else if !filter(path, node) then gathered == {} && !blocked
              else if node.Dir? then
                gathered == {path} + GatherAll(filter, path, node.entries)
                && (blocked <==> BlockedIn(filter, path, node.entries))
              else gathered == {path} && !blocked
  {
  }

  lemma ListedAlready(lstat: Lstat, filter: Filter, m: map<string, Node>, walking: set<string>, path: string)
    requires Recorded(lstat, m) && Complete(filter, m, walking) && path in m && path !in walking
    ensures lstat(path).Some? && !BlockedAt(lstat, filter, path) && GatherAt(lstat, filter, path) <= m.Keys
  {
    assert CompleteAt(filter, m, path);
  }

  lemma NoPaths(lstat: Lstat, filter: Filter)
    ensures !SomeBlocked(lstat, filter, []) && !SomeMissing(lstat, []) && forall x :: !InSome(lstat, filter, [], x)
  {
  }

  lemma ChildWeight(lstat: Lstat, path: string, es: seq<Entry>, name: string)
    requires Consistent(lstat) && lstat(path) == Some(Dir(es)) && name in Elements(Names(es))
    ensures lstat(Child(path, name)).Some? && Weight(lstat, Child(path, name)) <= Size(es)
  {
    assert ConsistentAt(lstat, path);
    var i :| 0 <= i < |es| && Names(es)[i] == name;
    EntrySize(es, i);
    assert lstat(Child(path, es[i].name)) == Some(es[i].node);
  }

  lemma OnePathMore(lstat: Lstat, filter: Filter, paths: seq<string>, i: nat)
    requires i < |paths|
    ensures SomeBlocked(lstat, filter, paths[..i + 1]) <==>
            SomeBlocked(lstat, filter, paths[..i]) || BlockedAt(lstat, filter, paths[i])
    ensures SomeMissing(lstat, paths[..i + 1]) <==> SomeMissing(lstat, paths[..i]) || lstat(paths[i]).None?
    ensures forall x :: InSome(lstat, filter, paths[..i + 1], x) <==>
                        InSome(lstat, filter, paths[..i], x) || x in GatherAt(lstat, filter, paths[i])
  {
    assert paths[..i + 1] == paths[..i] + [paths[i]];
    assert forall p :: p in paths[..i + 1] <==> p in paths[..i] || p == paths[i];
  }

  lemma SomeBlockedLater(lstat: Lstat, filter: Filter, paths: seq<string>, i: nat)
    requires i < |paths|
    ensures BlockedAt(lstat, filter, paths[i]) ==> SomeBlocked(lstat, filter, paths)
    ensures lstat(paths[i]).None? ==> SomeMissing(lstat, paths)
  {
    assert paths[i] in paths;
  }

  // ---------------------------------------------------------------- the manifest

  datatype Result =
    | Manifest(paths: seq<string>, nodes: map<string, Node>)
    | InvalidRoot
    | WalkFailed(missing: bool)
    | IsEmpty

  /** In strictly ascending order the union of what the entries gather, each path with its own node. */
  ghost predicate Lists(lstat: Lstat, filter: Filter, entries: seq<string>, r: Result) {
    && r.Manifest? && Ascending(r.paths)
    && (forall x :: x in r.paths <==> InSome(lstat, filter, entries, x))
    && (forall x :: x in r.paths <==> x in r.nodes)
    && (forall x :: x in r.nodes ==> lstat(x) == Some(r.nodes[x]))
  }

  /** The manifest depends neither on the order of the roots nor on their repetitions. */
  lemma ManifestIsUnique(lstat: Lstat, filter: Filter, a: seq<string>, b: seq<string>, r: Result, t: Result)
    requires Elements(a) == Elements(b) && Lists(lstat, filter, a, r) && Lists(lstat, filter, b, t)
    ensures r == t
  {
    hide Ascending, InSome, GatherAt, Elements;
    SameRoots(lstat, filter, a, b);
    SameElements(r.paths, t.paths);
    AscendingUnique(r.paths, t.paths);
    assert r.nodes == t.nodes;
  }

  lemma SameElements(s: seq<string>, t: seq<string>)
    requires forall x :: x in s <==> x in t
    ensures Elements(s) == Elements(t)
  {
  }

  /** The manifest lists, in strictly ascending order and each with its own node, the union of what the roots gather;
      it fails exactly when a root is invalid or missing, when the walk meets an unsupported entry, or when nothing is
      left. */
  method CreateManifest(lstat: Lstat, filter: Filter, entries: seq<string>) returns (r: Result)
    requires Consistent(lstat)
    ensures r.InvalidRoot? <==> exists i :: 0 <= i < |entries| && !ValidRoot(entries[i])
    ensures !r.InvalidRoot? ==> (r.WalkFailed? <==> SomeMissing(lstat, entries) || SomeBlocked(lstat, filter, entries))
    ensures r.WalkFailed? ==> if r.missing then SomeMissing(lstat, entries) else SomeBlocked(lstat, filter, entries)
    ensures r.IsEmpty? ==> forall x :: !InSome(lstat, filter, entries, x)
    ensures r.Manifest? ==> Lists(lstat, filter, entries, r) && r.paths != []
  {
    if exists i :: 0 <= i < |entries| && !ValidRoot(entries[i]) {
      return InvalidRoot;
    }
    var roots := Sort(entries);
    SortAscending(entries);
    SameRoots(lstat, filter, entries, roots);
    var builder := new ManifestBuilder(lstat, filter);
    NoPaths(lstat, filter);
    for i := 0 to |roots|
      invariant builder.lstat == lstat && builder.filter == filter
      invariant Recorded(lstat, builder.manifest.values) && Complete(filter, builder.manifest.values, {})
      invariant !SomeMissing(lstat, roots[..i]) && !SomeBlocked(lstat, filter, roots[..i])
      invariant forall x :: x in builder.manifest.values.Keys <==> InSome(lstat, filter, roots[..i], x)
    {
      hide Consistent, Recorded, Complete, InSome, SomeBlocked, SomeMissing, GatherAt, BlockedAt;
      OnePathMore(lstat, filter, roots, i);
      SomeBlockedLater(lstat, filter, roots, i);
      var visited := builder.Visit(roots[i], {});
      if !visited.Done? {
        return WalkFailed(visited.Missing?);
      }
    }
    assert roots[..|roots|] == roots;
    if builder.manifest.Size() < 1 {
      return IsEmpty;
    }
    SortedLists(lstat, filter, entries, builder.manifest);
    return Manifest(Sort(builder.manifest.order), builder.manifest.values);
  }

  lemma SortedLists(lstat: Lstat, filter: Filter, entries: seq<string>, m: JsMap<string, Node>)
    requires Recorded(lstat, m.values) && forall x :: x in m.values.Keys <==> InSome(lstat, filter, entries, x)
    ensures Lists(lstat, filter, entries, Manifest(Sort(m.order), m.values))
    ensures m.order != [] ==> Sort(m.order) != []
  {
    SortAscending(m.order);
    forall x
      ensures x in Sort(m.order) <==> x in m.values
    {
      assert x in Elements(Sort(m.order)) <==> x in Elements(m.order);
    }
    if m.order != [] {
      assert m.order[0] in m.values;
    }
  }

  lemma SameRoots(lstat: Lstat, filter: Filter, a: seq<string>, b: seq<string>)
    requires Elements(a) == Elements(b)
    ensures SomeBlocked(lstat, filter, a) <==> SomeBlocked(lstat, filter, b)
    ensures SomeMissing(lstat, a) <==> SomeMissing(lstat, b)
    ensures forall x :: InSome(lstat, filter, a, x) <==> InSome(lstat, filter, b, x)
  {
    assert forall p :: p in a <==> p in Elements(a);
    assert forall p :: p in b <==> p in Elements(b);
  }
}
