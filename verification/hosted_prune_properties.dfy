/** Which paths pruning removes, with every name written out and without recursion. */
module HostedPruneProperties {
  import opened JsMaps
  import opened Texts
  import opened FileTrees
  import opened HostedPrunes

  ghost predicate NeverNeeded(name: string) {
    (exists stem: string :: name == stem + ".map") || (exists stem: string :: name == stem + ".d.ts")
  }

  /** A package of another architecture in the scope `@mariozechner`. */
  ghost predicate OtherClipboard(arch: string, parent: string, name: string) {
    && parent == "@mariozechner"
    && exists rest: string ::
         name == "clipboard-" + rest && rest != "linux-" + arch + "-gnu" && rest != "linux-" + arch + "-musl"
  }

  function ParentOf(base: string, path: seq<string>, i: nat): string
    requires i < |path|
  {
    if i == 0 then base else path[i - 1]
  }

  /** The path has to go because of its i-th name: an excluded package begins there below a node_modules, or it is the
      directory of a foreign clipboard package, or a file that is never needed. */
  ghost predicate GoneAt(arch: string, excluded: seq<seq<string>>, base: string, path: seq<string>, last: Kind, i: nat)
    requires i < |path|
  {
    || (ParentOf(base, path, i) == "node_modules" && exists k :: 0 <= k < |excluded| && excluded[k] <= path[i..])
    || ((i + 1 < |path| || last.IsDir?) && OtherClipboard(arch, ParentOf(base, path, i), path[i]))
    || (i + 1 == |path| && last.IsFile? && NeverNeeded(path[i]))
  }

  ghost predicate Gone(arch: string, excluded: seq<seq<string>>, base: string, path: seq<string>, last: Kind) {
    exists i :: 0 <= i < |path| && GoneAt(arch, excluded, base, path, last, i)
  }

  lemma SuffixIs(s: string, p: string)
    ensures HasSuffix(s, p) <==> exists stem: string :: s == stem + p
  {
    if HasSuffix(s, p) {
      assert s == s[..|s| - |p|] + p;
    }
    forall stem: string | s == stem + p
      ensures HasSuffix(s, p)
    {
      assert s[|s| - |p|..] == p;
    }
  }

  lemma PrefixIs(s: string, p: string)
    ensures HasPrefix(s, p) ==> s == p + s[|p|..]
    ensures forall rest: string :: s == p + rest ==> HasPrefix(s, p) && rest == s[|p|..]
  {
  }

  lemma JunkIsNeverNeeded(name: string)
    ensures Junk(name) <==> NeverNeeded(name)
  {
    SuffixIs(name, ".map");
    SuffixIs(name, ".d.ts");
  }

  lemma ForeignIsOther(arch: string, excluded: seq<seq<string>>, parent: string, name: string)
    ensures ForeignClipboard(Config(KeptClipboards(arch), excluded), parent, name)
       <==> OtherClipboard(arch, parent, name)
  {
    PrefixIs(name, "clipboard-");
    if HasPrefix(name, "clipboard-") {
      KeptRest(arch, name);
    }
  }

  lemma KeptRest(arch: string, name: string)
    requires HasPrefix(name, "clipboard-")
    ensures name in KeptClipboards(arch) <==>
            name[10..] == "linux-" + arch + "-gnu" || name[10..] == "linux-" + arch + "-musl"
  {
    var gnu, musl := "linux-" + arch + "-gnu", "linux-" + arch + "-musl";
    assert "clipboard-linux-" == "clipboard-" + "linux-";
    assert "clipboard-linux-" + arch + "-gnu" == "clipboard-" + gnu;
    assert "clipboard-linux-" + arch + "-musl" == "clipboard-" + musl;
    assert name == "clipboard-" + name[10..];
    assert ("clipboard-" + gnu)[10..] == gnu && ("clipboard-" + musl)[10..] == musl;
  }

  lemma ShiftedGone(arch: string, excluded: seq<seq<string>>, base: string, path: seq<string>, last: Kind, i: nat)
    requires 0 < i < |path|
    ensures GoneAt(arch, excluded, base, path, last, i) <==>
            GoneAt(arch, excluded, path[0], path[1..], last, i - 1)
  {
    hide OtherClipboard, NeverNeeded;
    assert path[1..][i - 1..] == path[i..] && path[1..][i - 1] == path[i];
    assert i > 1 ==> path[1..][i - 2] == path[i - 1];
  }

  lemma GoneFirst(arch: string, excluded: seq<seq<string>>, base: string, path: seq<string>, last: Kind)
    requires path != []
    ensures Gone(arch, excluded, base, path, last) <==>
            GoneAt(arch, excluded, base, path, last, 0) || Gone(arch, excluded, path[0], path[1..], last)
  {
    hide GoneAt;
    forall i: nat | 0 < i < |path|
      ensures GoneAt(arch, excluded, base, path, last, i) <==>
              GoneAt(arch, excluded, path[0], path[1..], last, i - 1)
    {
      ShiftedGone(arch, excluded, base, path, last, i);
    }
    if Gone(arch, excluded, path[0], path[1..], last) {
      var i :| 0 <= i < |path[1..]| && GoneAt(arch, excluded, path[0], path[1..], last, i);
      assert GoneAt(arch, excluded, base, path, last, i + 1) <==>
             GoneAt(arch, excluded, path[0], path[1..], last, i + 1 - 1);
    }
  }

  lemma {:induction false} DoomedIsGone(arch: string, excluded: seq<seq<string>>, base: string, path: seq<string>,
                                        last: Kind)
    requires path != []
    ensures Doomed(Config(KeptClipboards(arch), excluded), base, path, last)
       <==> Gone(arch, excluded, base, path, last)
    decreases |path|
  {
    hide Junk, ForeignClipboard, NeverNeeded, OtherClipboard, Gone;
    JunkIsNeverNeeded(path[0]);
    ForeignIsOther(arch, excluded, base, path[0]);
    GoneFirst(arch, excluded, base, path, last);
    assert path[0..] == path;
    if |path| > 1 {
      DoomedIsGone(arch, excluded, path[0], path[1..], last);
    } else {
      NothingGone(arch, excluded, path[0], last);
      assert path[1..] == [];
    }
  }

  lemma NothingGone(arch: string, excluded: seq<seq<string>>, base: string, last: Kind)
    ensures !Gone(arch, excluded, base, [], last)
  {
  }

  /** At every depth exactly the paths that have to go are gone; every other path leads to what it led to. */
  lemma PrunedPaths(arch: string, excluded: seq<seq<string>>, base: string, es: seq<Entry>, path: seq<string>)
    requires Config(KeptClipboards(arch), excluded).Valid() && path != [] && DistinctNames(es)
    ensures var was := Find(es, path);
            Find(Prune(Config(KeptClipboards(arch), excluded), base, es), path)
            == if was.None? || Gone(arch, excluded, base, path, was.value) then None else was
  {
    hide Gone, Doomed, Prune;
    PruneExactly(Config(KeptClipboards(arch), excluded), base, es, path);
    if Find(es, path).Some? {
      DoomedIsGone(arch, excluded, base, path, Find(es, path).value);
    }
  }

  // ---------------------------------------------------------------- what is counted

  function Prefixed(name: string, paths: seq<seq<string>>): (r: seq<seq<string>>)
    ensures |r| == |paths| && forall i :: 0 <= i < |r| ==> r[i] == [name] + paths[i]
  {
    seq(|paths|, i requires 0 <= i < |paths| => [name] + paths[i])
  }

  /** The paths of all regular files of a directory. */
  function FilePaths(es: seq<Entry>): seq<seq<string>>
    decreases Size(es), 1, |es|
  {
    if es == [] then [] else FilePathsOf(es[0].name, es[0].node) + FilePaths(es[1..])
  }

  function FilePathsOf(name: string, n: Node): seq<seq<string>>
    decreases NodeSize(n), 0
  {
    match n
    case File(_) => [[name]]
    case Dir(sub) => Prefixed(name, FilePaths(sub))
    case _ => []
  }

  predicate LeadsToFile(es: seq<Entry>, path: seq<string>) {
    path != [] && Find(es, path).Some? && Find(es, path).value.IsFile?
  }

  predicate OfEntry(name: string, n: Node, path: seq<string>) {
    && path != [] && path[0] == name
    && if |path| == 1 then n.File? else n.Dir? && LeadsToFile(n.entries, path[1..])
  }

  lemma {:induction false} ListedIsFile(es: seq<Entry>, path: seq<string>)
    requires DistinctNames(es)
    ensures path in FilePaths(es) <==> LeadsToFile(es, path)
    decreases Size(es), |es|
  {
    if es != [] {
      var e, rest := es[0], es[1..];
      ListedIsFile(rest, path);
      ListedOfEntry(e, path);
      FindSplits(e, rest, path);
      assert es == [e] + rest;
    }
  }

  lemma {:induction false} ListedOfEntry(e: Entry, path: seq<string>)
    requires DistinctNamesIn(e.node)
    ensures path in FilePathsOf(e.name, e.node) <==> OfEntry(e.name, e.node, path)
    decreases NodeSize(e.node), 0
  {
    if |path| == 1 {
      assert path == [path[0]];
    }
    if e.node.Dir? {
      if path != [] && path[0] == e.name {
        ListedIsFile(e.node.entries, path[1..]);
        assert path == [e.name] + path[1..];
      }
      PrefixedHas(e.name, FilePaths(e.node.entries), path);
      if |path| == 1 {
        ListedIsFile(e.node.entries, []);
        assert path[1..] == [];
      }
    }
  }

  lemma PrefixedHas(name: string, paths: seq<seq<string>>, path: seq<string>)
    ensures path in Prefixed(name, paths) <==> path != [] && path[0] == name && path[1..] in paths
  {
    if path in Prefixed(name, paths) {
      var i :| 0 <= i < |paths| && Prefixed(name, paths)[i] == path;
      assert ([name] + paths[i])[1..] == paths[i];
    }
    if path != [] && path[0] == name && path[1..] in paths {
      var i :| 0 <= i < |paths| && paths[i] == path[1..];
      assert path == [name] + path[1..];
      assert Prefixed(name, paths)[i] == path;
    }
  }

  lemma FindSplits(e: Entry, rest: seq<Entry>, path: seq<string>)
    requires DistinctNames([e] + rest)
    ensures LeadsToFile([e] + rest, path) <==> OfEntry(e.name, e.node, path) || LeadsToFile(rest, path)
    ensures LeadsToFile(rest, path) ==> Find([e] + rest, path) == Find(rest, path) && !OfEntry(e.name, e.node, path)
  {
    assert ([e] + rest)[1..] == rest && ([e] + rest)[0] == e;
  }

  lemma {:induction false} CountedFiles(es: seq<Entry>)
    ensures |FilePaths(es)| == Files(es)
    decreases Size(es), |es|
  {
    if es != [] {
      CountedFiles(es[1..]);
      if es[0].node.Dir? {
        CountedFiles(es[0].node.entries);
      }
    }
  }

  function SizeAt(es: seq<Entry>, path: seq<string>): nat {
    if LeadsToFile(es, path) then Find(es, path).value.size else 0
  }

  function SizesAt(es: seq<Entry>, paths: seq<seq<string>>): nat {
    if paths == [] then 0 else SizeAt(es, paths[0]) + SizesAt(es, paths[1..])
  }

  lemma {:induction false} SizesConcat(es: seq<Entry>, a: seq<seq<string>>, b: seq<seq<string>>)
    ensures SizesAt(es, a + b) == SizesAt(es, a) + SizesAt(es, b)
  {
    if a == [] {
      assert a + b == b;
    } else {
      assert (a + b)[1..] == a[1..] + b;
      SizesConcat(es, a[1..], b);
    }
  }

  lemma {:induction false} SameSizes(es: seq<Entry>, fs: seq<Entry>, paths: seq<seq<string>>)
    requires forall i :: 0 <= i < |paths| ==> SizeAt(es, paths[i]) == SizeAt(fs, paths[i])
    ensures SizesAt(es, paths) == SizesAt(fs, paths)
  {
    if paths != [] {
      SameSizes(es, fs, paths[1..]);
    }
  }

  lemma {:induction false} SizesBelow(es: seq<Entry>, name: string, sub: seq<Entry>, paths: seq<seq<string>>)
    requires forall i :: 0 <= i < |paths| ==> SizeAt(es, [name] + paths[i]) == SizeAt(sub, paths[i])
    ensures SizesAt(es, Prefixed(name, paths)) == SizesAt(sub, paths)
  {
    if paths != [] {
      SizesBelow(es, name, sub, paths[1..]);
      assert Prefixed(name, paths)[1..] == Prefixed(name, paths[1..]);
    }
  }

  lemma {:induction false} CountedBytes(es: seq<Entry>)
    requires DistinctNames(es)
    ensures SizesAt(es, FilePaths(es)) == Bytes(es)
    decreases Size(es), |es|
  {
    if es != [] {
      var e, rest := es[0], es[1..];
      assert es == [e] + rest;
      CountedBytes(rest);
      SizesConcat(es, FilePathsOf(e.name, e.node), FilePaths(rest));
      forall i | 0 <= i < |FilePaths(rest)|
        ensures SizeAt(es, FilePaths(rest)[i]) == SizeAt(rest, FilePaths(rest)[i])
      {
        ListedIsFile(rest, FilePaths(rest)[i]);
        FindSplits(e, rest, FilePaths(rest)[i]);
      }
      SameSizes(es, rest, FilePaths(rest));
      EntryBytes(e, rest);
    }
  }

  lemma {:induction false} EntryBytes(e: Entry, rest: seq<Entry>)
    requires DistinctNames([e] + rest)
    ensures SizesAt([e] + rest, FilePathsOf(e.name, e.node)) == NodeBytes(e.node)
    decreases NodeSize(e.node), 0
  {
    var es := [e] + rest;
    assert es[0] == e && es[1..] == rest;
    match e.node {
      case File(_) => assert [[e.name]][1..] == [];
      case Dir(sub) =>
        CountedBytes(sub);
        var paths := FilePaths(sub);
        forall i | 0 <= i < |paths|
          ensures SizeAt(es, [e.name] + paths[i]) == SizeAt(sub, paths[i])
        {
          ListedIsFile(sub, paths[i]);
          assert ([e.name] + paths[i])[1..] == paths[i];
        }
        SizesBelow(es, e.name, sub, paths);
      case _ =>
    }
  }

  lemma {:induction false} ListedOnce(es: seq<Entry>)
    requires DistinctNames(es)
    ensures Distinct(FilePaths(es))
    decreases Size(es), |es|
  {
    if es != [] {
      var e, rest := es[0], es[1..];
      assert es == [e] + rest;
      var a, b := FilePathsOf(e.name, e.node), FilePaths(rest);
      ListedOnce(rest);
      if e.node.Dir? {
        ListedOnce(e.node.entries);
        PrefixedDistinct(e.name, FilePaths(e.node.entries));
      }
      forall i, j | 0 <= i < |a| && 0 <= j < |b|
        ensures a[i] != b[j]
      {
        ListedOfEntry(e, a[i]);
        ListedIsFile(rest, b[j]);
        FindSplits(e, rest, b[j]);
      }
      DistinctConcat(a, b);
    }
  }

  lemma PrefixedDistinct(name: string, paths: seq<seq<string>>)
    requires Distinct(paths)
    ensures Distinct(Prefixed(name, paths))
  {
    var r := Prefixed(name, paths);
    forall i, j | 0 <= i < j < |r|
      ensures r[i] != r[j]
    {
      assert r[i][1..] == paths[i] && r[j][1..] == paths[j];
    }
  }

  lemma DistinctConcat(a: seq<seq<string>>, b: seq<seq<string>>)
    requires Distinct(a) && Distinct(b) && forall i, j :: 0 <= i < |a| && 0 <= j < |b| ==> a[i] != b[j]
    ensures Distinct(a + b)
  {
  }

  /** The counters of a prune are the number of the paths that lead to a regular file in what is left, and the sum of
      those files' sizes. */
  lemma CountersAreTheFiles(es: seq<Entry>)
    requires DistinctNames(es)
    ensures Distinct(FilePaths(es)) && forall path :: path in FilePaths(es) <==> LeadsToFile(es, path)
    ensures Files(es) == |FilePaths(es)| && Bytes(es) == SizesAt(es, FilePaths(es))
  {
    ListedOnce(es);
    CountedFiles(es);
    CountedBytes(es);
    forall path
      ensures path in FilePaths(es) <==> LeadsToFile(es, path)
    {
      ListedIsFile(es, path);
    }
  }
}
