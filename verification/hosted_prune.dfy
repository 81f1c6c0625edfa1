/** Pruning the installed dependencies and measuring what is left, scripts/hosted-component-contract.ts. */
module HostedPrunes {
  import opened JsMaps
  import opened Texts
  import opened FileTrees

  /** The clipboard packages of the target architecture, and the excluded packages as lists of path segments. */
  datatype Config = Config(keepClipboard: set<string>, excluded: seq<seq<string>>)
  {
    /** As the contract's pattern for package names has it, a name is not empty and its segments name entries. */
    predicate Valid() {
      forall i :: 0 <= i < |excluded| ==>
        excluded[i] != [] && forall k :: 0 <= k < |excluded[i]| ==> ProperSegment(excluded[i][k])
    }
  }

  predicate ProperSegment(s: string) {
    s != "" && s != "." && s != ".." && '/' !in s
  }

  function KeptClipboards(arch: string): set<string> {
    {"clipboard-linux-" + arch + "-gnu", "clipboard-linux-" + arch + "-musl"}
  }

  predicate Junk(name: string) {
    HasSuffix(name, ".map") || HasSuffix(name, ".d.ts")
  }

  predicate ForeignClipboard(c: Config, parent: string, name: string) {
    parent == "@mariozechner" && HasPrefix(name, "clipboard-") && name !in c.keepClipboard
  }

  // ---------------------------------------------------------------- removing one path

  function RemovePath(es: seq<Entry>, path: seq<string>): (r: seq<Entry>)
    requires path != []
    ensures Size(r) <= Size(es)
    decreases |path|, |es|
  {
    if es == [] then []
    else
      var rest := RemovePath(es[1..], path);
      if es[0].name != path[0] then Prepend(es[0], rest)
      else if |path| == 1 then rest
      else if es[0].node.Dir? then Prepend(Entry(es[0].name, Dir(RemovePath(es[0].node.entries, path[1..]))), rest)
      else Prepend(es[0], rest)
  }

  function Prepend(e: Entry, es: seq<Entry>): (r: seq<Entry>)
    ensures Size(r) == NodeSize(e.node) + Size(es)
  {
    assert ([e] + es)[1..] == es;
    [e] + es
  }

  function RemoveAll(es: seq<Entry>, paths: seq<seq<string>>): (r: seq<Entry>)
    requires forall i :: 0 <= i < |paths| ==> paths[i] != []
    ensures Size(r) <= Size(es)
  {
    if paths == [] then es else RemovePath(RemoveAll(es, paths[..|paths| - 1]), paths[|paths| - 1])
  }

  // ---------------------------------------------------------------- pruning

  function Excluding(c: Config, base: string, es: seq<Entry>): (r: seq<Entry>)
    requires c.Valid()
    ensures Size(r) <= Size(es)
  {
    if base == "node_modules" then RemoveAll(es, c.excluded) else es
  }

  /** What is left of the directory named `base`. */
  function Prune(c: Config, base: string, es: seq<Entry>): (r: seq<Entry>)
    requires c.Valid()
    decreases Size(es), 1, |es|
  {
    PruneEntries(c, base, Excluding(c, base, es))
  }

  function PruneEntries(c: Config, base: string, es: seq<Entry>): seq<Entry>
    requires c.Valid()
    decreases Size(es), 0, |es|
  {
    if es == [] then []
    else
      var rest := PruneEntries(c, base, es[1..]);
      match es[0].node
      case Dir(sub) =>
        if ForeignClipboard(c, base, es[0].name) then rest
        else [Entry(es[0].name, Dir(Prune(c, es[0].name, sub)))] + rest
      case File(_) => if Junk(es[0].name) then rest else [es[0]] + rest
      case _ => [es[0]] + rest
  }

  function Files(es: seq<Entry>): nat {
    if es == [] then 0 else NodeFiles(es[0].node) + Files(es[1..])
  }

  function NodeFiles(n: Node): nat {
    match n
    case File(_) => 1
    case Dir(sub) => Files(sub)
    case _ => 0
  }

  function Bytes(es: seq<Entry>): nat {
    if es == [] then 0 else NodeBytes(es[0].node) + Bytes(es[1..])
  }

  function NodeBytes(n: Node): nat {
    match n
    case File(size) => size
    case Dir(sub) => Bytes(sub)
    case _ => 0
  }

  // ---------------------------------------------------------------- the imperative passes

  class Measurer {
    var files: nat
    var bytes: nat

    constructor ()
      ensures files == 0 && bytes == 0
    {
      files, bytes := 0, 0;
    }

    /** `skip` is only non-empty for the top directory. */
    method Visit(es: seq<Entry>, skip: set<string>)
      modifies this
      ensures files == old(files) + Files(Unskipped(es, skip)) && bytes == old(bytes) + Bytes(Unskipped(es, skip))
      decreases Size(es)
    {
      var i := 0;
      while i < |es|
        invariant 0 <= i <= |es|
        invariant files + Files(Unskipped(es[i..], skip)) == old(files) + Files(Unskipped(es, skip))
        invariant bytes + Bytes(Unskipped(es[i..], skip)) == old(bytes) + Bytes(Unskipped(es, skip))
      {
        assert es[i..][0] == es[i] && es[i..][1..] == es[i + 1..];
        EntrySize(es, i);
        if es[i].name !in skip {
          match es[i].node {
            case Dir(sub) =>
              NoneSkipped(sub);
              Visit(sub, {});
            case File(size) =>
              files := files + 1;
              bytes := bytes + size;
            case _ =>
          }
        }
        i := i + 1;
      }
    }
  }

  function Unskipped(es: seq<Entry>, skip: set<string>): seq<Entry> {
    if es == [] then []
    else if es[0].name in skip then Unskipped(es[1..], skip)
    else Prepend(es[0], Unskipped(es[1..], skip))
  }

  lemma {:induction false} NoneSkipped(es: seq<Entry>)
    ensures Unskipped(es, {}) == es
  {
    if es != [] {
      NoneSkipped(es[1..]);
    }
  }

  method MeasureRegularFiles(es: seq<Entry>, excludeTopLevel: set<string>) returns (files: nat, bytes: nat)
    ensures files == Files(Unskipped(es, excludeTopLevel)) && bytes == Bytes(Unskipped(es, excludeTopLevel))
  {
    var m := new Measurer();
    m.Visit(es, excludeTopLevel);
    files, bytes := m.files, m.bytes;
  }

  class Pruner {
    const config: Config
    var retainedFiles: nat
    var retainedBytes: nat

    constructor (config: Config)
      ensures this.config == config && retainedFiles == 0 && retainedBytes == 0
    {
      this.config := config;
      retainedFiles, retainedBytes := 0, 0;
    }

    method RemoveExcludedPackages(base: string, es: seq<Entry>) returns (r: seq<Entry>)
      requires config.Valid()
      ensures r == Excluding(config, base, es)
    {
      r := es;
      if base != "node_modules" {
        return;
      }
      for i := 0 to |config.excluded|
        invariant r == RemoveAll(es, config.excluded[..i])
      {
        assert config.excluded[..i + 1][..i] == config.excluded[..i];
        r := RemovePath(r, config.excluded[i]);
      }
      assert config.excluded[..|config.excluded|] == config.excluded;
    }

    /** Prunes one directory and adds what it keeps to the counters. */
    method Visit(base: string, es: seq<Entry>) returns (r: seq<Entry>)
      requires config.Valid()
      modifies this
      ensures r == Prune(config, base, es)
      ensures retainedFiles == old(retainedFiles) + Files(r) && retainedBytes == old(retainedBytes) + Bytes(r)
      decreases Size(es), 1
    {
      hide PruneEntries, PrunedNode, Files, Bytes, Excluding;
      var entries := RemoveExcludedPackages(base, es);
      r := [];
      PruneNothing(config, base);
      assert entries[0..] == entries;
      var i := 0;
      while i < |entries|
        invariant 0 <= i <= |entries|
        invariant r + PruneEntries(config, base, entries[i..]) == PruneEntries(config, base, entries)
        invariant retainedFiles == old(retainedFiles) + Files(r) && retainedBytes == old(retainedBytes) + Bytes(r)
      {
        var e := entries[i];
        EntrySize(entries, i);
        ghost var before, rest := r, PruneEntries(config, base, entries[i + 1..]);
        PruneRest(config, base, entries, i);
        var kept := VisitEntry(base, e);
        if kept.Some? {
          CountAppended(r, Entry(e.name, kept.value));
          r := r + [Entry(e.name, kept.value)];
          ConcatAssociates(before, [Entry(e.name, kept.value)], rest);
        }
        i := i + 1;
      }
      assert entries[|entries|..] == [];
      assert r + [] == r;
    }

    /** Whether an entry is kept, and as what. */
    method VisitEntry(base: string, e: Entry) returns (kept: Option<Node>)
      requires config.Valid()
      modifies this
      ensures kept == PrunedNode(config, base, e.name, e.node)
      ensures retainedFiles == old(retainedFiles) + (if kept.Some? then NodeFiles(kept.value) else 0)
      ensures retainedBytes == old(retainedBytes) + (if kept.Some? then NodeBytes(kept.value) else 0)
      decreases NodeSize(e.node), 0
    {
      match e.node {
        case Dir(sub) =>
          if ForeignClipboard(config, base, e.name) {
            return None;
          }
          var left := Visit(e.name, sub);
          return Some(Dir(left));
        case File(size) =>
          if Junk(e.name) {
            return None;
          }
          retainedFiles := retainedFiles + 1;
          retainedBytes := retainedBytes + size;
        case _ =>
      }
      return Some(e.node);
    }
  }

  lemma PruneNothing(c: Config, base: string)
    requires c.Valid()
    ensures PruneEntries(c, base, []) == [] && Files([]) == 0 && Bytes([]) == 0
  {
  }

  lemma PruneRest(c: Config, base: string, es: seq<Entry>, i: nat)
    requires c.Valid() && i < |es|
    ensures var rest := PruneEntries(c, base, es[i + 1..]);
            var kept := PrunedNode(c, base, es[i].name, es[i].node);
            PruneEntries(c, base, es[i..]) == if kept.Some? then [Entry(es[i].name, kept.value)] + rest else rest
  {
    assert es[i..][0] == es[i] && es[i..][1..] == es[i + 1..];
    PruneEntriesStep(c, base, es[i..]);
  }

  lemma {:induction false} CountAppended(es: seq<Entry>, e: Entry)
    ensures Files(es + [e]) == Files(es) + NodeFiles(e.node)
    ensures Bytes(es + [e]) == Bytes(es) + NodeBytes(e.node)
  {
    if es == [] {
      assert es + [e] == [e] && [e][1..] == [];
    } else {
      CountAppended(es[1..], e);
      assert (es + [e])[1..] == es[1..] + [e];
    }
  }

  /** The counts the prune returns are those of the pruned tree. */
  method PruneHostedDependencies(base: string, es: seq<Entry>, arch: string, excluded: seq<seq<string>>)
    returns (left: seq<Entry>, files: nat, bytes: nat)
    requires Config(KeptClipboards(arch), excluded).Valid()
    ensures left == Prune(Config(KeptClipboards(arch), excluded), base, es)
    ensures files == Files(left) && bytes == Bytes(left)
  {
    var p := new Pruner(Config(KeptClipboards(arch), excluded));
    left := p.Visit(base, es);
    files, bytes := p.retainedFiles, p.retainedBytes;
  }

  /** Measuring what a prune left finds exactly what the prune reported. */
  method PruneThenMeasure(base: string, es: seq<Entry>, arch: string, excluded: seq<seq<string>>) returns (agree: bool)
    requires Config(KeptClipboards(arch), excluded).Valid()
    ensures agree
  {
    var left, files, bytes := PruneHostedDependencies(base, es, arch, excluded);
    var measuredFiles, measuredBytes := MeasureRegularFiles(left, {});
    NoneSkipped(left);
    agree := files == measuredFiles && bytes == measuredBytes;
  }

  // ---------------------------------------------------------------- what is pruned, path by path

  predicate ExcludedAt(c: Config, base: string, path: seq<string>) {
    base == "node_modules" && exists i :: 0 <= i < |c.excluded| && c.excluded[i] <= path
  }

  /** Whether a path of the directory `base` that ends in something of kind `last` has to go: below a node_modules it
      starts with an excluded package, or it leads through a foreign clipboard package, or it is a file of a kind
      that is never needed. */
  predicate Doomed(c: Config, base: string, path: seq<string>, last: Kind)
    requires path != []
    decreases |path|
  {
    || ExcludedAt(c, base, path)
    || ((|path| > 1 || last.IsDir?) && ForeignClipboard(c, base, path[0]))
    || (|path| == 1 && last.IsFile? && Junk(path[0]))
    || (|path| > 1 && Doomed(c, path[0], path[1..], last))
  }

  lemma {:induction false} RemoveLookup(es: seq<Entry>, path: seq<string>, name: string)
    requires path != [] && DistinctNames(es)
    ensures var r, was := Lookup(RemovePath(es, path), name), Lookup(es, name);
            if name != path[0] || was.None? then r == was
            else if |path| == 1 then r == None
            else if was.value.Dir? then r == Some(Dir(RemovePath(was.value.entries, path[1..])))
            else r == was
    ensures DistinctNames(RemovePath(es, path))
    decreases |path|, |es|
  {
    if es != [] {
      var e := es[0];
      RemoveLookup(es[1..], path, name);
      RemoveLookup(es[1..], path, e.name);
      if e.name == path[0] && |path| > 1 && e.node.Dir? {
        RemoveLookup(e.node.entries, path[1..], name);
        assert Lookup(es[1..], e.name).None?;
      }
      HeadLookup(e, RemovePath(es[1..], path), name);
    }
  }

  lemma HeadLookup(e: Entry, es: seq<Entry>, name: string)
    ensures forall n :: Lookup([Entry(e.name, n)] + es, name) == if e.name == name then Some(n) else Lookup(es, name)
    ensures forall n :: DistinctNames([Entry(e.name, n)] + es) <==>
                        !Named(es, e.name) && DistinctNamesIn(n) && DistinctNames(es)
  {
    forall n
      ensures Lookup([Entry(e.name, n)] + es, name) == if e.name == name then Some(n) else Lookup(es, name)
      ensures DistinctNames([Entry(e.name, n)] + es) <==>
              !Named(es, e.name) && DistinctNamesIn(n) && DistinctNames(es) {
      assert ([Entry(e.name, n)] + es)[1..] == es;
    }
  }

  lemma {:induction false} RemoveFind(es: seq<Entry>, d: seq<string>, path: seq<string>)
    requires d != [] && path != [] && DistinctNames(es)
    ensures Find(RemovePath(es, d), path) == if d <= path then None else Find(es, path)
    decreases |path|
  {
    RemoveLookup(es, d, path[0]);
    var was := Lookup(es, path[0]);
    LookupDistinct(es, path[0]);
    if d[0] == path[0] && |d| > 1 && |path| > 1 {
      assert d <= path <==> d[1..] <= path[1..];
      if was.Some? && was.value.Dir? {
        RemoveFind(was.value.entries, d[1..], path[1..]);
      }
    }
  }

  lemma {:induction false} RemoveAllFind(es: seq<Entry>, ds: seq<seq<string>>, path: seq<string>)
    requires path != [] && DistinctNames(es) && forall i :: 0 <= i < |ds| ==> ds[i] != []
    ensures Find(RemoveAll(es, ds), path) == if exists i :: 0 <= i < |ds| && ds[i] <= path then None else Find(es, path)
    ensures DistinctNames(RemoveAll(es, ds))
  {
    hide Find, RemovePath, DistinctNames;
    if ds != [] {
      var init, last := ds[..|ds| - 1], ds[|ds| - 1];
      RemoveAllFind(es, init, path);
      RemoveFind(RemoveAll(es, init), last, path);
      RemoveLookup(RemoveAll(es, init), last, last[0]);
      assert forall i :: 0 <= i < |init| ==> init[i] == ds[i];
    }
  }

  lemma ExcludingFind(c: Config, base: string, es: seq<Entry>, path: seq<string>)
    requires c.Valid() && path != [] && DistinctNames(es)
    ensures Find(Excluding(c, base, es), path) == if ExcludedAt(c, base, path) then None else Find(es, path)
    ensures DistinctNames(Excluding(c, base, es))
  {
    RemoveAllFind(es, c.excluded, path);
  }

  /** What becomes of an entry that is not excluded. */
  function PrunedNode(c: Config, base: string, name: string, n: Node): Option<Node>
    requires c.Valid()
  {
    match n
    case Dir(sub) => if ForeignClipboard(c, base, name) then None else Some(Dir(Prune(c, name, sub)))
    case File(_) => if Junk(name) then None else Some(n)
    case _ => Some(n)
  }

  lemma PruneEntriesStep(c: Config, base: string, es: seq<Entry>)
    requires c.Valid() && es != []
    ensures var rest := PruneEntries(c, base, es[1..]);
            var kept := PrunedNode(c, base, es[0].name, es[0].node);
            PruneEntries(c, base, es) == if kept.Some? then [Entry(es[0].name, kept.value)] + rest else rest
  {
  }

  lemma {:induction false} PruneLookup(c: Config, base: string, es: seq<Entry>, name: string)
    requires c.Valid() && DistinctNames(es)
    ensures Lookup(PruneEntries(c, base, es), name)
         == if Lookup(es, name).None? then None else PrunedNode(c, base, name, Lookup(es, name).value)
  {
    if es != [] {
      var rest := PruneEntries(c, base, es[1..]);
      PruneLookup(c, base, es[1..], name);
      PruneEntriesStep(c, base, es);
      HeadLookup(es[0], rest, name);
    }
  }

  lemma {:induction false} PruneDistinct(c: Config, base: string, es: seq<Entry>)
    requires c.Valid() && DistinctNames(es)
    ensures DistinctNames(PruneEntries(c, base, es))
    decreases Size(es), |es|
  {
    if es != [] {
      var e, rest := es[0], PruneEntries(c, base, es[1..]);
      PruneDistinct(c, base, es[1..]);
      PruneEntriesStep(c, base, es);
      PruneLookup(c, base, es[1..], e.name);
      HeadLookup(e, rest, e.name);
      if e.node.Dir? {
        ExcludingFind(c, e.name, e.node.entries, ["a"]);
        PruneDistinct(c, e.name, Excluding(c, e.name, e.node.entries));
      }
    }
  }

  /** Exactly the doomed paths are gone; every other path still leads to what it led to. */
  lemma {:induction false} PruneExactly(c: Config, base: string, es: seq<Entry>, path: seq<string>)
    requires c.Valid() && path != [] && DistinctNames(es)
    ensures var was := Find(es, path);
            Find(Prune(c, base, es), path)
            == if was.None? || Doomed(c, base, path, was.value) then None else was
    decreases |path|
  {
    var kept := Excluding(c, base, es);
    ExcludingFind(c, base, es, path);
    PruneLookup(c, base, kept, path[0]);
    LookupDistinct(kept, path[0]);
    var n := Lookup(kept, path[0]);
    if |path| > 1 && n.Some? && n.value.Dir? {
      PruneExactly(c, path[0], n.value.entries, path[1..]);
    }
  }

  // ---------------------------------------------------------------- pruning again

  lemma {:induction false} RemoveAbsent(es: seq<Entry>, d: seq<string>)
    requires d != [] && DistinctNames(es) && Find(es, d).None?
    ensures RemovePath(es, d) == es
    decreases |d|, |es|
  {
    if es != [] {
      if es[0].name == d[0] {
        OtherName(es[1..], d);
        if |d| > 1 && es[0].node.Dir? {
          RemoveAbsent(es[0].node.entries, d[1..]);
        }
      } else {
        RemoveAbsent(es[1..], d);
      }
      assert es == [es[0]] + es[1..];
    }
  }

  lemma {:induction false} OtherName(es: seq<Entry>, d: seq<string>)
    requires d != [] && !Named(es, d[0])
    ensures RemovePath(es, d) == es
    decreases |es|
  {
    if es != [] {
      assert es[0].name != d[0];
      assert forall i :: 0 <= i < |es[1..]| ==> es[1..][i] == es[i + 1];
      OtherName(es[1..], d);
      assert es == [es[0]] + es[1..];
    }
  }

  lemma {:induction false} RemoveAllAbsent(es: seq<Entry>, ds: seq<seq<string>>)
    requires DistinctNames(es) && forall i :: 0 <= i < |ds| ==> ds[i] != [] && Find(es, ds[i]).None?
    ensures RemoveAll(es, ds) == es
  {
    if ds != [] {
      RemoveAllAbsent(es, ds[..|ds| - 1]);
      RemoveAbsent(es, ds[|ds| - 1]);
    }
  }

  lemma NothingExcludedLeft(c: Config, base: string, es: seq<Entry>)
    requires c.Valid() && DistinctNames(es)
    ensures var p := Prune(c, base, es); DistinctNames(p) && Excluding(c, base, p) == p
  {
    var p := Prune(c, base, es);
    ExcludingFind(c, base, es, ["a"]);
    PruneDistinct(c, base, Excluding(c, base, es));
    if base == "node_modules" {
      forall i | 0 <= i < |c.excluded| ensures Find(p, c.excluded[i]).None? {
        PruneExactly(c, base, es, c.excluded[i]);
      }
      RemoveAllAbsent(p, c.excluded);
    }
  }

  lemma {:induction false} PruneEntriesTwice(c: Config, base: string, es: seq<Entry>)
    requires c.Valid() && DistinctNames(es)
    ensures PruneEntries(c, base, PruneEntries(c, base, es)) == PruneEntries(c, base, es)
    decreases Size(es), 0, |es|
  {
    if es != [] {
      PruneEntriesTwice(c, base, es[1..]);
      if es[0].node.Dir? {
        PruneTwice(c, es[0].name, es[0].node.entries);
      }
      PruneEntriesStep(c, base, es);
      var kept := PrunedNode(c, base, es[0].name, es[0].node);
      if kept.Some? {
        var rest := PruneEntries(c, base, es[1..]);
        var again := [Entry(es[0].name, kept.value)] + rest;
        assert again[1..] == rest;
        PruneEntriesStep(c, base, again);
      }
    }
  }

  /** Pruning a pruned tree changes nothing. */
  lemma {:induction false} PruneTwice(c: Config, base: string, es: seq<Entry>)
    requires c.Valid() && DistinctNames(es)
    ensures Prune(c, base, Prune(c, base, es)) == Prune(c, base, es)
    decreases Size(es), 1, |es|
  {
    NothingExcludedLeft(c, base, es);
    ExcludingFind(c, base, es, ["a"]);
    PruneEntriesTwice(c, base, Excluding(c, base, es));
  }
}
