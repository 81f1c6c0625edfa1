/** A finite directory tree. */
module FileTrees {
  import opened JsMaps

  /** `Special` stands for sockets, devices and the like. */
  datatype Node = File(size: nat) | Symlink | Special | Dir(entries: seq<Entry>)

  datatype Entry = Entry(name: string, node: Node)

  function NodeSize(n: Node): (r: nat)
    ensures r >= 1 && (n.Dir? ==> r == 1 + Size(n.entries))
  {
    if n.Dir? then 1 + Size(n.entries) else 1
  }

  function Size(es: seq<Entry>): nat {
    if es == [] then 0 else NodeSize(es[0].node) + Size(es[1..])
  }

  lemma {:induction false} EntrySize(es: seq<Entry>, i: nat)
    requires i < |es|
    ensures NodeSize(es[i].node) <= Size(es)
  {
    if i > 0 {
      EntrySize(es[1..], i - 1);
    }
  }

  /** Distinct names in every directory. */
  predicate DistinctNames(es: seq<Entry>) {
    es == [] || (!Named(es[1..], es[0].name) && DistinctNamesIn(es[0].node) && DistinctNames(es[1..]))
  }

  predicate DistinctNamesIn(n: Node) {
    n.Dir? ==> DistinctNames(n.entries)
  }

  predicate Named(es: seq<Entry>, name: string) {
    exists i :: 0 <= i < |es| && es[i].name == name
  }

  function Lookup(es: seq<Entry>, name: string): (r: Option<Node>)
    ensures r.Some? <==> Named(es, name)
    ensures r.Some? ==> NodeSize(r.value) <= Size(es)
  {
    if es == [] then None
    else if es[0].name == name then Some(es[0].node)
    else
      assert Named(es, name) <==> Named(es[1..], name) by {
        assert forall i :: 0 < i < |es| ==> es[i] == es[1..][i - 1];
        if Named(es[1..], name) {
          var i :| 0 <= i < |es[1..]| && es[1..][i].name == name;
          assert es[i + 1].name == name;
        }
      }
      Lookup(es[1..], name)
  }

  lemma {:induction false} LookupDistinct(es: seq<Entry>, name: string)
    requires DistinctNames(es)
    ensures Lookup(es, name).Some? ==> DistinctNamesIn(Lookup(es, name).value)
  {
    if es != [] && es[0].name != name {
      LookupDistinct(es[1..], name);
    }
  }

  datatype Kind = IsFile(size: nat) | IsOther | IsDir

  function KindOf(n: Node): Kind {
    match n
    case File(size) => IsFile(size)
    case Dir(_) => IsDir
    case _ => IsOther
  }

  /** What is found at the end of a path of names, if anything. */
  function Find(es: seq<Entry>, path: seq<string>): Option<Kind>
    requires path != []
    decreases |path|
  {
    var n := Lookup(es, path[0]);
    if n.None? then None
    else if |path| == 1 then Some(KindOf(n.value))
    else if n.value.Dir? then Find(n.value.entries, path[1..])
    else None
  }
}
