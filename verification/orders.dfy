/** The order of texts by their first differing character, and sorting by it. */
module TextOrders {

  predicate Below(a: string, b: string) {
    if b == "" then false
    else if a == "" then true
    else if a[0] != b[0] then a[0] < b[0]
    else Below(a[1..], b[1..])
  }

  lemma {:induction false} BelowTotal(a: string, b: string)
    ensures a == b || Below(a, b) || Below(b, a)
    ensures !(Below(a, b) && Below(b, a)) && !Below(a, a)
  {
    if a != "" && b != "" {
      BelowTotal(a[1..], b[1..]);
      assert a[0] == b[0] && a[1..] == b[1..] ==> a == [a[0]] + a[1..] == b;
    }
    if a != "" {
      BelowTotal(a[1..], a[1..]);
    }
  }

  lemma {:induction false} BelowTransitive(a: string, b: string, c: string)
    requires Below(a, b) && Below(b, c)
    ensures Below(a, c)
  {
    if a != "" && a[0] == b[0] == c[0] {
      BelowTransitive(a[1..], b[1..], c[1..]);
    }
  }

  /** The order of a dictionary: up to some place the texts are the same, and there the one ends or has the smaller
      character. */
  predicate DiffersAt(a: string, b: string, k: nat) {
    k <= |a| && k < |b| && a[..k] == b[..k] && (k == |a| || a[k] < b[k])
  }

  lemma {:induction false} BelowExactly(a: string, b: string)
    ensures Below(a, b) <==> exists k: nat :: DiffersAt(a, b, k)
  {
    if a == "" || b == "" || a[0] != b[0] {
      FirstDiffers(a, b);
    } else {
      BelowExactly(a[1..], b[1..]);
      DiffersLater(a, b, 0);
      if k: nat :| DiffersAt(a, b, k) {
        DiffersLater(a, b, k - 1);
      }
      if k: nat :| DiffersAt(a[1..], b[1..], k) {
        DiffersLater(a, b, k);
      }
    }
  }

  lemma FirstDiffers(a: string, b: string)
    requires a == "" || b == "" || a[0] != b[0]
    ensures Below(a, b) <==> DiffersAt(a, b, 0)
    ensures forall k: nat :: DiffersAt(a, b, k) ==> k == 0
  {
    forall k: nat
      ensures DiffersAt(a, b, k) ==> k == 0
    {
      SameFirst(a, b, k);
    }
  }

  lemma SameFirst(a: string, b: string, k: nat)
    ensures 0 < k <= |a| && k <= |b| && a[..k] == b[..k] ==> a[0] == b[0]
  {
    if 0 < k <= |a| && k <= |b| && a[..k] == b[..k] {
      assert a[..k][0] == a[0] && b[..k][0] == b[0];
    }
  }

  lemma DiffersLater(a: string, b: string, k: nat)
    requires a != "" && b != "" && a[0] == b[0]
    ensures DiffersAt(a, b, k + 1) <==> DiffersAt(a[1..], b[1..], k)
    ensures !DiffersAt(a, b, 0)
  {
    if k + 1 <= |a| && k + 1 <= |b| {
      assert a[..k + 1] == [a[0]] + a[1..][..k] && b[..k + 1] == [b[0]] + b[1..][..k];
    }
  }

  /** A text sorts before every longer text it starts. */
  lemma {:induction false} PrefixBelow(a: string, b: string)
    requires b != ""
    ensures Below(a, a + b)
  {
    if a != "" {
      PrefixBelow(a[1..], b);
      assert (a + b)[1..] == a[1..] + b;
    }
  }

  /** Strictly ascending, so without repetition. */
  ghost predicate Ascending(s: seq<string>) {
    forall i, j :: 0 <= i < j < |s| ==> Below(s[i], s[j])
  }

  /** `x` put in its place in an ascending sequence; nothing changes if it is there. */
  function Insert(x: string, s: seq<string>): seq<string> {
    if s == [] then [x]
    else if x == s[0] then s
    else if Below(x, s[0]) then [x] + s
    else [s[0]] + Insert(x, s[1..])
  }

  function Elements(s: seq<string>): set<string> {
    set x | x in s
  }

  lemma {:induction false} InsertAscending(x: string, s: seq<string>)
    requires Ascending(s)
    ensures Ascending(Insert(x, s)) && Elements(Insert(x, s)) == Elements(s) + {x}
  {
    if s != [] {
      BelowTotal(x, s[0]);
      if Below(x, s[0]) {
        forall j | 0 < j < |s| ensures Below(x, s[j]) {
          BelowTransitive(x, s[0], s[j]);
        }
      } else if x != s[0] {
        var rest := s[1..];
        assert Ascending(rest);
        InsertAscending(x, rest);
        assert s == [s[0]] + rest;
        forall y | y in Insert(x, rest) ensures Below(s[0], y) {
          assert y in Elements(rest) + {x};
          assert y in rest ==> exists j :: 0 < j < |s| && s[j] == y;
        }
        forall y ensures y in Elements(Insert(x, s)) <==> y in Elements(s) + {x} {
          assert y in Elements(Insert(x, rest)) <==> y in Elements(rest) + {x};
        }
      }
    }
  }

  /** The distinct elements of `s` in ascending order. */
  function Sort(s: seq<string>): seq<string> {
    if s == [] then [] else Insert(s[|s| - 1], Sort(s[..|s| - 1]))
  }

  lemma {:induction false} SortAscending(s: seq<string>)
    ensures Ascending(Sort(s)) && Elements(Sort(s)) == Elements(s)
  {
    if s != [] {
      var init, last := s[..|s| - 1], s[|s| - 1];
      SortAscending(init);
      InsertAscending(last, Sort(init));
      assert s == init + [last];
    }
  }

  lemma FirstIsLeast(s: seq<string>, x: string)
    requires Ascending(s) && x in s
    ensures x == s[0] || Below(s[0], x)
  {
  }

  /** An ascending sequence is determined by its elements. */
  lemma {:induction false} AscendingUnique(s: seq<string>, t: seq<string>)
    requires Ascending(s) && Ascending(t) && Elements(s) == Elements(t)
    ensures s == t
  {
    NoElements(s);
    NoElements(t);
    if s != [] {
      assert s[0] in Elements(t) && t[0] in Elements(s);
      FirstIsLeast(s, t[0]);
      FirstIsLeast(t, s[0]);
      BelowTotal(s[0], t[0]);
      RestElements(s);
      RestElements(t);
      AscendingUnique(s[1..], t[1..]);
      assert s == [s[0]] + s[1..] && t == [t[0]] + t[1..];
    }
  }

  lemma NoElements(s: seq<string>)
    ensures s == [] <==> Elements(s) == {}
  {
    if s != [] {
      assert s[0] in Elements(s);
    }
  }

  lemma RestElements(s: seq<string>)
    requires s != [] && Ascending(s)
    ensures Elements(s[1..]) == Elements(s) - {s[0]} && Ascending(s[1..])
  {
    assert s == [s[0]] + s[1..];
    forall y | y in s[1..] ensures y != s[0] {
      BelowTotal(s[0], s[0]);
      var j :| 0 < j < |s| && s[j] == y;
    }
  }
}
