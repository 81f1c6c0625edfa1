/** Splitting a text at its newlines and joining it again, as `strings.Split`/`strings.Join` and JavaScript's
    `split("\n")`/`join("\n")` do. */
module Lines {

  predicate OneLine(s: string) {
    forall i :: 0 <= i < |s| ==> s[i] != '\n'
  }

  function Split(s: string): (ls: seq<string>)
    ensures ls != []
    ensures forall i :: 0 <= i < |ls| ==> OneLine(ls[i])
  {
    if s == "" then [""]
    else if s[0] == '\n' then [""] + Split(s[1..])
    else
      var rest := Split(s[1..]);
      [[s[0]] + rest[0]] + rest[1..]
  }

  function Join(ls: seq<string>): string {
    if ls == [] then "" else if |ls| == 1 then ls[0] else ls[0] + "\n" + Join(ls[1..])
  }

  /** Every text is the join of its lines. */
  lemma {:induction false} JoinSplit(s: string)
    ensures Join(Split(s)) == s
  {
    if s != "" {
      var rest := Split(s[1..]);
      JoinSplit(s[1..]);
      if s[0] == '\n' {
        assert Split(s)[1..] == rest;
        assert s == "" + "\n" + s[1..];
      } else {
        var ls := Split(s);
        assert ls[1..] == rest[1..];
        assert s == [s[0]] + s[1..];
        if |rest| > 1 {
          assert ls[0] + "\n" + Join(ls[1..]) == [s[0]] + (rest[0] + "\n" + Join(rest[1..]));
        }
      }
    }
  }

  lemma {:induction false} SplitOneLine(s: string)
    requires OneLine(s)
    ensures Split(s) == [s]
  {
    if s != "" {
      assert s[0] != '\n' && OneLine(s[1..]);
      SplitOneLine(s[1..]);
      assert [s[0]] + s[1..] == s;
    }
  }

  function AddToFirst(c: char, ls: seq<string>): seq<string>
    requires ls != []
  {
    if c == '\n' then [""] + ls else [[c] + ls[0]] + ls[1..]
  }

  lemma SplitCons(c: char, s: string)
    ensures Split([c] + s) == AddToFirst(c, Split(s))
  {
    assert ([c] + s)[1..] == s;
  }

  lemma AddToFirstConcat(c: char, a: seq<string>, b: seq<string>)
    requires a != []
    ensures AddToFirst(c, a + b) == AddToFirst(c, a) + b
  {
  }

  lemma {:induction false} SplitNewline(a: string, b: string)
    ensures Split(a + "\n" + b) == Split(a) + Split(b)
  {
    if a == "" {
      SplitCons('\n', b);
      assert a + "\n" + b == ['\n'] + b;
    } else {
      var c, rest := a[0], a[1..];
      SplitNewline(rest, b);
      SplitCons(c, rest + "\n" + b);
      SplitCons(c, rest);
      AddToFirstConcat(c, Split(rest), Split(b));
      assert a + "\n" + b == [c] + (rest + "\n" + b) && a == [c] + rest;
    }
  }

  /** Lines without newlines survive a join and a split. */
  lemma {:induction false} SplitJoin(ls: seq<string>)
    requires ls != [] && forall i :: 0 <= i < |ls| ==> OneLine(ls[i])
    ensures Split(Join(ls)) == ls
  {
    SplitOneLine(ls[0]);
    if |ls| > 1 {
      SplitJoin(ls[1..]);
      SplitNewline(ls[0], Join(ls[1..]));
      assert ls == [ls[0]] + ls[1..];
    }
  }

  lemma {:induction false} JoinConcat(a: seq<string>, b: seq<string>)
    requires a != [] && b != []
    ensures Join(a + b) == Join(a) + "\n" + Join(b)
  {
    if |a| == 1 {
      assert (a + b)[1..] == b;
    } else {
      JoinConcat(a[1..], b);
      assert (a + b)[1..] == a[1..] + b;
      assert a[0] + "\n" + (Join(a[1..]) + "\n" + Join(b)) == (a[0] + "\n" + Join(a[1..])) + "\n" + Join(b);
    }
  }
}
