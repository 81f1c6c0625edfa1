/** Which texts are accepted as roots of a manifest, told by their characters. */
module ArchiveRoots {
  import opened Texts
  import opened ArchiveManifests

  lemma {:induction false} SegmentsSplit(a: string, b: string)
    requires '/' !in a
    ensures Segments(a) == [a] && Segments(a + "/" + b) == [a] + Segments(b)
  {
    if a == "" {
      assert a + "/" + b == "/" + b && ("/" + b)[1..] == b;
    } else {
      var s := a + "/" + b;
      assert a[0] in a && s[0] == a[0] && s[1..] == a[1..] + "/" + b;
      SegmentsSplit(a[1..], b);
      assert [a[0]] + a[1..] == a;
    }
  }

  lemma FirstSlash(s: string) returns (a: string, b: string)
    requires '/' in s
    ensures '/' !in a && s == a + "/" + b
  {
    var i := 0;
    while s[i] != '/'
      invariant i < |s| && '/' !in s[..i]
      invariant exists k :: i <= k < |s| && s[k] == '/'
      decreases |s| - i
    {
      i := i + 1;
    }
    a, b := s[..i], s[i + 1..];
  }

  lemma InnerIsNoSlash(a: string, rest: string)
    requires '/' !in a
    ensures var t := "/" + a + "/" + rest;
            && t[0] == '/' && t[|a| + 1] == '/' && (forall i :: 0 < i <= |a| ==> t[i] == a[i - 1] && t[i] != '/')
  {
    assert forall i :: 0 <= i < |a| ==> a[i] in a;
  }

  lemma OccursCharwise(s: string, p: string, i: nat)
    ensures OccursAt(s, p, i) <==> i + |p| <= |s| && forall k :: 0 <= k < |p| ==> s[i + k] == p[k]
  {
    if i + |p| <= |s| {
      var w := s[i..i + |p|];
      assert forall k :: 0 <= k < |p| ==> w[k] == s[i + k];
    }
  }

  /** In front of the second slash of a text, only what stands between its first two slashes does so. */
  lemma BetweenSlashes(a: string, d: string, rest: string, i: nat)
    requires '/' !in a && '/' !in d
    ensures i <= |a| ==> (OccursAt("/" + a + "/" + rest, "/" + d + "/", i) <==> i == 0 && a == d)
  {
    var t, p := "/" + a + "/" + rest, "/" + d + "/";
    InnerIsNoSlash(a, rest);
    InnerIsNoSlash(d, "");
    assert p == "/" + d + "/" + "";
    OccursCharwise(t, p, i);
    if i == 0 && OccursAt(t, p, 0) {
      SameBetween(a, d, rest);
    }
    if a == d {
      assert t[0..|p|] == p;
    }
  }

  lemma SameBetween(a: string, d: string, rest: string)
    requires '/' !in a && '/' !in d && OccursAt("/" + a + "/" + rest, "/" + d + "/", 0)
    ensures a == d
  {
    var t, p := "/" + a + "/" + rest, "/" + d + "/";
    InnerIsNoSlash(a, rest);
    InnerIsNoSlash(d, "");
    assert p == "/" + d + "/" + "";
    OccursCharwise(t, p, 0);
    assert forall k :: 0 <= k < |p| ==> t[k] == p[k] by {
      assert forall k :: 0 <= k < |p| ==> t[0 + k] == p[k];
    }
    assert t[|d| + 1] == '/';
    assert |d| >= |a|;
    assert |d| == |a|;
    assert forall k :: 0 <= k < |a| ==> a[k] == t[k + 1] && d[k] == p[k + 1];
  }

  lemma OccursFirstOrLater(a: string, b: string, d: string)
    requires '/' !in a && '/' !in d
    ensures Occurs("/" + (a + "/" + b) + "/", "/" + d + "/") <==> a == d || Occurs("/" + b + "/", "/" + d + "/")
  {
    var t, u, p := "/" + (a + "/" + b) + "/", "/" + b + "/", "/" + d + "/";
    assert t == ("/" + a) + u && t == "/" + a + "/" + (b + "/");
    BetweenSlashes(a, d, b + "/", 0);
    forall i: nat | OccursAt(t, p, i)
      ensures a == d || Occurs(u, p)
    {
      BetweenSlashes(a, d, b + "/", i);
      if i > |a| {
        OccursInRight("/" + a, u, p, i);
      }
    }
    forall i: nat | OccursAt(u, p, i)
      ensures Occurs(t, p)
    {
      OccursInRight("/" + a, u, p, |a| + 1 + i);
    }
  }

  lemma OccursAlone(a: string, d: string)
    requires '/' !in a && '/' !in d
    ensures Occurs("/" + a + "/", "/" + d + "/") <==> a == d
  {
    var t, p := "/" + a + "/", "/" + d + "/";
    assert t == "/" + a + "/" + "";
    BetweenSlashes(a, d, "", 0);
    forall i: nat | OccursAt(t, p, i)
      ensures a == d
    {
      BetweenSlashes(a, d, "", i);
    }
  }

  /** A text without slashes is a segment exactly if it stands between two slashes. */
  lemma {:induction false} SegmentExactly(s: string, d: string)
    requires '/' !in d
    ensures d in Segments(s) <==> Occurs("/" + s + "/", "/" + d + "/")
    decreases |s|
  {
    hide Occurs;
    if '/' in s {
      var a, b := FirstSlash(s);
      SegmentsSplit(a, b);
      SegmentExactly(b, d);
      OccursFirstOrLater(a, b, d);
    } else {
      SegmentsSplit(s, "");
      OccursAlone(s, d);
    }
  }

  /** A path is clean exactly if it has no slash at either end and no two in a row, and no dot or two dots alone between
      slashes or ends. */
  lemma CleanExactly(path: string)
    ensures Clean(path) <==>
            !Occurs("/" + path + "/", "//") && !Occurs("/" + path + "/", "/./") && !Occurs("/" + path + "/", "/../")
  {
    hide Occurs, Segments;
    SegmentExactly(path, "");
    SegmentExactly(path, ".");
    SegmentExactly(path, "..");
    assert "/" + "" + "/" == "//" && "/" + "." + "/" == "/./" && "/" + ".." + "/" == "/../";
    var segments := Segments(path);
    assert forall d :: d in segments <==> exists i :: 0 <= i < |segments| && segments[i] == d;
  }

  /** The characters that `trim` removes: the white space and line terminators of the ECMAScript language. */
  predicate TrimmedAway(c: char) {
    c as int in {0x09, 0x0A, 0x0B, 0x0C, 0x0D, 0x20, 0xA0, 0x1680, 0x2000, 0x2001, 0x2002, 0x2003, 0x2004, 0x2005,
                 0x2006, 0x2007, 0x2008, 0x2009, 0x200A, 0x2028, 0x2029, 0x202F, 0x205F, 0x3000, 0xFEFF}
  }

  /** What a root must be. */
  lemma RootExactly(entry: string)
    ensures ValidRoot(entry) <==>
            && entry != "" && !TrimmedAway(entry[0]) && !TrimmedAway(entry[|entry| - 1])
            && '\\' !in entry && '\0' !in entry && entry[0] != '@'
            && !Occurs("/" + entry + "/", "//") && !Occurs("/" + entry + "/", "/./")
            && !Occurs("/" + entry + "/", "/../")
  {
    hide Occurs, Clean;
    CleanExactly(entry);
    if entry != "" && entry[0] == '/' {
      SlashFirst(entry);
    }
  }

  lemma SlashFirst(entry: string)
    requires entry != "" && entry[0] == '/'
    ensures Occurs("/" + entry + "/", "//")
  {
    assert ("/" + entry + "/")[0..2] == "//";
    assert OccursAt("/" + entry + "/", "//", 0);
  }
}
