/** Relative paths: component lists, and the strings the C code keeps. */
module RelPaths {

  /** A directory entry's name: not empty, no separator, no NUL. */
  type Name = s: string | s != "" && '/' !in s && '\0' !in s witness "a"

  /** A directory of the watched tree, by its components below the root. */
  type Dir = seq<Name>

  function Render(d: Dir): string {
    if d == [] then ""
    else if |d| == 1 then d[0]
    else d[0] + "/" + Render(d[1..])
  }

  /** path_join and store_event_path_joined: no separator after an empty parent. */
  function Join(parent: string, name: string): string {
    if parent == "" then name else parent + "/" + name
  }

  /** The string test for "this path is `rel` or lies below it". */
  predicate AtOrBelow(path: string, rel: string) {
    path == rel || (|rel| < |path| && path[..|rel|] == rel && path[|rel|] == '/')
  }

  lemma RenderNonEmpty(d: Dir)
    requires d != []
    ensures Render(d) != ""
  {
  }

  /** Joining strings is appending a component. */
  lemma {:induction false} JoinAppends(d: Dir, name: Name)
    ensures Render(d + [name]) == Join(Render(d), name)
  {
    if |d| > 1 {
      JoinAppends(d[1..], name);
      RenderNonEmpty(d[1..]);
      assert (d + [name])[1..] == d[1..] + [name];
    } else if |d| == 1 {
      assert (d + [name])[1..] == [name];
    }
  }

  function Tail(d: Dir): string
    requires d != []
  {
    if |d| == 1 then "" else "/" + Render(d[1..])
  }

  lemma RenderSplit(d: Dir)
    requires d != []
    ensures Render(d) == d[0] + Tail(d)
  {
    if |d| > 1 {
      assert d[0] + "/" + Render(d[1..]) == d[0] + ("/" + Render(d[1..]));
    }
  }

  lemma {:induction false} BelowIsPrefix(d: Dir, e: Dir)
    requires e != [] && e <= d
    ensures AtOrBelow(Render(d), Render(e))
  {
    RenderSplit(d);
    RenderSplit(e);
    if |e| == 1 {
      if |d| > 1 {
        assert Render(d)[..|e[0]|] == e[0];
      }
    } else {
      assert e[1..] <= d[1..];
      BelowIsPrefix(d[1..], e[1..]);
      var h := d[0] + "/";
      assert Render(d) == h + Render(d[1..]) && Render(e) == h + Render(e[1..]);
      PrefixBelow(h, Render(d[1..]), Render(e[1..]));
    }
  }

  lemma PrefixBelow(h: string, path: string, rel: string)
    ensures AtOrBelow(h + path, h + rel) <==> AtOrBelow(path, rel)
  {
    assert h + path == h + rel <==> path == rel by {
      assert (h + path)[|h|..] == path && (h + rel)[|h|..] == rel;
    }
    if |rel| < |path| {
      assert (h + path)[..|h + rel|] == h + path[..|rel|];
      assert (h + path[..|rel|])[|h|..] == path[..|rel|] && (h + rel)[|h|..] == rel;
      assert (h + path)[|h + rel|] == path[|rel|];
    }
  }

  predicate StartsSep(x: string) {
    x == "" || x[0] == '/'
  }

  lemma HeadsAgree(a: Name, x: string, b: Name, y: string)
    requires StartsSep(x) && StartsSep(y) && AtOrBelow(a + x, b + y)
    ensures a == b && |y| <= |x|
  {
    var s, r := a + x, b + y;
    assert forall i :: 0 <= i < |a| ==> s[i] == a[i] && a[i] in a;
    assert forall i :: 0 <= i < |b| ==> r[i] == b[i] && b[i] in b;
    assert |a| < |s| ==> s[|a|] == '/';
    assert |b| < |r| ==> r[|b|] == '/';
    assert s[..|r|] == r;
    assert forall i :: 0 <= i < |r| ==> s[i] == r[i];
    assert |a| == |b|;
    assert s[..|a|] == a && r[..|b|] == b;
    assert s[..|r|][..|b|] == s[..|b|];
  }

  lemma BelowSameHead(d: Dir, e: Dir)
    requires e != [] && AtOrBelow(Render(d), Render(e))
    ensures d != [] && d[0] == e[0] && (|e| > 1 ==> |d| > 1)
  {
    RenderNonEmpty(e);
    RenderSplit(d);
    RenderSplit(e);
    HeadsAgree(d[0], Tail(d), e[0], Tail(e));
  }

  lemma {:induction false} PrefixIsBelow(d: Dir, e: Dir)
    requires e != [] && AtOrBelow(Render(d), Render(e))
    ensures e <= d
  {
    BelowSameHead(d, e);
    if |e| > 1 {
      var h := d[0] + "/";
      PrefixBelow(h, Render(d[1..]), Render(e[1..]));
      PrefixIsBelow(d[1..], e[1..]);
      HeadTail(d, e);
    }
  }

  lemma HeadTail(d: Dir, e: Dir)
    requires d != [] && e != [] && d[0] == e[0] && e[1..] <= d[1..]
    ensures e <= d
  {
    assert d == [d[0]] + d[1..] && e == [e[0]] + e[1..];
  }

  /** The string test is the component-prefix test. */
  lemma BelowMeansPrefix(d: Dir, e: Dir)
    requires e != []
    ensures AtOrBelow(Render(d), Render(e)) <==> e <= d
  {
    if e <= d {
      BelowIsPrefix(d, e);
    } else if AtOrBelow(Render(d), Render(e)) {
      PrefixIsBelow(d, e);
    }
  }

  /** Distinct directories have distinct strings. */
  lemma RenderInjective(d: Dir, e: Dir)
    requires Render(d) == Render(e)
    ensures d == e
  {
    if d == [] || e == [] {
      if d != [] {
        RenderNonEmpty(d);
      }
      if e != [] {
        RenderNonEmpty(e);
      }
    } else {
      PrefixIsBelow(d, e);
      PrefixIsBelow(e, d);
    }
  }
}
