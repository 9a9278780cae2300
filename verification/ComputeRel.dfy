/** Stripping the watch root off an absolute path. */
module ComputeRels {
  import opened Events

  /** `p` without trailing slashes, but never shorter than `n`. */
  function Trim(p: Path, n: nat): Path {
    if |p| > n && p[|p| - 1] == '/' then Trim(p[..|p| - 1], n) else p
  }

  /** The path of `rel` under `root`. */
  function Joined(root: Path, rel: Path): Path {
    if root == "/" then root + rel else root + "/" + rel
  }

  /** Strictly below `root`, starting on a component boundary. */
  predicate StrictlyBelow(root: Path, p: Path) {
    |p| > |root| && root <= p && (root == "/" || p[|root|] == '/')
  }

  function Skipped(root: Path): nat {
    if root == "/" then 1 else |root| + 1
  }

  function Relative(root: Path, recursive: bool, abs: Path): Option<Path> {
    var t := Trim(abs, |root|);
    if StrictlyBelow(root, t) && (recursive || '/' !in t[Skipped(root)..]) then Some(t[Skipped(root)..]) else None
  }

  lemma {:induction false} TrimEnds(p: Path, n: nat)
    ensures Trim(p, n) <= p
    ensures |Trim(p, n)| > n ==> Trim(p, n)[|Trim(p, n)| - 1] != '/'
    decreases p
  {
    if |p| > n && p[|p| - 1] == '/' {
      TrimEnds(p[..|p| - 1], n);
    }
  }

  function Slashes(k: nat): Path {
    seq(k, _ => '/')
  }

  lemma {:induction false} TrimDropsSlashes(p: Path, k: nat, n: nat)
    requires |p| >= n && (|p| > n ==> p[|p| - 1] != '/')
    ensures Trim(p + Slashes(k), n) == p
  {
    if k == 0 {
      assert p + Slashes(0) == p;
    } else {
      assert (p + Slashes(k))[..|p| + k - 1] == p + Slashes(k - 1);
      TrimDropsSlashes(p, k - 1, n);
    }
  }

  lemma JoinedSplits(root: Path, rel: Path)
    requires rel != []
    ensures StrictlyBelow(root, Joined(root, rel)) && Joined(root, rel)[Skipped(root)..] == rel
  {
  }

  lemma BelowJoins(root: Path, p: Path)
    requires StrictlyBelow(root, p)
    ensures Joined(root, p[Skipped(root)..]) == p
  {
    if root != "/" {
      assert p == p[..|root|] + [p[|root|]] + p[|root| + 1..];
    }
  }

  /** What is answered is exactly the path whose join is the trimmed input: nonempty,
      without a trailing slash, and one component when not recursive. For every root. */
  lemma AnswersTheUnjoined(root: Path, recursive: bool, abs: Path, rel: Path)
    ensures Relative(root, recursive, abs) == Some(rel) <==>
      rel != [] && (recursive || '/' !in rel) && Joined(root, rel) == Trim(abs, |root|)
    ensures Relative(root, recursive, abs) == Some(rel) ==> rel[|rel| - 1] != '/'
  {
    var t := Trim(abs, |root|);
    TrimEnds(abs, |root|);
    if StrictlyBelow(root, t) {
      BelowJoins(root, t);
    }
    if rel != [] {
      JoinedSplits(root, rel);
    }
  }

  /** Joining and appending slashes is undone. */
  lemma InvertsJoining(root: Path, recursive: bool, rel: Path, slashes: nat)
    requires rel != [] && rel[|rel| - 1] != '/'
    ensures Relative(root, recursive, Joined(root, rel) + Slashes(slashes)) ==
      if recursive || '/' !in rel then Some(rel) else None
  {
    TrimDropsSlashes(Joined(root, rel), slashes, |root|);
    JoinedSplits(root, rel);
  }

  /** A sibling whose name merely begins like the root's is not below it. */
  lemma SiblingIsRejected(root: Path, recursive: bool, rest: Path)
    requires root != "/" && rest != [] && rest[0] != '/' && rest[|rest| - 1] != '/'
    ensures Relative(root, recursive, root + rest) == None
  {
    TrimDropsSlashes(root + rest, 0, |root|);
    assert (root + rest) + Slashes(0) == root + rest;
    assert (root + rest)[|root|] == rest[0];
  }

  /** In plain concatenations: below the file system's root nothing stands between it and the
      name, below any other root one slash does. */
  lemma PlainPaths(root: Path, recursive: bool, rel: Path)
    requires rel != [] && rel[|rel| - 1] != '/'
    ensures Relative("/", recursive, "/" + rel) == if recursive || '/' !in rel then Some(rel) else None
    ensures root != "/" ==>
      Relative(root, recursive, root + "/" + rel) == if recursive || '/' !in rel then Some(rel) else None
  {
    InvertsJoining("/", recursive, rel, 0);
    InvertsJoining(root, recursive, rel, 0);
    assert "/" + rel + Slashes(0) == "/" + rel;
    assert Joined(root, rel) + Slashes(0) == Joined(root, rel);
  }

  /** Accepts exactly when the trimmed path is the root joined with something - with a
      single component when not recursive - and then answers that. */
  method ComputeRel(root: Path, recursive: bool, abs: Path) returns (r: Option<Path>)
    ensures r == Relative(root, recursive, abs)
    ensures r.Some? ==>
      && Joined(root, r.value) == Trim(abs, |root|) && r.value != [] && r.value[|r.value| - 1] != '/'
      && (recursive || '/' !in r.value)
    ensures r.None? ==>
      forall rel :: rel != [] && (recursive || '/' !in rel) ==> Joined(root, rel) != Trim(abs, |root|)
  {
    forall rel
      ensures Relative(root, recursive, abs) == Some(rel) <==>
        rel != [] && (recursive || '/' !in rel) && Joined(root, rel) == Trim(abs, |root|)
      ensures Relative(root, recursive, abs) == Some(rel) ==> rel[|rel| - 1] != '/'
    {
      AnswersTheUnjoined(root, recursive, abs, rel);
    }
    r := Strip(root, recursive, abs);
  }

  /** The two loops of compute_rel. */
  method Strip(root: Path, recursive: bool, abs: Path) returns (r: Option<Path>)
    ensures r == Relative(root, recursive, abs)
  {
    var len := |abs|;
    assert abs[..len] == abs;
    while len > |root| && abs[len - 1] == '/'
      invariant 0 <= len <= |abs|
      invariant Trim(abs[..len], |root|) == Trim(abs, |root|)
    {
      assert abs[..len][..len - 1] == abs[..len - 1];
      len := len - 1;
    }
    assert Trim(abs, |root|) == abs[..len];
    assert StrictlyBelow(root, abs[..len]) ==> abs[..len][..|root|] == abs[..|root|];
    if len < |root| { return None; }
    if abs[..|root|] != root { return None; }
    if len == |root| { return None; }
    var start := 1;
    if root != "/" {
      if abs[|root|] != '/' { return None; }
      start := |root| + 1;
    }
    var rel := abs[start..len];
    assert rel == abs[..len][start..];
    if !recursive {
      var k := 0;
      while k < |rel|
        invariant 0 <= k <= |rel|
        invariant '/' !in rel[..k]
      {
        if rel[k] == '/' { return None; }
        k := k + 1;
      }
      assert rel[..k] == rel;
    }
    return Some(rel);
  }
}
