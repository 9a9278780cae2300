/** A path that is out of date by the time it is reported: a directory is renamed, a file is
    made in it, and only then does the watcher read. */
module StalePaths {
  import opened Events
  import opened RelPaths
  import opened Inotify
  import opened WalkSpec
  import opened FileOps
  import opened TreeAgreement
  import opened TreeRuns
  import opened Operations
  import opened TwoUnread

  const A: Dir := ["a"]
  const B: Dir := ["b"]

  const START := State(map[[] := 0, A := 1], map[0 := 1, 1 := 2], 3, [], map[1 := [], 2 := A])

  const RENAME := Rename(A, B, 5)
  const CREATE_FILE := FileChange(B, Create, "f", 0)

  const STALE := RawEvent(CREATED, "a/f", 0)

  lemma StartAgrees()
    ensures Agreement(START)
  {
    assert forall c: Dir, k :: c in START.tree && 0 <= k <= |c| ==> c[..k] == [] || c[..k] == A;
    assert START.tree[[]] == 0 && START.tree[A] == 1 && START.tree.Values == {0, 1};
    assert START.watches[0] == 1 && START.watches[1] == 2 && START.watches.Values == {1, 2};
    assert START.watches.Keys == {0, 1} && START.table.Keys == {1, 2};
  }

  lemma BothEnabled()
    ensures Enabled(START, RENAME) && Enabled(Apply(START, RENAME), CREATE_FILE)
  {
    StartAgrees();
    assert A[0][0] != B[0][0];
    assert Parent(B) == [] && !(A <= B);
    assert Below(START.tree, B) == {};
    ApplyIsOutcome(START, RENAME);
    RenameShape(START.tree, A, B);
  }

  lemma FormerPath()
    ensures AllHeardLate(RENAME, Messages(CREATE_FILE)) == [STALE]
  {
    var m := Message(B, Create, false, "f", 0);
    assert Origin(RENAME, B) == A;
    JoinAppends(A, "f");
    assert Join("a", "f") == "a" + "/" + "f" == "a/f";
    assert HeardLate(RENAME, m) == [STALE];
    assert [m][1..] == [];
    assert AllHeardLate(RENAME, [m]) == [STALE] + [];
  }

  lemma StaleIsNotReported()
    ensures STALE !in Reported(RENAME) && STALE !in Reported(CREATE_FILE)
  {
    JoinAppends(B, "f");
    assert Render(B + ["f"]) == "b" + "/" + "f";
    assert STALE.path[0] == 'a' && Render(B + ["f"])[0] == 'b';
    assert Reported(CREATE_FILE)[0].path != STALE.path;
  }

  /** The file is announced under the directory's former path, on every run that drains - and
      there is one. */
  lemma StalePathEscapes()
    ensures Agreement(START) && Enabled(START, RENAME) && Enabled(Apply(START, RENAME), CREATE_FILE)
    ensures exists cs :: ValidRun(Apply(Apply(START, RENAME), CREATE_FILE), cs) &&
              STALE in DrainQueue(Apply(Apply(START, RENAME), CREATE_FILE), cs).1
    ensures STALE !in Reported(RENAME) && STALE !in Reported(CREATE_FILE)
  {
    StartAgrees();
    BothEnabled();
    var f := Apply(START, RENAME);
    var g := Apply(f, CREATE_FILE);
    var cs := SomeRunDrains(START, RENAME, f, CREATE_FILE, g);
    FormerPath();
    StaleIsNotReported();
    assert STALE in Reported(RENAME) + [STALE];
  }
}
