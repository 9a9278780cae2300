/** Three operations with nothing read in between, after which table and tree disagree for
    good: a directory is renamed, another made in its place, and a child moved back. */
module ThreeUnread {
  import opened Events
  import opened RelPaths
  import opened Inotify
  import opened WalkSpec
  import opened FileOps
  import opened TreeAgreement
  import opened TreeRuns
  import opened Operations
  import opened UserActions

  const A: Dir := ["a"]
  const B: Dir := ["b"]
  const AA: Dir := ["a", "a"]
  const BA: Dir := ["b", "a"]

  const START := State(map[[] := 0, A := 1, AA := 2], map[0 := 1, 1 := 2, 2 := 3], 4, [], map[1 := [], 2 := A, 3 := AA])

  const FIRST := Rename(A, B, 5)
  const SECOND := Mkdir(A, 3)
  const THIRD := Rename(BA, AA, 6)

  const FROM := Named(1, MovedFrom, true, "a", 5)
  const TO := Named(1, MovedTo, true, "b", 5)
  const MADE := Named(1, Create, true, "a", 0)
  const STALE := Named(2, MovedFrom, true, "a", 6)

  const AFTER_FIRST := START.(tree := map[[] := 0, B := 1, BA := 2], queue := [FROM, TO, Self(2)])
  const AFTER_SECOND := AFTER_FIRST.(tree := map[[] := 0, B := 1, BA := 2, A := 3], queue := [FROM, TO, Self(2), MADE])
  const UNREAD := AFTER_SECOND.(
    tree := map[[] := 0, B := 1, A := 3, AA := 2],
    queue := [FROM, TO, Self(2), MADE, STALE, Self(3)])

  lemma Names()
    ensures A != B && AA != BA && Parent(A) == [] && Parent(B) == [] && Parent(AA) == A && Parent(BA) == B
    ensures Last(A) == "a" && Last(B) == "b" && Last(AA) == "a" && Last(BA) == "a"
    ensures !(A <= B) && !(B <= A) && !(A <= BA) && !(B <= AA) && A <= AA && B <= BA && !(BA <= AA) && !(AA <= BA)
  {
    assert A[0][0] != B[0][0];
    assert AA[0] == A[0] && BA[0] == B[0] && A[0] != B[0];
  }

  lemma StartAgrees()
    ensures Agreement(START)
  {
    Names();
    assert forall c: Dir, k :: c in START.tree && 0 <= k <= |c| ==> c[..k] == [] || c[..k] == A || c[..k] == AA;
    assert START.tree[[]] == 0 && START.tree[A] == 1 && START.tree[AA] == 2 && START.tree.Values == {0, 1, 2};
    assert START.watches[0] == 1 && START.watches[1] == 2 && START.watches[2] == 3 && START.watches.Values == {1, 2, 3};
    assert START.watches.Keys == {0, 1, 2} && START.table.Keys == {1, 2, 3};
  }

  /** `t` has what is not at `d` or `e`, and at `e` what was at `d`. */
  lemma RenameTreeIs(tree: map<Dir, Ino>, d: Dir, e: Dir, t: map<Dir, Ino>)
    requires forall c :: c in t <==> (c in tree && !(d <= c) && !(e <= c)) || (e <= c && d + c[|e|..] in tree)
    requires forall c :: c in t ==> t[c] == if e <= c then tree[d + c[|e|..]] else tree[c]
    ensures RenameTree(tree, d, e) == t
  {
    var p, sub := Prune(Prune(tree, d), e), Sub(tree, d);
    SubShape(tree, d);
    GraftShape(p, e, sub);
  }

  lemma FirstTree()
    ensures RenameTree(START.tree, A, B) == AFTER_FIRST.tree
  {
    Names();
    assert A + B[1..] == A && A + BA[1..] == AA;
    forall c: Dir | B <= c && A + c[1..] in START.tree
      ensures c in AFTER_FIRST.tree
    {
      assert c == B + c[1..] && (A + c[1..])[1..] == c[1..];
      assert c == B || c == BA;
    }
    RenameTreeIs(START.tree, A, B, AFTER_FIRST.tree);
  }

  lemma ThirdTree()
    ensures RenameTree(AFTER_SECOND.tree, BA, AA) == UNREAD.tree
  {
    Names();
    assert BA + AA[2..] == BA;
    forall c: Dir | AA <= c && BA + c[2..] in AFTER_SECOND.tree
      ensures c == AA
    {
      assert c == AA + c[2..] && (BA + c[2..])[..2] == BA;
      assert BA + c[2..] == BA;
    }
    RenameTreeIs(AFTER_SECOND.tree, BA, AA, UNREAD.tree);
  }

  /** A directory is hung in. */
  lemma NewDirAt(tree: map<Dir, Ino>, d: Dir, ino: Ino)
    requires forall c :: c in tree ==> !(d <= c)
    ensures Graft(tree, d, NewDir(ino)) == tree[d := ino]
  {
    GraftShape(tree, d, NewDir(ino));
    assert d[|d|..] == [];
    forall c: Dir | d <= c && c[|d|..] in NewDir(ino)
      ensures c == d
    {
      assert c == d + c[|d|..];
    }
  }

  lemma SecondTree()
    ensures Graft(AFTER_FIRST.tree, A, NewDir(3)) == AFTER_SECOND.tree
  {
    Names();
    NewDirAt(AFTER_FIRST.tree, A, 3);
  }

  lemma NoneBelow(tree: map<Dir, Ino>, e: Dir)
    requires forall c :: c in tree && e <= c ==> c == e
    ensures Leaf(tree, e)
  {
  }

  lemma FirstEnabled()
    ensures Enabled(START, FIRST)
  {
    Names();
    NoneBelow(START.tree, B);
  }

  lemma TellsFrom(s: State)
    requires s.tree == AFTER_FIRST.tree && s.watches == START.watches && s.queue == []
    ensures NotifySelf(Notify(Notify(s, [], MovedFrom, true, "a", 5), [], MovedTo, true, "b", 5), 1)
      == s.(queue := [FROM, TO, Self(2)])
  {
    assert s.tree[[]] == 0 && s.watches[0] == 1 && s.watches[1] == 2;
    assert Notify(s, [], MovedFrom, true, "a", 5) == s.(queue := [FROM]);
    assert Notify(s.(queue := [FROM]), [], MovedTo, true, "b", 5) == s.(queue := [FROM, TO]);
  }

  lemma FirstDone()
    ensures Enabled(START, FIRST) && Apply(START, FIRST) == AFTER_FIRST
  {
    FirstEnabled();
    FirstTree();
    RenameUnfolds(START, A, B, 5);
    Names();
    TellsFrom(START.(tree := AFTER_FIRST.tree));
  }

  lemma SecondEnabled()
    ensures Enabled(AFTER_FIRST, SECOND)
  {
    Names();
    NoneBelow(AFTER_FIRST.tree, A);
    assert forall c :: c in AFTER_FIRST.tree ==> AFTER_FIRST.tree[c] != 3;
  }

  lemma TellsMade(s: State)
    requires s.tree == AFTER_SECOND.tree && s.watches == START.watches && s.queue == AFTER_FIRST.queue
    ensures Notify(s, [], Create, true, "a", 0) == s.(queue := AFTER_SECOND.queue)
  {
    assert s.tree[[]] == 0 && s.watches[0] == 1;
    assert AFTER_FIRST.queue + [MADE] == AFTER_SECOND.queue;
  }

  lemma SecondDone()
    ensures Enabled(AFTER_FIRST, SECOND) && Apply(AFTER_FIRST, SECOND) == AFTER_SECOND
  {
    SecondEnabled();
    SecondTree();
    Names();
    TellsMade(AFTER_FIRST.(tree := AFTER_SECOND.tree));
  }

  lemma ThirdEnabled()
    ensures Enabled(AFTER_SECOND, THIRD)
  {
    Names();
    NoneBelow(AFTER_SECOND.tree, AA);
  }

  /** The old watch of b speaks; the new a has none. */
  lemma TellsStale(s: State, told: State)
    requires s.tree == UNREAD.tree && s.watches == START.watches && s.queue == AFTER_SECOND.queue
    requires told == s.(queue := s.queue + [STALE])
    ensures Notify(s, B, MovedFrom, true, "a", 6) == told && Notify(told, A, MovedTo, true, "a", 6) == told
    ensures NotifySelf(told, 2) == s.(queue := UNREAD.queue)
  {
    Names();
    assert s.tree[B] == 1 && s.tree[A] == 3 && s.watches[1] == 2 && s.watches[2] == 3;
    assert told.queue + [Self(3)] == UNREAD.queue;
  }

  lemma ReplacesNothing(st: State, d: Dir, e: Dir, cookie: Id, t: map<Dir, Ino>)
    requires Enabled(st, Rename(d, e, cookie)) && e !in st.tree && t == RenameTree(st.tree, d, e)
    ensures Apply(st, Rename(d, e, cookie)) ==
      NotifySelf(
        Notify(Notify(st.(tree := t), Parent(d), MovedFrom, true, Last(d), cookie),
               Parent(e), MovedTo, true, Last(e), cookie),
        st.tree[d])
  {
    RenameUnfolds(st, d, e, cookie);
  }

  lemma ThirdUnfolds()
    requires Enabled(AFTER_SECOND, THIRD)
    ensures Apply(AFTER_SECOND, THIRD) ==
      NotifySelf(
        Notify(Notify(AFTER_SECOND.(tree := UNREAD.tree), B, MovedFrom, true, "a", 6), A, MovedTo, true, "a", 6), 2)
  {
    Names();
    ThirdTree();
    ThirdPlaces();
    ReplacesNothing(AFTER_SECOND, BA, AA, 6, UNREAD.tree);
  }

  lemma ThirdPlaces()
    ensures AA !in AFTER_SECOND.tree && BA in AFTER_SECOND.tree && AFTER_SECOND.tree[BA] == 2
  {
    Names();
  }

  lemma ThirdDone()
    ensures Enabled(AFTER_SECOND, THIRD) && Apply(AFTER_SECOND, THIRD) == UNREAD
  {
    var s := AFTER_SECOND.(tree := UNREAD.tree);
    ThirdEnabled();
    ThirdUnfolds();
    TellsStale(s, s.(queue := s.queue + [STALE]));
  }

  // ---- the run ---------------------------------------------------------------------------

  const WALK := Walk(true, (d: Dir) => true, (d: Dir) => true,
    (d: Dir) => if d == [] then ["a", "b"] else if d == A then ["a"] else [])

  const S1 := UNREAD.(watches := map[0 := 1], queue := [TO, Self(2), MADE, STALE, Self(3), Ignored(2), Ignored(3)])
  const S2 := S1.(
    watches := map[0 := 1, 1 := 4], nextWd := 5, table := S1.table[4 := B],
    queue := [Self(2), MADE, STALE, Self(3), Ignored(2), Ignored(3)])
  const S3 := S2.(queue := [MADE, STALE, Self(3), Ignored(2), Ignored(3)])
  const S4 := S3.(
    watches := map[0 := 1, 1 := 4, 3 := 5, 2 := 6], nextWd := 7, table := S3.table[5 := A][6 := AA],
    queue := [STALE, Self(3), Ignored(2), Ignored(3)])
  const S5 := S4.(watches := map[0 := 1, 1 := 4, 3 := 5], queue := [Self(3), Ignored(2), Ignored(3), Ignored(6)])
  const S6 := S5.(queue := [Ignored(2), Ignored(3), Ignored(6)])
  const S7 := S6.(table := S6.table - {2}, queue := [Ignored(3), Ignored(6)])
  const S8 := S7.(table := S7.table - {3}, queue := [Ignored(6)])
  const S9 := S8.(table := S8.table - {6}, queue := [])

  lemma Listed(st: State)
    requires st.tree == UNREAD.tree
    ensures Lists(WALK, st.tree) && Smooth(WALK)
  {
    Names();
    forall d: Dir, n: Name | d in st.tree
      ensures n in WALK.ls(d) <==> d + [n] in st.tree
    {
      assert d + [n] == A <==> d == [] && n == "a";
      assert d + [n] == B <==> d == [] && n == "b";
      assert d + [n] == AA <==> d == A && n == "a";
    }
  }

  lemma SweepTwo(s: State, x: Wd, y: Wd)
    ensures RmAll(s, [x, y]) == RmWatch(RmWatch(s, x), y)
  {
    assert [x, y][..1] == [x] && [x][..0] == [];
    assert RmAll(s, [x]) == RmWatch(RmAll(s, []), x);
  }

  lemma RmOne(s: State, i: Ino)
    requires i in s.watches && forall j :: j in s.watches && s.watches[j] == s.watches[i] ==> j == i
    ensures RmWatch(s, s.watches[i]) == s.(watches := s.watches - {i}, queue := s.queue + [Ignored(s.watches[i])])
  {
    assert (map j | j in s.watches && s.watches[j] != s.watches[i] :: s.watches[j]) == s.watches - {i};
  }

  lemma SweepsFormer(s: State)
    requires s == UNREAD.(queue := UNREAD.queue[1..])
    ensures RmAll(s, [2, 3]) == S1
  {
    OneLess();
    SweepTwo(s, 2, 3);
    RmOne(s, 1);
    RmOne(s.(watches := map[0 := 1, 2 := 3], queue := s.queue + [Ignored(2)]), 2);
  }

  lemma OrderFrom()
    ensures Possible(UNREAD, Choice(WALK, [2, 3])) && PathFor(UNREAD) == A
  {
    Listed(UNREAD);
    Names();
    assert [] + ["a"] == A;
    assert Stale(UNREAD.table, A) == {2, 3};
  }

  /** The path of the first record, by its descriptor's entry. */
  function PathFor(st: State): Dir {
    if st.queue != [] && st.queue[0].Named? && st.queue[0].wd in st.table
    then st.table[st.queue[0].wd] + [st.queue[0].name] else []
  }

  /** The renamed subtree is dropped. */
  lemma ReadsFrom()
    ensures Possible(UNREAD, Choice(WALK, [2, 3])) && Consume(UNREAD, Choice(WALK, [2, 3])).0 == S1
  {
    OrderFrom();
    SweepsFormer(UNREAD.(queue := UNREAD.queue[1..]));
  }

  lemma WalksMoved(s: State)
    requires s == S1.(queue := S2.queue)
    ensures WatchSubtree(s, B, WALK) == S2
  {
    Names();
    assert s.tree[B] == 1;
    assert AddOne(s, B) == S2;
    assert WatchChildren(S2, B, WALK.ls(B), WALK) == S2;
  }

  /** What is now at b is watched again. */
  lemma ReadsTo()
    ensures Possible(S1, Choice(WALK, [])) && Consume(S1, Choice(WALK, [])).0 == S2
  {
    Listed(S1);
    WalksMoved(S1.(queue := S1.queue[1..]));
    assert [] + ["b"] == B;
  }

  const M4 := S3.(watches := map[0 := 1, 1 := 4, 3 := 5], nextWd := 6, table := S3.table[5 := A], queue := S4.queue)

  lemma WalksChild()
    ensures WatchSubtree(M4, AA, WALK) == S4
  {
    Names();
    assert M4.tree[AA] == 2;
    assert AddOne(M4, AA) == S4;
    assert WatchChildren(S4, AA, WALK.ls(AA), WALK) == S4;
  }

  lemma WalksMade(s: State)
    requires s == S3.(queue := S4.queue)
    ensures WatchSubtree(s, A, WALK) == S4
  {
    Names();
    assert s.tree[A] == 3;
    assert AddOne(s, A) == M4;
    assert A + ["a"] == AA && ["a"][..0] == [] && WALK.ls(A) == ["a"];
    assert WatchChildren(M4, A, [], WALK) == M4;
    WalksChild();
    assert WatchChildren(M4, A, ["a"], WALK) == S4;
  }

  /** So are the new a, and what is in it: all agrees here. */
  lemma ReadsMade()
    ensures Possible(S3, Choice(WALK, [])) && Consume(S3, Choice(WALK, [])).0 == S4
  {
    Listed(S3);
    WalksMade(S3.(queue := S3.queue[1..]));
    assert [] + ["a"] == A;
  }

  lemma RmDead(s: State, wd: Wd)
    requires forall i :: i in s.watches ==> s.watches[i] != wd
    ensures RmWatch(s, wd) == s
  {
  }

  lemma DropsLive(s: State)
    requires s == S4.(queue := S4.queue[1..])
    ensures RmWatch(s, 6) == S5
  {
    assert s.watches[2] == 6;
    RmOne(s, 2);
    OneLess();
  }

  lemma SweepsChild(s: State)
    requires s == S4.(queue := S4.queue[1..])
    ensures RmAll(s, [3, 6]) == S5
  {
    SweepTwo(s, 3, 6);
    RmDead(s, 3);
    DropsLive(s);
  }

  lemma OneLess()
    ensures map[0 := 1, 1 := 4, 3 := 5, 2 := 6] - {2} == map[0 := 1, 1 := 4, 3 := 5]
    ensures map[0 := 1, 1 := 2, 2 := 3] - {1} == map[0 := 1, 2 := 3]
    ensures map[0 := 1, 2 := 3] - {2} == map[0 := 1]
  {
  }

  lemma OrderStale()
    ensures Possible(S4, Choice(WALK, [3, 6])) && PathFor(S4) == AA
  {
    Listed(S4);
    Names();
    assert A + ["a"] == AA;
    assert Stale(S4.table, AA) == {3, 6};
  }

  /** The stale record: b's dead watch still reads as a, so the directory that has just
      arrived at a/a is dropped. */
  lemma ReadsStale()
    ensures Possible(S4, Choice(WALK, [3, 6])) && Consume(S4, Choice(WALK, [3, 6])).0 == S5
  {
    OrderStale();
    SweepsChild(S4.(queue := S4.queue[1..]));
  }

  lemma ReadsNameless(st: State, t: State)
    requires st.tree == UNREAD.tree && st.queue != [] && !st.queue[0].Named? && t.queue == st.queue[1..]
    requires t == st.(queue := t.queue, table := if st.queue[0].Ignored? then st.table - {st.queue[0].wd} else st.table)
    ensures Possible(st, Choice(WALK, [])) && Consume(st, Choice(WALK, [])).0 == t
  {
    Listed(st);
  }

  /** One record more in front of a run. */
  lemma Reads(st: State, c: Choice, t: State, cs: seq<Choice>) returns (more: seq<Choice>)
    requires st.queue != [] && Possible(st, c) && Smooth(c.walk) && Consume(st, c).0 == t
    requires ValidRun(t, cs) && DrainQueue(t, cs).0 == S9
    ensures ValidRun(st, more) && DrainQueue(st, more).0 == S9
  {
    more := [c] + cs;
    assert more[1..] == cs;
  }

  lemma TheRun() returns (cs: seq<Choice>)
    ensures ValidRun(UNREAD, cs) && DrainQueue(UNREAD, cs).0 == S9
  {
    var plain := Choice(WALK, []);
    cs := [];
    assert Smooth(WALK) by { Listed(UNREAD); }
    ReadsNameless(S8, S9);
    cs := Reads(S8, plain, S9, cs);
    ReadsNameless(S7, S8);
    cs := Reads(S7, plain, S8, cs);
    ReadsNameless(S6, S7);
    cs := Reads(S6, plain, S7, cs);
    ReadsNameless(S5, S6);
    cs := Reads(S5, plain, S6, cs);
    ReadsStale();
    cs := Reads(S4, Choice(WALK, [3, 6]), S5, cs);
    ReadsMade();
    cs := Reads(S3, plain, S4, cs);
    ReadsNameless(S2, S3);
    cs := Reads(S2, plain, S3, cs);
    ReadsTo();
    cs := Reads(S1, plain, S2, cs);
    ReadsFrom();
    cs := Reads(UNREAD, Choice(WALK, [2, 3]), S1, cs);
  }

  /** Everything is read, and a directory of the tree is neither watched nor in the table.
      No record is left that would change this. */
  lemma AgreementIsLost()
    ensures Agreement(START) && Enabled(START, FIRST) && Enabled(Apply(START, FIRST), SECOND)
    ensures Enabled(Apply(Apply(START, FIRST), SECOND), THIRD)
    ensures Apply(Apply(Apply(START, FIRST), SECOND), THIRD) == UNREAD
    ensures exists cs :: ValidRun(UNREAD, cs) && DrainQueue(UNREAD, cs).0 == S9
    ensures S9.queue == [] && AA in S9.tree && S9.tree[AA] !in S9.watches && AA !in S9.table.Values && !Agreement(S9)
  {
    StartAgrees();
    FirstDone();
    SecondDone();
    ThirdDone();
    var cs := TheRun();
    Names();
    assert S9.tree[AA] == 2;
    assert S9.tree[AA] in S9.tree.Values;
  }
}
