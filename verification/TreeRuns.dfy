/** Whole runs: operations, each fully drained before the next. */
module TreeRuns {
  import opened Events
  import opened RelPaths
  import opened Inotify
  import opened WalkSpec
  import opened FileOps
  import opened TreeAgreement

  // ---- draining ---------------------------------------------------------------

  function OptSeq(o: Option<RawEvent>): seq<RawEvent> {
    if o.Some? then [o.value] else []
  }

  /** next_event, once per choice, until the queue is empty: the last state and
      the events reported. */
  function DrainQueue(st: State, cs: seq<Choice>): (State, seq<RawEvent>)
    decreases |cs|
  {
    if cs == [] || st.queue == [] then (st, [])
    else
      var (t, o) := Consume(st, cs[0]);
      var (u, os) := DrainQueue(t, cs[1..]);
      (u, OptSeq(o) + os)
  }

  ghost predicate ValidRun(st: State, cs: seq<Choice>)
    decreases |cs|
  {
    cs == [] || st.queue == [] ||
    (Possible(st, cs[0]) && Smooth(cs[0].walk) && ValidRun(Consume(st, cs[0]).0, cs[1..]))
  }

  /** When the queue is empty everything agrees and `outs` was reported; it is
      empty after at most `n` records. */
  ghost predicate Settles(st: State, cs: seq<Choice>, outs: seq<RawEvent>, n: nat) {
    var (t, os) := DrainQueue(st, cs);
    && (t.queue == [] ==> Agreement(t) && os == outs)
    && (|cs| >= n ==> t.queue == [])
  }

  lemma SettlesStep(st: State, cs: seq<Choice>, outs: seq<RawEvent>, n: nat)
    requires st.queue != [] && cs != [] && Settles(Consume(st, cs[0]).0, cs[1..], outs, n)
    ensures Settles(st, cs, OptSeq(Consume(st, cs[0]).1) + outs, n + 1)
  {
  }

  lemma SettlesMono(st: State, cs: seq<Choice>, outs: seq<RawEvent>, n: nat, m: nat)
    requires Settles(st, cs, outs, n) && n <= m
    ensures Settles(st, cs, outs, m)
  {
  }

  predicate Quiet(q: seq<KEvent>) {
    forall ev :: ev in q ==> !ev.Named?
  }

  lemma SettlesLater(st: State, cs: seq<Choice>, outs: seq<RawEvent>, n: nat)
    requires st.queue != [] && cs == [] && n > 0
    ensures Settles(st, cs, outs, n)
  {
  }

  lemma {:induction false} TailSettles(st: State, cs: seq<Choice>)
    requires Synced(st) && Quiet(st.queue) && ValidRun(st, cs)
    ensures Settles(st, cs, [], |st.queue|)
    decreases |cs|
  {
    if st.queue == [] {
      SyncedAgrees(st);
    } else if cs == [] {
      SettlesLater(st, cs, [], |st.queue|);
    } else {
      assert st.queue[0] in st.queue && forall ev :: ev in st.queue[1..] ==> ev in st.queue;
      ConsumeNameless(st, cs[0]);
      TailSettles(Consume(st, cs[0]).0, cs[1..]);
      SettlesStep(st, cs, [], |st.queue| - 1);
    }
  }

  // ---- trees with a directory hung in, or moved -----------------------------------

  lemma GrownTree(tree: map<Dir, Ino>, e: Dir, sub: map<Dir, Ino>)
    requires IsTree(tree) && e != [] && Parent(e) in tree && IsTree(sub)
    requires NewInos(tree, sub)
    ensures IsTree(Graft(Prune(tree, e), e, sub))
  {
    PruneTree(tree, e);
    GraftTree(Prune(tree, e), e, sub);
  }

  /** Hanging `sub` at `e`, where at most `e` itself was, moves nothing else. */
  lemma ReplaceShape(tree: map<Dir, Ino>, e: Dir, sub: map<Dir, Ino>)
    requires Leaf(tree, e) && [] in sub
    ensures var t := Graft(Prune(tree, e), e, sub);
      && e in t
      && (forall c :: c in t && !(e <= c) ==> c in tree && t[c] == tree[c])
      && (forall c :: c in t && e <= c ==> c[|e|..] in sub && t[c] == sub[c[|e|..]])
      && (forall c :: c in tree && !(e <= c) ==> c in t && t[c] == tree[c])
    ensures forall c :: c in tree && e <= c ==> c == e
  {
    GraftShape(Prune(tree, e), e, sub);
    assert e[|e|..] == [];
    forall c | c in tree && e <= c
      ensures c == e
    {
      assert c in Below(tree, e) <==> e < c;
    }
  }

  lemma RenamedTree(tree: map<Dir, Ino>, d: Dir, e: Dir)
    requires IsTree(tree) && d != [] && d in tree && e != [] && Parent(e) in tree && !(d <= e) && Leaf(tree, e)
    ensures IsTree(Graft(Prune(Prune(tree, d), e), e, Sub(tree, d)))
    ensures Parent(e) in Prune(tree, d) && Leaf(Prune(tree, d), e)
  {
    var p := Prune(tree, d);
    PruneTree(tree, d);
    SubTree(tree, d);
    SubShape(tree, d);
    assert Parent(e) <= e;
    assert Below(p, e) <= Below(tree, e);
    forall x, c | x in Sub(tree, d) && c in p
      ensures p[c] != Sub(tree, d)[x]
    {
      assert d <= d + x;
      assert SameIno(tree, c, d + x) ==> c == d + x;
    }
    GrownTree(p, e, Sub(tree, d));
  }

  /** A rename moves what is below `d`, replaces at most `e`, and nothing else. */
  lemma RenameShape(tree: map<Dir, Ino>, d: Dir, e: Dir)
    requires IsTree(tree) && d != [] && d in tree && e != [] && Parent(e) in tree && !(d <= e) && Leaf(tree, e)
    ensures var t := Graft(Prune(Prune(tree, d), e), e, Sub(tree, d));
      && e in t
      && (forall c :: c in t && !(e <= c) ==> c in tree && !(d <= c) && t[c] == tree[c] && c != e)
      && (forall c :: c in tree && !(d <= c) && c != e ==> c in t && t[c] == tree[c] && !(e <= c))
  {
    RenamedTree(tree, d, e);
    SubTree(tree, d);
    var p := Prune(tree, d);
    ReplaceShape(p, e, Sub(tree, d));
    assert forall c :: c in tree && !(d <= c) ==> c in p;
  }

  /** A directory that has a child is not at or below an empty one. */
  lemma LeafAbove(tree: map<Dir, Ino>, d: Dir, e: Dir)
    requires IsTree(tree) && d != [] && d in tree && Leaf(tree, e) && !(d <= e)
    ensures !(e <= Parent(d)) && Parent(d) in tree && !(d <= Parent(d))
  {
    assert Parent(d) == d[..|d| - 1];
    assert d in Below(tree, e) <==> e < d;
  }

  // ---- descriptors that are gone ------------------------------------------------------

  /** Neither watched nor tabled, and given out before. */
  ghost predicate Gone(st: State, wd: Wd) {
    wd !in st.table && wd !in st.watches.Values && wd < st.nextWd
  }

  lemma WalkKeepsGone(s: State, d: Dir, w: Walk, wd: Wd)
    requires IsTree(s.tree) && WdsOk(s) && Lists(w, s.tree) && Gone(s, wd)
    ensures WdsOk(WatchSubtree(s, d, w)) && Gone(WatchSubtree(s, d, w), wd)
  {
    var t := WatchSubtree(s, d, w);
    WalkWatches(s, d, w);
    assert forall i :: i in s.watches ==> s.watches[i] in s.watches.Values;
    assert forall i :: i in t.watches ==> t.watches[i] != wd;
  }

  lemma ConsumeKeepsGone(st: State, c: Choice, wd: Wd)
    requires IsTree(st.tree) && WdsOk(st) && Gone(st, wd) && st.queue != [] && Possible(st, c)
    ensures var t := Consume(st, c).0; t.tree == st.tree && WdsOk(t) && Gone(t, wd)
  {
    var s := st.(queue := st.queue[1..]);
    RmAllEffect(s, c.order);
    assert forall i :: i in s.watches ==> s.watches[i] in s.watches.Values;
    assert forall i :: i in RmAll(s, c.order).watches ==> RmAll(s, c.order).watches[i] != wd;
    if st.queue[0].Named? && st.queue[0].wd in s.table {
      WalkKeepsGone(s, s.table[st.queue[0].wd] + [st.queue[0].name], c.walk, wd);
    }
  }

  /** No record about `wd` is reported. */
  ghost predicate SilentAbout(st: State, cs: seq<Choice>, wd: Wd)
    decreases |cs|
  {
    cs == [] || st.queue == [] || (
      && (st.queue[0].Named? && st.queue[0].wd == wd ==> Consume(st, cs[0]).1 == None)
      && SilentAbout(Consume(st, cs[0]).0, cs[1..], wd))
  }

  lemma {:induction false} GoneIsSilent(st: State, cs: seq<Choice>, wd: Wd)
    requires IsTree(st.tree) && WdsOk(st) && Gone(st, wd) && ValidRun(st, cs)
    ensures SilentAbout(st, cs, wd)
    decreases |cs|
  {
    if cs != [] && st.queue != [] {
      ConsumeKeepsGone(st, cs[0], wd);
      GoneIsSilent(Consume(st, cs[0]).0, cs[1..], wd);
    }
  }

  /** Once an IN_IGNORED is read, its descriptor is never tabled again, and no record about
      it that may still be queued is reported. */
  lemma IgnoredIsFinal(st: State, c: Choice, cs: seq<Choice>)
    requires Bookkeeping(st) && st.queue != [] && st.queue[0].Ignored?
    requires ValidRun(Consume(st, c).0, cs)
    ensures Gone(Consume(st, c).0, st.queue[0].wd)
    ensures SilentAbout(Consume(st, c).0, cs, st.queue[0].wd)
  {
    var wd := st.queue[0].wd;
    assert st.queue[0] in st.queue;
    ClearBookkeeping(st, wd, Consume(st, c).0);
    GoneIsSilent(Consume(st, c).0, cs, wd);
  }
}
