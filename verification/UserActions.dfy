/** From a user's action on a directory to the event the consumer receives. */
module UserActions {
  import opened Events
  import opened RelPaths
  import opened Inotify
  import opened WalkSpec
  import opened FileOps
  import opened TreeAgreement
  import opened TreeRuns
  import opened Unread
  import opened Operations
  import opened MessageRecords

  // ---- one operation, from agreement ---------------------------------------------------

  lemma FirstFacts(st: State, op: Op)
    requires Agreement(st) && Enabled(st, op)
    ensures IsTree(Outcome(st, op).tree) && Bookkeeping(Outcome(st, op))
    ensures Transplanted(st, op, Outcome(st, op).tree)
  {
    AgreementIsSynced(st);
    TreeAfter(st, op);
    ApplyBookkeeping(st, op);
  }

  lemma StaysRight(st: State, op: Op, f: State, c: Dir)
    requires Agreement(st) && Enabled(st, op) && f == Outcome(st, op) && c in f.tree && !ArrivesAt(op, c)
    ensures Right(f, c) && f.table == st.table && c in st.tree && f.tree[c] == st.tree[c]
  {
    FirstFacts(st, op);
    AgreementIsSynced(st);
    assert Right(st, c);
    StaysWatched(st, op, c);
  }

  /** From agreement every message is heard, and read by its right path. */
  lemma SaidRight(st: State, op: Op)
    requires Agreement(st) && Enabled(st, op)
    ensures forall m :: m in Messages(op) ==> ReadAs(st, st.table, m, m.dir + [m.name])
  {
    AgreementIsSynced(st);
    SpeakersStay(st, op);
    forall m | m in Messages(op)
      ensures ReadAs(st, st.table, m, m.dir + [m.name])
    {
      assert Right(st, m.dir);
    }
  }

  lemma FirstArrival(st: State, op: Op, c: Dir)
    requires Agreement(st) && Enabled(st, op) && ArrivesAt(op, c)
    ensures LastTouch(st.table, Records(st, op), c) == WalkedLast
  {
    SaidRight(st, op);
    WalkedBy(st, st.table, op, c);
  }

  /** Its records sweep nothing that is still there, and walk what arrived. */
  lemma FirstTouch(st: State, op: Op, f: State, c: Dir)
    requires Agreement(st) && Enabled(st, op) && f == Outcome(st, op) && c in f.tree
    ensures LastTouch(st.table, Records(st, op), c) != SweptLast
    ensures ArrivesAt(op, c) ==> LastTouch(st.table, Records(st, op), c) == WalkedLast
  {
    FirstFacts(st, op);
    SaidRight(st, op);
    if ArrivesAt(op, c) {
      WalkedBy(st, st.table, op, c);
    }
    forall m | m in Messages(op) && Departs(m)
      ensures !(PathOf(st.table, RecordOf(st, m)) <= c)
    {
      MessagePath(op, m, c);
    }
    NotSweptBy(st, st.table, op, c);
  }

  /** A watch of the start: where its directory went. */
  lemma FirstRoots(st: State, op: Op, f: State, i: Ino) returns (o: Dir)
    requires Agreement(st) && Enabled(st, op) && f == Outcome(st, op) && i in f.watches
    ensures f.watches[i] in st.table && st.table[f.watches[i]] == o && !ArrivesAt(op, o)
    ensures LeavesFrom(op, o) ==> Covered(st.table, Records(st, op), o)
    ensures !LeavesFrom(op, o) ==> o in f.tree && f.tree[o] == i
  {
    FirstFacts(st, op);
    AgreementIsSynced(st);
    o :| o in st.tree && st.tree[o] == i;
    assert Right(st, o);
    assert i !in Dying(st, op);
    if LeavesFrom(op, o) {
      var m := SaysDeparture(op, o);
      SaidRight(st, op);
      SaidIsHeard(st, Messages(op), m);
      assert SweepsAt(st.table, RecordOf(st, m), o);
    }
  }

  lemma FirstSteady(st: State, op: Op, j: nat)
    requires Agreement(st) && Enabled(st, op) && j < |Records(st, op)| && Records(st, op)[j].Named?
    ensures var wd := Records(st, op)[j].wd;
      wd in st.table && Ignored(wd) !in Records(st, op)[..j] && SweptFirst(st.table, Records(st, op)[..j], st.table[wd])
  {
    var q := Records(st, op);
    var m := NamedRecord(st, op, q[j]);
    SaidRight(st, op);
    AgreementIsSynced(st);
    SpeakerLives(st, op, Outcome(st, op), m);
    assert Right(st, m.dir);
    assert forall ev :: ev in q[..j] ==> ev in st.queue + q;
    forall ev | ev in q[..j]
      ensures !Starts(ev)
    {
      var k :| 0 <= k < j && q[k] == ev;
      WalkIsLast(st, op, k, j);
    }
    NoWalkBefore(st.table, q[..j], st.table[q[j].wd]);
  }

  lemma OneKeeps(st: State, op: Op, f: State)
    requires Agreement(st) && Enabled(st, op) && f == Outcome(st, op)
    ensures AllKept(f, st.table, Records(st, op))
  {
    forall c | c in f.tree
      ensures Kept(f, st.table, Records(st, op), c)
    {
      FirstTouch(st, op, f, c);
      if !ArrivesAt(op, c) {
        StaysRight(st, op, f, c);
      }
    }
  }

  lemma OneRoots(st: State, op: Op, f: State)
    requires Agreement(st) && Enabled(st, op) && f == Outcome(st, op)
    ensures AllRooted(f, st.table, Records(st, op))
  {
    forall i | i in f.watches
      ensures Rooted(f, st.table, Records(st, op), i)
    {
      var o := FirstRoots(st, op, f, i);
    }
  }

  lemma OneSteady(st: State, op: Op, f: State)
    requires Agreement(st) && Enabled(st, op) && f == Outcome(st, op)
    ensures AllSteady(f, st.table, Records(st, op))
  {
    var q := Records(st, op);
    forall j | 0 <= j < |q| && q[j].Named?
      ensures Steady(f, st.table, q[..j], q[j].wd)
    {
      FirstSteady(st, op, j);
    }
  }

  lemma OneDraining(st: State, op: Op, f: State)
    requires Agreement(st) && Enabled(st, op) && f == Outcome(st, op)
    ensures Draining(f, st.table, Records(st, op), [])
  {
    FirstFacts(st, op);
    assert f.queue == [] + Records(st, op) == Records(st, op);
    OneKeeps(st, op, f);
    OneRoots(st, op, f);
    OneSteady(st, op, f);
    DrainingWhole(f, st.table, Records(st, op));
  }

  lemma OneTold(st: State, op: Op)
    requires Agreement(st) && Enabled(st, op)
    ensures Told(st.table, Records(st, op)) == Reported(op)
  {
    SaidRight(st, op);
    ToldRecords(st.table, st, op);
    ToldRight(st.table, st, Messages(op));
    ReportedIsSaid(op);
  }

  lemma OutcomeSettles(st: State, op: Op, f: State, cs: seq<Choice>)
    requires Agreement(st) && Enabled(st, op) && f == Outcome(st, op) && ValidRun(f, cs)
    ensures Settles(f, cs, Reported(op), Bound(|st.table|))
  {
    OneDraining(st, op, f);
    OneTold(st, op);
    RecordsBudget(st, op, |st.table|, |f.tree|);
    DrainsTo(f, st.table, Records(st, op), cs, Reported(op), |st.table|, Bound(|st.table|));
  }

  /** From a state that agrees, any operation, drained: the table agrees again, the
      consumer was told exactly what happened, and draining ends. */
  lemma OperationSettles(st: State, op: Op, cs: seq<Choice>)
    requires Agreement(st) && Enabled(st, op) && ValidRun(Apply(st, op), cs)
    ensures Settles(Apply(st, op), cs, Reported(op), Bound(|st.table|))
  {
    ApplyIsOutcome(st, op);
    OutcomeSettles(st, op, Apply(st, op), cs);
  }

  // ---- every run -------------------------------------------------------------------------

  /** One operation and the processing of its records. */
  datatype Round = Round(op: Op, cs: seq<Choice>)

  /** Each operation is fully drained before the next. */
  ghost predicate DrainedRun(st: State, rs: seq<Round>)
    decreases |rs|
  {
    rs == [] || (
      && Enabled(st, rs[0].op) && ValidRun(Apply(st, rs[0].op), rs[0].cs)
      && DrainQueue(Apply(st, rs[0].op), rs[0].cs).0.queue == []
      && DrainedRun(DrainQueue(Apply(st, rs[0].op), rs[0].cs).0, rs[1..]))
  }

  ghost function RunRounds(st: State, rs: seq<Round>): (State, seq<RawEvent>)
    requires DrainedRun(st, rs)
    decreases |rs|
  {
    if rs == [] then (st, [])
    else
      var (t, os) := DrainQueue(Apply(st, rs[0].op), rs[0].cs);
      var (u, more) := RunRounds(t, rs[1..]);
      (u, os + more)
  }

  function ReportedAll(rs: seq<Round>): seq<RawEvent> {
    if rs == [] then [] else Reported(rs[0].op) + ReportedAll(rs[1..])
  }

  /** Over every drained run, the table is exactly the tree, and the consumer is
      told exactly what was done, in order. */
  lemma {:induction false} TableAgreesWithTree(st: State, rs: seq<Round>)
    requires Agreement(st) && DrainedRun(st, rs)
    ensures Agreement(RunRounds(st, rs).0) && RunRounds(st, rs).1 == ReportedAll(rs)
    decreases |rs|
  {
    if rs != [] {
      OperationSettles(st, rs[0].op, rs[0].cs);
      TableAgreesWithTree(DrainQueue(Apply(st, rs[0].op), rs[0].cs).0, rs[1..]);
    }
  }

  /** filecat_open of a recursive watcher, when nothing fails, starts in agreement. */
  lemma OpenAgrees(tree: map<Dir, Ino>, firstWd: Wd, w: Walk)
    requires IsTree(tree) && Lists(w, tree) && Smooth(w)
    ensures Agreement(WatchSubtree(State(tree, map[], firstWd, [], map[]), [], w))
  {
    var s := State(tree, map[], firstWd, [], map[]);
    var t := WatchSubtree(s, [], w);
    WalkIs(s, [], w, t);
    WalkAccounts(s, t, []);
    forall d | d in t.tree
      ensures Right(t, d)
    {
      WalkRight(s, [], t, d);
    }
    SyncedAgrees(t);
  }
}
