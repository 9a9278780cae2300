/** Two operations, and only then the watcher reads. */
module TwoUnread {
  import opened Events
  import opened RelPaths
  import opened Inotify
  import opened WalkSpec
  import opened FileOps
  import opened TreeAgreement
  import opened TreeRuns
  import opened Unread
  import opened Operations
  import opened MessageRecords
  import opened UserActions

  // ---- two operations ------------------------------------------------------------------------

  /** `f` is what `op1` leaves of `st`, and `g` what `op2` then leaves. */
  ghost predicate Both(st: State, op1: Op, f: State, op2: Op, g: State) {
    && Agreement(st) && Enabled(st, op1) && f == Outcome(st, op1)
    && Enabled(f, op2) && g == Outcome(f, op2)
  }

  /** A directory that is there already is watched: only those made or moved in are not yet. */
  predicate KnownBefore(op: Op, d: Dir) {
    ArrivesAt(op, d) ==> op.Rename?
  }

  /** The path by which a directory's records are read after `op`. */
  function ReadBy(op: Op, d: Dir): Dir {
    if op.Rename? && op.e <= d then Origin(op, d) else d
  }

  lemma ArrivedHeard(st: State, op: Op, f: State, d: Dir)
    requires Agreement(st) && Enabled(st, op) && f == Outcome(st, op) && d in f.tree && ArrivesAt(op, d)
    ensures Hears(f, d) <==> op.Rename?
    ensures op.Rename? ==>
      f.watches[f.tree[d]] in st.table && st.table[f.watches[f.tree[d]]] == Origin(op, d)
  {
    FirstFacts(st, op);
    AgreementIsSynced(st);
    if op.Rename? {
      assert Right(st, Origin(op, d));
      Incomparable(st.tree, op.d, op.e, Origin(op, d));
      StaysWatched(st, op, Origin(op, d));
    }
  }

  /** After one operation: who stays is heard, and read by its path; what arrived is not
      heard, unless it was renamed, and then it is read by its path from before. */
  lemma HeardAfter(st: State, op: Op, f: State, d: Dir)
    requires Agreement(st) && Enabled(st, op) && f == Outcome(st, op) && d in f.tree
    ensures Hears(f, d) <==> KnownBefore(op, d)
    ensures Hears(f, d) ==> f.watches[f.tree[d]] in st.table && st.table[f.watches[f.tree[d]]] == ReadBy(op, d)
  {
    if !ArrivesAt(op, d) {
      StaysRight(st, op, f, d);
    } else {
      ArrivedHeard(st, op, f, d);
    }
  }

  function Queued(st: State, op1: Op, f: State, op2: Op): seq<KEvent>
    requires BelowRoot(op1) && BelowRoot(op2)
  {
    Records(st, op1) + Records(f, op2)
  }

  lemma SecondFacts(st: State, op1: Op, f: State, op2: Op, g: State)
    requires Both(st, op1, f, op2, g)
    ensures IsTree(f.tree) && IsTree(g.tree) && Bookkeeping(f) && Bookkeeping(g) && Transplanted(f, op2, g.tree)
    ensures g.table == st.table && g.queue == Queued(st, op1, f, op2)
  {
    FirstFacts(st, op1);
    TreeAfter(f, op2);
    ApplyBookkeeping(f, op2);
    assert [] + Records(st, op1) == Records(st, op1);
  }

  /** The ears that the second operation finds, and the paths by which `tab` has them read. */
  ghost predicate Ears(tab: map<Wd, Dir>, op1: Op, f: State) {
    forall d :: d in f.tree ==>
      && (Hears(f, d) <==> KnownBefore(op1, d))
      && (Hears(f, d) ==> f.watches[f.tree[d]] in tab && tab[f.watches[f.tree[d]]] == ReadBy(op1, d))
  }

  ghost predicate Speakers(op: Op, f: State)
    requires BelowRoot(op)
  {
    forall m :: m in Messages(op) ==> m.dir in f.tree
  }

  lemma SecondEars(st: State, op1: Op, f: State, op2: Op, g: State)
    requires Both(st, op1, f, op2, g)
    ensures Ears(st.table, op1, f) && Speakers(op2, f)
  {
    forall d | d in f.tree
      ensures Hears(f, d) <==> KnownBefore(op1, d)
      ensures Hears(f, d) ==> f.watches[f.tree[d]] in st.table && st.table[f.watches[f.tree[d]]] == ReadBy(op1, d)
    {
      HeardAfter(st, op1, f, d);
    }
    FirstFacts(st, op1);
    SpeakersStay(f, op2);
  }

  lemma ArrivalsGoDown(op: Op, d: Dir, c: Dir)
    requires ArrivesAt(op, d) && d <= c
    ensures ArrivesAt(op, c)
  {
  }

  lemma OriginBelow(op: Op, d: Dir, name: Name, c: Dir)
    requires op.Rename? && op.e <= d && Origin(op, d) + [name] <= c
    ensures op.d <= c
  {
    assert op.d <= Origin(op, d) <= Origin(op, d) + [name];
  }

  /** A message about what the first operation did not bring is heard, by its right path. */
  lemma ReadRight(tab: map<Wd, Dir>, op1: Op, f: State, m: Message, c: Dir)
    requires Ears(tab, op1, f) && m.dir in f.tree && m.dir + [m.name] <= c && !ArrivesAt(op1, c)
    ensures ReadAs(f, tab, m, m.dir + [m.name])
  {
    assert m.dir <= m.dir + [m.name] <= c;
    if ArrivesAt(op1, m.dir) {
      ArrivalsGoDown(op1, m.dir, c);
    }
    assert Hears(f, m.dir);
  }

  /** Read by a former path, a record is about what is below where a rename took it from. */
  lemma ReadFormer(tab: map<Wd, Dir>, op1: Op, f: State, m: Message, c: Dir)
    requires Ears(tab, op1, f) && m.dir in f.tree && Hears(f, m.dir) && PathOf(tab, RecordOf(f, m)) <= c
    ensures m.dir + [m.name] <= c || (op1.Rename? && op1.d <= c)
  {
    if ArrivesAt(op1, m.dir) {
      OriginBelow(op1, m.dir, m.name, c);
    }
  }

  /** What is there and was not brought by the second operation alone is not where either
      took something away. */
  lemma NotWhereLeft(st: State, op1: Op, f: State, op2: Op, g: State, c: Dir)
    requires Both(st, op1, f, op2, g) && c in g.tree && (ArrivesAt(op2, c) ==> ArrivesAt(op1, c))
    ensures op1.Rename? ==> !(op1.d <= c)
    ensures !LeavesFrom(op2, c)
  {
    FirstFacts(st, op1);
    SecondFacts(st, op1, f, op2, g);
    if op1.Rename? && op1.d <= c {
      Incomparable(st.tree, op1.d, op1.e, c);
    }
  }

  /** No sweep that the second asks for, by whatever path, hits what is there. */
  lemma SecondSweep(tab: map<Wd, Dir>, op1: Op, f: State, op2: Op, c: Dir)
    requires BelowRoot(op2) && Ears(tab, op1, f) && Speakers(op2, f)
    requires !LeavesFrom(op2, c) && (op1.Rename? ==> !(op1.d <= c))
    ensures LastTouch(tab, Records(f, op2), c) != SweptLast
  {
    forall m | m in Messages(op2) && Departs(m) && Hears(f, m.dir)
      ensures !(PathOf(tab, RecordOf(f, m)) <= c)
    {
      if PathOf(tab, RecordOf(f, m)) <= c {
        ReadFormer(tab, op1, f, m, c);
        MessagePath(op2, m, c);
      }
    }
    NotSweptBy(f, tab, op2, c);
  }

  lemma SecondArrival(tab: map<Wd, Dir>, op1: Op, f: State, op2: Op, c: Dir)
    requires BelowRoot(op2) && Ears(tab, op1, f) && Speakers(op2, f)
    requires ArrivesAt(op2, c) && !ArrivesAt(op1, c)
    ensures LastTouch(tab, Records(f, op2), c) == WalkedLast
  {
    forall m | m in Messages(op2) && Appears(m)
      ensures ReadAs(f, tab, m, m.dir + [m.name])
    {
      MessagePath(op2, m, c);
      ReadRight(tab, op1, f, m, c);
    }
    WalkedBy(f, tab, op2, c);
  }

  lemma StillRight(f: State, op: Op, g: State, c: Dir)
    requires BelowRoot(op) && OnePath(f.tree) && Transplanted(f, op, g.tree) && g == Outcome(f, op)
    requires Right(f, c) && c in g.tree && !ArrivesAt(op, c)
    ensures Right(g, c)
  {
    StaysWatched(f, op, c);
  }

  /** What the second operation leaves alone is right if the first leaves it alone too. */
  lemma RightAfterBoth(st: State, op1: Op, f: State, op2: Op, g: State, c: Dir)
    requires Both(st, op1, f, op2, g) && c in g.tree && !ArrivesAt(op1, c) && !ArrivesAt(op2, c)
    ensures c in f.tree && Right(g, c)
  {
    SecondFacts(st, op1, f, op2, g);
    StaysRight(st, op1, f, c);
    StillRight(f, op2, g, c);
  }

  /** Kept by the later records, or left alone by them and kept by the earlier. */
  lemma KeptConcat(g: State, tab: map<Wd, Dir>, q1: seq<KEvent>, q2: seq<KEvent>, c: Dir)
    requires LastTouch(tab, q2, c) != SweptLast
    requires LastTouch(tab, q2, c) == WalkedLast || Kept(g, tab, q1, c)
    ensures Kept(g, tab, q1 + q2, c)
  {
    TouchConcat(tab, q1, q2, c);
  }

  /** What the second operation did not bring is kept by the first one's records. */
  lemma FirstKeeps(st: State, op1: Op, f: State, op2: Op, g: State, c: Dir)
    requires Both(st, op1, f, op2, g) && c in g.tree && (ArrivesAt(op2, c) ==> ArrivesAt(op1, c))
    ensures Kept(g, st.table, Records(st, op1), c)
  {
    if ArrivesAt(op1, c) {
      FirstArrival(st, op1, c);
    } else {
      RightAfterBoth(st, op1, f, op2, g, c);
      FirstTouch(st, op1, f, c);
    }
  }

  lemma BothKeep(st: State, op1: Op, f: State, op2: Op, g: State, q1: seq<KEvent>, q2: seq<KEvent>, c: Dir)
    requires Both(st, op1, f, op2, g) && c in g.tree && q1 == Records(st, op1) && q2 == Records(f, op2)
    ensures Kept(g, st.table, q1 + q2, c)
  {
    SecondEars(st, op1, f, op2, g);
    if ArrivesAt(op2, c) && !ArrivesAt(op1, c) {
      SecondArrival(st.table, op1, f, op2, c);
    } else {
      NotWhereLeft(st, op1, f, op2, g, c);
      SecondSweep(st.table, op1, f, op2, c);
      FirstKeeps(st, op1, f, op2, g, c);
    }
    KeptConcat(g, st.table, q1, q2, c);
  }

  // ---- no watch is forgotten ----------------------------------------------------------------------

  /** What the second operation takes away it says by the right path. */
  lemma SecondCovers(tab: map<Wd, Dir>, op1: Op, f: State, op2: Op, o: Dir)
    requires BelowRoot(op2) && Ears(tab, op1, f) && Speakers(op2, f)
    requires LeavesFrom(op2, o) && !op2.Rmdir? && !ArrivesAt(op1, o)
    ensures Covered(tab, Records(f, op2), o)
  {
    var m := SaysDeparture(op2, o);
    ReadRight(tab, op1, f, m, o);
    SaidIsHeard(f, Messages(op2), m);
    assert SweepsAt(tab, RecordOf(f, m), o);
  }

  lemma BothRoot(st: State, op1: Op, f: State, op2: Op, g: State, i: Ino)
    requires Both(st, op1, f, op2, g) && i in g.watches
    ensures Rooted(g, st.table, Queued(st, op1, f, op2), i)
  {
    SecondFacts(st, op1, f, op2, g);
    assert i in f.watches && g.watches[i] == f.watches[i] && i !in Dying(f, op2);
    var o := FirstRoots(st, op1, f, i);
    if LeavesFrom(op1, o) {
      CoveredConcat(st.table, Records(st, op1), Records(f, op2), o);
    } else if LeavesFrom(op2, o) {
      SecondEars(st, op1, f, op2, g);
      SecondCovers(st.table, op1, f, op2, o);
      CoveredConcat(st.table, Records(st, op1), Records(f, op2), o);
    } else {
      assert g.tree[o] == i;
    }
  }

  // ---- every record finds its entry -------------------------------------------------------------------

  /** What was renamed is swept from its former place before anything is walked. */
  lemma FormerSwept(st: State, op: Op, q: seq<KEvent>, o: Dir)
    requires Agreement(st) && Enabled(st, op) && op.Rename? && op.d <= o
    ensures Records(st, op) != [] && SweptFirst(st.table, Records(st, op) + q, o)
  {
    var ms := Messages(op);
    SaidRight(st, op);
    HeardTwo(st, ms[0], ms[1]);
    MessagePath(op, ms[0], o);
    assert ms[0] in ms && Records(st, op)[0] == RecordOf(st, ms[0]);
    assert (Records(st, op) + q)[0] == Records(st, op)[0];
  }

  lemma EarSteady(tab: map<Wd, Dir>, op1: Op, f: State, d: Dir, g: State, before: seq<KEvent>)
    requires Ears(tab, op1, f) && d in f.tree && Hears(f, d) && g.table == tab
    requires Placed(g, d, f.watches[f.tree[d]]) && Ignored(f.watches[f.tree[d]]) !in before
    requires op1.Rename? && op1.e <= d ==> SweptFirst(tab, before, Origin(op1, d))
    ensures Steady(g, tab, before, f.watches[f.tree[d]])
  {
  }

  /** Who speaks of the second operation is watched to the end. */
  lemma SecondSpeaker(st: State, op1: Op, f: State, op2: Op, g: State, ev: KEvent) returns (m: Message)
    requires Both(st, op1, f, op2, g) && ev in Records(f, op2) && ev.Named?
    ensures m.dir in f.tree && Hears(f, m.dir) && ev == RecordOf(f, m)
    ensures Placed(g, m.dir, ev.wd) && Ignored(ev.wd) !in g.queue
  {
    m := NamedRecord(f, op2, ev);
    SecondFacts(st, op1, f, op2, g);
    SpeakerLives(f, op2, g, m);
  }

  lemma SecondSteady(st: State, op1: Op, f: State, op2: Op, g: State, q1: seq<KEvent>, q2: seq<KEvent>, k: nat)
    requires Both(st, op1, f, op2, g) && q1 == Records(st, op1) && q2 == Records(f, op2)
    requires k < |q2| && q2[k].Named? && Ears(st.table, op1, f) && g.table == st.table && g.queue == q1 + q2
    ensures Steady(g, st.table, q1 + q2[..k], q2[k].wd)
  {
    var m := SecondSpeaker(st, op1, f, op2, g, q2[k]);
    InFront(q1, q2, k);
    if op1.Rename? && op1.e <= m.dir {
      FormerSwept(st, op1, q2[..k], Origin(op1, m.dir));
    }
    EarSteady(st.table, op1, f, m.dir, g, q1 + q2[..k]);
  }

  lemma InFront(a: seq<KEvent>, b: seq<KEvent>, k: nat)
    requires k <= |b|
    ensures forall ev :: ev in a + b[..k] ==> ev in a + b
  {
  }

  lemma SteadyConcat(g: State, tab: map<Wd, Dir>, q1: seq<KEvent>, q2: seq<KEvent>)
    requires forall j :: 0 <= j < |q1| && q1[j].Named? ==> Steady(g, tab, q1[..j], q1[j].wd)
    requires forall k :: 0 <= k < |q2| && q2[k].Named? ==> Steady(g, tab, q1 + q2[..k], q2[k].wd)
    ensures AllSteady(g, tab, q1 + q2)
  {
    forall j | 0 <= j < |q1 + q2| && (q1 + q2)[j].Named?
      ensures Steady(g, tab, (q1 + q2)[..j], (q1 + q2)[j].wd)
    {
      if j < |q1| {
        assert (q1 + q2)[..j] == q1[..j];
      } else {
        assert (q1 + q2)[..j] == q1 + q2[..j - |q1|];
        assert (q1 + q2)[j] == q2[j - |q1|];
      }
    }
  }

  lemma BothAllKept(st: State, op1: Op, f: State, op2: Op, g: State)
    requires Both(st, op1, f, op2, g)
    ensures AllKept(g, st.table, Queued(st, op1, f, op2))
  {
    forall c | c in g.tree
      ensures Kept(g, st.table, Queued(st, op1, f, op2), c)
    {
      BothKeep(st, op1, f, op2, g, Records(st, op1), Records(f, op2), c);
    }
  }

  lemma BothAllRooted(st: State, op1: Op, f: State, op2: Op, g: State)
    requires Both(st, op1, f, op2, g)
    ensures AllRooted(g, st.table, Queued(st, op1, f, op2))
  {
    forall i | i in g.watches
      ensures Rooted(g, st.table, Queued(st, op1, f, op2), i)
    {
      BothRoot(st, op1, f, op2, g, i);
    }
  }

  lemma BothAllSteady(st: State, op1: Op, f: State, op2: Op, g: State)
    requires Both(st, op1, f, op2, g)
    ensures AllSteady(g, st.table, Queued(st, op1, f, op2))
  {
    var q1, q2 := Records(st, op1), Records(f, op2);
    SecondFacts(st, op1, f, op2, g);
    SecondEars(st, op1, f, op2, g);
    forall j | 0 <= j < |q1| && q1[j].Named?
      ensures Steady(g, st.table, q1[..j], q1[j].wd)
    {
      FirstSteady(st, op1, j);
    }
    forall k | 0 <= k < |q2| && q2[k].Named?
      ensures Steady(g, st.table, q1 + q2[..k], q2[k].wd)
    {
      SecondSteady(st, op1, f, op2, g, q1, q2, k);
    }
    SteadyConcat(g, st.table, q1, q2);
  }

  lemma BothDraining(st: State, op1: Op, f: State, op2: Op, g: State)
    requires Both(st, op1, f, op2, g)
    ensures Draining(g, st.table, Queued(st, op1, f, op2), [])
  {
    SecondFacts(st, op1, f, op2, g);
    BothAllKept(st, op1, f, op2, g);
    BothAllRooted(st, op1, f, op2, g);
    BothAllSteady(st, op1, f, op2, g);
    DrainingWhole(g, st.table, Queued(st, op1, f, op2));
  }

  // ---- what is reported -----------------------------------------------------------------------------------

  /** No directory whose watch has to say something about `op2` is, or is below, what `op1`
      made, moved in or renamed to. */
  predicate NoneBelow(op1: Op, op2: Op)
    requires BelowRoot(op2)
  {
    forall m :: m in Messages(op2) ==> !ArrivesAt(op1, m.dir)
  }

  /** A message as it is reported while `op1` is not read yet: nothing, when the directory is
      one that `op1` made or moved in; by the path from before, when `op1` renamed it. */
  function HeardLate(op1: Op, m: Message): seq<RawEvent> {
    if KnownBefore(op1, m.dir) then [EventOf(m.(dir := ReadBy(op1, m.dir)))] else []
  }

  function AllHeardLate(op1: Op, ms: seq<Message>): seq<RawEvent> {
    if ms == [] then [] else HeardLate(op1, ms[0]) + AllHeardLate(op1, ms[1..])
  }

  lemma {:induction false} ToldSecond(tab: map<Wd, Dir>, op1: Op, f: State, ms: seq<Message>)
    requires Ears(tab, op1, f) && forall m :: m in ms ==> m.dir in f.tree
    ensures Told(tab, Heard(f, ms)) == AllHeardLate(op1, ms)
  {
    if ms != [] {
      assert ms == [ms[0]] + ms[1..] && ms[0] in ms;
      ToldSay(tab, f, ms[0], ms[1..]);
      ToldSecond(tab, op1, f, ms[1..]);
    }
  }

  lemma OriginSame(op: Op, d: Dir, name: Name)
    requires op.Rename? && op.e <= d && Origin(op, d) + [name] == d + [name]
    ensures op.d == op.e
  {
    assert |Origin(op, d) + [name]| == |op.d| + |d| - |op.e| + 1;
    assert (Origin(op, d) + [name])[..|op.d|] == op.d && (d + [name])[..|op.e|] == op.e;
  }

  /** A message is reported as it should be exactly when its directory was not brought. */
  lemma HeardLateRight(op: Op, m: Message)
    requires op.Rename? ==> op.d != op.e
    ensures |HeardLate(op, m)| <= 1 && (HeardLate(op, m) == [EventOf(m)] <==> !ArrivesAt(op, m.dir))
  {
    if op.Rename? && op.e <= m.dir && HeardLate(op, m) == [EventOf(m)] {
      RenderInjective(Origin(op, m.dir) + [m.name], m.dir + [m.name]);
      OriginSame(op, m.dir, m.name);
    }
  }

  lemma FirstDecides<T>(a: T, b: T, x: seq<T>, y: seq<T>)
    ensures [a] + x == [b] + y <==> a == b && x == y
  {
    assert ([a] + x)[0] == a && ([b] + y)[0] == b && ([a] + x)[1..] == x && ([b] + y)[1..] == y;
  }

  lemma {:induction false} AllHeardLateRight(op: Op, ms: seq<Message>)
    requires op.Rename? ==> op.d != op.e
    ensures |AllHeardLate(op, ms)| <= |ms| == |EventsOf(ms)|
    ensures AllHeardLate(op, ms) == EventsOf(ms) <==> forall m :: m in ms ==> !ArrivesAt(op, m.dir)
  {
    if ms != [] {
      var m, rest := ms[0], ms[1..];
      assert ms == [m] + rest;
      HeardLateRight(op, m);
      AllHeardLateRight(op, rest);
      if HeardLate(op, m) != [] {
        FirstDecides(HeardLate(op, m)[0], EventOf(m), AllHeardLate(op, rest), EventsOf(rest));
      }
    }
  }

  // ---- the theorem --------------------------------------------------------------------------------------

  /** With a table of `k` entries and a tree of `n` directories, two operations take so many
      calls at most. */
  function BoundTwo(k: nat, n: nat): nat { 2 * k + n + 10 }

  lemma BothBudget(st: State, op1: Op, f: State, op2: Op, k: nat, n: nat)
    requires BelowRoot(op1) && BelowRoot(op2)
    ensures Budget(Queued(st, op1, f, op2), k, n) <= BoundTwo(k, n)
  {
    BudgetConcat(Records(st, op1), Records(f, op2), k, n);
    RecordsGrow(st, op1, k, n);
    RecordsBudget(st, op1, k, n);
    RecordsBudget(f, op2, GrownBy(Records(st, op1), k, n), n);
  }

  lemma BothTold(st: State, op1: Op, f: State, op2: Op, g: State)
    requires Both(st, op1, f, op2, g)
    ensures Told(st.table, Queued(st, op1, f, op2)) == Reported(op1) + AllHeardLate(op1, Messages(op2))
  {
    ToldConcat(st.table, Records(st, op1), Records(f, op2));
    OneTold(st, op1);
    SecondEars(st, op1, f, op2, g);
    ToldRecords(st.table, f, op2);
    ToldSecond(st.table, op1, f, Messages(op2));
  }

  /** What is reported of the second operation is right exactly when none of its messages
      comes from at or below what the first brought. */
  lemma RightReports(op1: Op, op2: Op)
    requires BelowRoot(op2) && (op1.Rename? ==> op1.d != op1.e)
    ensures Reported(op1) + AllHeardLate(op1, Messages(op2)) == Reported(op1) + Reported(op2) <==> NoneBelow(op1, op2)
  {
    ReportedIsSaid(op2);
    AllHeardLateRight(op1, Messages(op2));
    var a, x, y := Reported(op1), AllHeardLate(op1, Messages(op2)), Reported(op2);
    assert (a + x)[|a|..] == x && (a + y)[|a|..] == y;
  }

  lemma BothReady(st: State, op1: Op, f: State, op2: Op, g: State, q: seq<KEvent>, n: nat)
    requires Both(st, op1, f, op2, g) && q == Queued(st, op1, f, op2)
    ensures Draining(g, st.table, q, []) && g.table == st.table
    ensures Told(st.table, q) == Reported(op1) + AllHeardLate(op1, Messages(op2))
    ensures Budget(q, |st.table|, n) <= BoundTwo(|st.table|, n)
  {
    SecondFacts(st, op1, f, op2, g);
    BothDraining(st, op1, f, op2, g);
    BothTold(st, op1, f, op2, g);
    BothBudget(st, op1, f, op2, |st.table|, n);
  }

  lemma BothSettle(st: State, op1: Op, f: State, op2: Op, g: State, cs: seq<Choice>)
    requires Both(st, op1, f, op2, g) && ValidRun(g, cs)
    ensures Settles(g, cs, Reported(op1) + AllHeardLate(op1, Messages(op2)), BoundTwo(|st.table|, |g.tree|))
  {
    var q := Queued(st, op1, f, op2);
    BothReady(st, op1, f, op2, g, q, |g.tree|);
    DrainsTo(g, st.table, q, cs, Reported(op1) + AllHeardLate(op1, Messages(op2)),
      |st.table|, BoundTwo(|st.table|, |g.tree|));
  }

  lemma AreOutcomes(st: State, op1: Op, f: State, op2: Op, g: State)
    requires Agreement(st) && Enabled(st, op1) && f == Apply(st, op1) && Enabled(f, op2) && g == Apply(f, op2)
    ensures Both(st, op1, f, op2, g) && BelowRoot(op2) && (op1.Rename? ==> op1.d != op1.e)
  {
    ApplyIsOutcome(st, op1);
    FirstFacts(st, op1);
    ApplyIsOutcome(f, op2);
  }

  lemma Concludes(op1: Op, op2: Op, g: State, cs: seq<Choice>, t: State, outs: seq<RawEvent>, n: nat)
    requires BelowRoot(op2) && (op1.Rename? ==> op1.d != op1.e) && DrainQueue(g, cs) == (t, outs)
    requires Settles(g, cs, Reported(op1) + AllHeardLate(op1, Messages(op2)), n)
    ensures t.queue == [] ==> Agreement(t) && (outs == Reported(op1) + Reported(op2) <==> NoneBelow(op1, op2))
    ensures |cs| >= n ==> t.queue == []
  {
    RightReports(op1, op2);
  }

  /** Any two operations that nothing is read between: once they are drained, which takes a
      bounded number of records, the table agrees again. What is reported is what was done if
      and only if no directory whose watch has to speak of the second operation is, or is
      below, what the first made, moved in or renamed to. */
  lemma TwoUnreadOperations(
    st: State, op1: Op, f: State, op2: Op, g: State, cs: seq<Choice>, t: State, outs: seq<RawEvent>)
    requires Agreement(st) && Enabled(st, op1) && f == Apply(st, op1) && Enabled(f, op2) && g == Apply(f, op2)
    requires ValidRun(g, cs) && DrainQueue(g, cs) == (t, outs)
    ensures t.queue == [] ==> Agreement(t) && (outs == Reported(op1) + Reported(op2) <==> NoneBelow(op1, op2))
    ensures |cs| >= BoundTwo(|st.table|, |g.tree|) ==> t.queue == []
  {
    AreOutcomes(st, op1, f, op2, g);
    BothSettle(st, op1, f, op2, g, cs);
    Concludes(op1, op2, g, cs, t, outs, BoundTwo(|st.table|, |g.tree|));
  }

  /** Such a run there always is. So where the condition fails, the consumer is told something
      else than what was done, on every run that drains, and on some. */
  lemma SomeRunDrains(st: State, op1: Op, f: State, op2: Op, g: State) returns (cs: seq<Choice>)
    requires Agreement(st) && Enabled(st, op1) && f == Apply(st, op1) && Enabled(f, op2) && g == Apply(f, op2)
    ensures ValidRun(g, cs) && DrainQueue(g, cs).0.queue == []
    ensures DrainQueue(g, cs).1 == Reported(op1) + AllHeardLate(op1, Messages(op2))
  {
    cs := SomeRun(g, BoundTwo(|st.table|, |g.tree|));
    AreOutcomes(st, op1, f, op2, g);
    BothSettle(st, op1, f, op2, g, cs);
  }
}
