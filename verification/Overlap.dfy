/** A second operation at any moment: while the records of the first are still being read. */
module Overlap {
  import opened Events
  import opened RelPaths
  import opened Inotify
  import opened WalkSpec
  import opened FileOps
  import opened TreeAgreement
  import opened TreeRuns
  import opened Unread
  import opened Operations
  import opened MessageRecords
  import opened UserActions
  import opened TwoUnread

  // ---- reading a part ----------------------------------------------------------------------

  lemma SyncedDraining(s: State, tab: map<Wd, Dir>, rest: seq<KEvent>)
    requires Synced(s) && s.queue == rest && Quiet(rest)
    ensures Draining(s, tab, [], rest)
  {
    assert [] + rest == rest;
  }

  lemma QuietStep(s: State, rest: seq<KEvent>, c: Choice, t: State, o: Option<RawEvent>)
    requires Synced(s) && s.queue == rest && Quiet(rest) && rest != [] && Consume(s, c) == (t, o)
    ensures Synced(t) && t.queue == rest[1..] && Quiet(rest[1..]) && o == None && t.tree == s.tree
  {
    assert rest[0] in rest && forall ev :: ev in rest[1..] ==> ev in rest;
    ConsumeNameless(s, c);
  }

  lemma QuietDraining(s: State, tab: map<Wd, Dir>, rest: seq<KEvent>, c: Choice, t: State, o: Option<RawEvent>)
    requires Draining(s, tab, [], rest) && rest != [] && s.queue == rest && Consume(s, c) == (t, o)
    ensures Draining(t, tab, [], rest[1..]) && o == None && t.tree == s.tree
  {
    DrainedIsSynced(s, tab, rest);
    QuietStep(s, rest, c, t, o);
    SyncedDraining(t, tab, rest[1..]);
  }

  lemma DrainFirst(s: State, cs: seq<Choice>, t: State, outs: seq<RawEvent>, u: State, o: Option<RawEvent>)
    returns (later: seq<RawEvent>)
    requires cs != [] && s.queue != [] && ValidRun(s, cs) && DrainQueue(s, cs) == (t, outs)
    requires Consume(s, cs[0]) == (u, o)
    ensures DrainQueue(u, cs[1..]) == (t, later) && outs == OptSeq(o) + later
    ensures Possible(s, cs[0]) && Smooth(cs[0].walk) && ValidRun(u, cs[1..])
  {
    later := DrainQueue(u, cs[1..]).1;
  }

  lemma SplitTold(tab: map<Wd, Dir>, q: seq<KEvent>, k: nat)
    requires q != [] && k <= |q| - 1
    ensures q[k + 1..] == q[1..][k..] && Told(tab, q[..k + 1]) == ToldOf(tab, q[0]) + Told(tab, q[1..][..k])
  {
    assert q[..k + 1] == [q[0]] + q[1..][..k];
  }

  function Rest(q: seq<KEvent>): seq<KEvent> {
    if q == [] then [] else q[1..]
  }

  /** One record of a part. */
  lemma PartStep(s: State, tab: map<Wd, Dir>, q: seq<KEvent>, rest: seq<KEvent>, c: Choice, u: State, o: Option<RawEvent>)
    returns (more: seq<KEvent>)
    requires Draining(s, tab, q, rest) && s.queue != [] && Consume(s, c) == (u, o)
    requires Possible(s, c) && Smooth(c.walk)
    ensures Draining(u, tab, Rest(q), more) && u.tree == s.tree
    ensures OptSeq(o) == if q == [] then [] else ToldOf(tab, q[0])
  {
    if q != [] {
      more := DrainStep(s, tab, q, rest, c, u, o);
    } else {
      assert [] + rest == rest;
      QuietDraining(s, tab, rest, c, u, o);
      more := rest[1..];
    }
  }

  /** After some records, the rest still drains, and what was reported is what they told. */
  lemma {:induction false} DrainPart(s: State, tab: map<Wd, Dir>, q: seq<KEvent>, rest: seq<KEvent>, cs: seq<Choice>, t: State, outs: seq<RawEvent>)
    returns (k: nat, more: seq<KEvent>)
    requires Draining(s, tab, q, rest) && ValidRun(s, cs) && DrainQueue(s, cs) == (t, outs)
    ensures k <= |q| && (k < |q| ==> k == |cs|)
    ensures Draining(t, tab, q[k..], more) && outs == Told(tab, q[..k]) && t.tree == s.tree
    decreases |cs|
  {
    if cs == [] || s.queue == [] {
      k, more := 0, rest;
      assert q[0..] == q;
    } else {
      var (u, o) := Consume(s, cs[0]);
      var later := DrainFirst(s, cs, t, outs, u, o);
      var rest' := PartStep(s, tab, q, rest, cs[0], u, o);
      k, more := DrainPart(u, tab, Rest(q), rest', cs[1..], t, later);
      if q != [] {
        SplitTold(tab, q, k);
        k := k + 1;
      }
    }
  }

  // ---- a state in which at most one walk is due ----------------------------------------------

  /** At or below what has arrived and is not watched yet. */
  predicate Due(e: Option<Dir>, c: Dir) {
    e.Some? && e.value <= c
  }

  predicate NoWalkQueued(q: seq<KEvent>) {
    forall ev :: ev in q ==> !Starts(ev)
  }

  /** A walk is the last record with a name. */
  ghost predicate WalkLast(q: seq<KEvent>) {
    forall i, j :: 0 <= i < j < |q| && q[j].Named? ==> !Starts(q[i])
  }

  /** Nothing is left to sweep, and a walk comes last. */
  ghost predicate WalkAtMost(q: seq<KEvent>) {
    WalkLast(q) && forall ev :: ev in q ==> !Sweeps(ev)
  }

  /** Each record finds an entry, and none is cleared before. */
  ghost predicate EntriesStand(s: State) {
    forall j :: 0 <= j < |s.queue| && s.queue[j].Named? ==>
      s.queue[j].wd in s.table && Ignored(s.queue[j].wd) !in s.queue[..j]
  }

  /** The queue walks what is due, and nothing else. */
  ghost predicate WalksDue(s: State, e: Option<Dir>) {
    && (forall ev :: ev in s.queue && Starts(ev) ==> e.Some? && PathOf(s.table, ev) == e.value)
    && (e.Some? ==> exists ev :: ev in s.queue && Starts(ev) && PathOf(s.table, ev) == e.value)
  }

  /** Everything agrees but for what is due. */
  ghost predicate Midway(s: State, e: Option<Dir>) {
    && Bookkeeping(s) && WalkAtMost(s.queue) && EntriesStand(s) && WalksDue(s, e)
    && (forall c :: c in s.tree ==> if Due(e, c) then s.tree[c] !in s.watches else Right(s, c))
    && (forall i :: i in s.watches ==> i in s.tree.Values)
  }

  /** For a second operation it is as if what is due had just been moved in. */
  function StandIn(e: Option<Dir>): Op {
    if e.Some? then MoveIn(e.value, map[], 0) else Chmod([])
  }

  lemma {:induction false} DueIsWalked(tab: map<Wd, Dir>, q: seq<KEvent>, ev: KEvent, c: Dir)
    requires ev in q && StartsAt(tab, ev, c) && forall x :: x in q ==> !Sweeps(x)
    ensures LastTouch(tab, q, c) == WalkedLast
  {
    assert forall x :: x in q[1..] ==> x in q;
    NotSwept(tab, q[1..], c);
    if ev != q[0] {
      assert ev in q[1..];
      DueIsWalked(tab, q[1..], ev, c);
    }
  }

  lemma {:induction false} NotTouched(tab: map<Wd, Dir>, q: seq<KEvent>, c: Dir)
    requires forall ev :: ev in q ==> !SweepsAt(tab, ev, c) && !StartsAt(tab, ev, c)
    ensures LastTouch(tab, q, c) == LeftAlone
  {
    if q != [] {
      assert q[0] in q && forall ev :: ev in q[1..] ==> ev in q;
      NotTouched(tab, q[1..], c);
    }
  }

  lemma MidwayTouch(s: State, e: Option<Dir>, c: Dir)
    requires Midway(s, e)
    ensures LastTouch(s.table, s.queue, c) == if Due(e, c) then WalkedLast else LeftAlone
  {
    if Due(e, c) {
      var ev :| ev in s.queue && Starts(ev) && PathOf(s.table, ev) == e.value;
      DueIsWalked(s.table, s.queue, ev, c);
    } else {
      NotTouched(s.table, s.queue, c);
    }
  }

  lemma MidwayEars(s: State, e: Option<Dir>)
    requires Midway(s, e)
    ensures Ears(s.table, StandIn(e), s)
  {
    forall d | d in s.tree
      ensures Hears(s, d) <==> KnownBefore(StandIn(e), d)
      ensures Hears(s, d) ==> s.watches[s.tree[d]] in s.table && s.table[s.watches[s.tree[d]]] == d
    {
      assert ArrivesAt(StandIn(e), d) <==> Due(e, d);
    }
  }

  // ---- a second operation in such a state ------------------------------------------------------

  ghost predicate Struck(s: State, e: Option<Dir>, op: Op, g: State) {
    Midway(s, e) && Enabled(s, op) && g == Outcome(s, op)
  }

  lemma StruckFacts(s: State, e: Option<Dir>, op: Op, g: State)
    requires Struck(s, e, op, g)
    ensures IsTree(g.tree) && Bookkeeping(g) && Transplanted(s, op, g.tree)
    ensures BelowRoot(op) && Speakers(op, s) && Ears(s.table, StandIn(e), s)
  {
    TreeAfter(s, op);
    ApplyBookkeeping(s, op);
    SpeakersStay(s, op);
    MidwayEars(s, e);
  }

  lemma EarlierKeeps(s: State, e: Option<Dir>, op: Op, g: State, c: Dir)
    requires Struck(s, e, op, g) && c in g.tree && (ArrivesAt(op, c) ==> Due(e, c))
    ensures Kept(g, s.table, s.queue, c)
  {
    MidwayTouch(s, e, c);
    if !Due(e, c) {
      StruckFacts(s, e, op, g);
      StillRight(s, op, g, c);
    }
  }

  lemma StruckKeeps(s: State, e: Option<Dir>, op: Op, g: State, q: seq<KEvent>, c: Dir)
    requires Struck(s, e, op, g) && c in g.tree && q == Records(s, op)
    ensures Kept(g, s.table, s.queue + q, c)
  {
    StruckFacts(s, e, op, g);
    if ArrivesAt(op, c) && !Due(e, c) {
      SecondArrival(s.table, StandIn(e), s, op, c);
    } else {
      SecondSweep(s.table, StandIn(e), s, op, c);
      EarlierKeeps(s, e, op, g, c);
    }
    KeptConcat(g, s.table, s.queue, q, c);
  }

  lemma StruckRoots(s: State, e: Option<Dir>, op: Op, g: State, i: Ino)
    requires Struck(s, e, op, g) && i in g.watches
    ensures Rooted(g, s.table, s.queue + Records(s, op), i)
  {
    StruckFacts(s, e, op, g);
    assert i in s.watches && i !in Dying(s, op);
    var o :| o in s.tree && s.tree[o] == i;
    assert Right(s, o);
    if LeavesFrom(op, o) {
      SecondCovers(s.table, StandIn(e), s, op, o);
      CoveredConcat(s.table, s.queue, Records(s, op), o);
    } else {
      assert g.tree[o] == i;
    }
  }

  lemma EarlierSteady(s: State, g: State, j: nat)
    requires WalkAtMost(s.queue) && EntriesStand(s) && g.table == s.table
    requires j < |s.queue| && s.queue[j].Named?
    ensures Steady(g, s.table, s.queue[..j], s.queue[j].wd)
  {
    NoWalkBefore(s.table, s.queue[..j], s.table[s.queue[j].wd]);
  }

  lemma LaterSteady(s: State, e: Option<Dir>, op: Op, g: State, q: seq<KEvent>, k: nat)
    requires Struck(s, e, op, g) && q == Records(s, op) && k < |q| && q[k].Named?
    ensures Steady(g, s.table, s.queue + q[..k], q[k].wd)
  {
    StruckFacts(s, e, op, g);
    var m := NamedRecord(s, op, q[k]);
    SpeakerLives(s, op, g, m);
    InFront(s.queue, q, k);
    EarSteady(s.table, StandIn(e), s, m.dir, g, s.queue + q[..k]);
  }

  lemma StruckAllSteady(s: State, e: Option<Dir>, op: Op, g: State, q: seq<KEvent>)
    requires Struck(s, e, op, g) && q == Records(s, op)
    ensures AllSteady(g, s.table, s.queue + q)
  {
    forall j | 0 <= j < |s.queue| && s.queue[j].Named?
      ensures Steady(g, s.table, s.queue[..j], s.queue[j].wd)
    {
      EarlierSteady(s, g, j);
    }
    forall k | 0 <= k < |q| && q[k].Named?
      ensures Steady(g, s.table, s.queue + q[..k], q[k].wd)
    {
      LaterSteady(s, e, op, g, q, k);
    }
    SteadyConcat(g, s.table, s.queue, q);
  }

  lemma StruckAllKept(s: State, e: Option<Dir>, op: Op, g: State, q: seq<KEvent>)
    requires Struck(s, e, op, g) && q == Records(s, op)
    ensures AllKept(g, s.table, s.queue + q)
  {
    forall c | c in g.tree
      ensures Kept(g, s.table, s.queue + q, c)
    {
      StruckKeeps(s, e, op, g, q, c);
    }
  }

  lemma StruckAllRooted(s: State, e: Option<Dir>, op: Op, g: State, q: seq<KEvent>)
    requires Struck(s, e, op, g) && q == Records(s, op)
    ensures AllRooted(g, s.table, s.queue + q)
  {
    forall i | i in g.watches
      ensures Rooted(g, s.table, s.queue + q, i)
    {
      StruckRoots(s, e, op, g, i);
    }
  }

  lemma StruckQueue(s: State, e: Option<Dir>, op: Op, g: State, q: seq<KEvent>)
    requires Struck(s, e, op, g) && q == Records(s, op)
    ensures g.queue == s.queue + q && Bookkeeping(g)
  {
    ApplyBookkeeping(s, op);
  }

  lemma StruckDraining(s: State, e: Option<Dir>, op: Op, g: State, q: seq<KEvent>)
    requires Struck(s, e, op, g) && q == Records(s, op)
    ensures Draining(g, s.table, s.queue + q, [])
  {
    StruckQueue(s, e, op, g, q);
    StruckAllKept(s, e, op, g, q);
    StruckAllRooted(s, e, op, g, q);
    StruckAllSteady(s, e, op, g, q);
    DrainingWhole(g, s.table, s.queue + q);
  }

  lemma StruckTold(s: State, e: Option<Dir>, op: Op, g: State)
    requires Struck(s, e, op, g)
    ensures Told(s.table, s.queue + Records(s, op)) ==
      Told(s.table, s.queue) + AllHeardLate(StandIn(e), Messages(op))
  {
    StruckFacts(s, e, op, g);
    ToldConcat(s.table, s.queue, Records(s, op));
    ToldRecords(s.table, s, op);
    ToldSecond(s.table, StandIn(e), s, Messages(op));
  }

  // ---- such a state is what reading the first operation's records leads to ----------------------

  lemma HeadHeard(st: State, op: Op)
    requires Agreement(st) && Enabled(st, op) && op.Rename?
    ensures var q, ms := Records(st, op), Messages(op);
      |q| >= 2 && q[0] == RecordOf(st, ms[0]) && q[1] == RecordOf(st, ms[1])
  {
    var ms := Messages(op);
    SaidRight(st, op);
    assert ms[0] in ms && ms[1] in ms;
    HeardTwo(st, ms[0], ms[1]);
  }

  /** Only a rename's walk is not the first record. */
  lemma LaterWalk(st: State, op: Op, j: nat)
    requires Agreement(st) && Enabled(st, op) && 0 < j < |Records(st, op)|
    ensures Starts(Records(st, op)[j]) ==> op.Rename? && j == 1
  {
    var ms := Messages(op);
    NamelessQuiet(st, op);
    SaidRight(st, op);
    if |ms| == 1 {
      HeardTwo(st, ms[0], ms[0]);
    } else if |ms| == 2 {
      HeardTwo(st, ms[0], ms[1]);
    }
  }

  /** The path of a walk, or of a sweep, that a rename asks for. */
  lemma RenamePaths(st: State, op: Op, ev: KEvent)
    requires Agreement(st) && Enabled(st, op) && op.Rename? && ev in Records(st, op)
    ensures Starts(ev) ==> PathOf(st.table, ev) == op.e
    ensures Sweeps(ev) ==> PathOf(st.table, ev) == op.d
  {
    if ev.Named? {
      var m := NamedRecord(st, op, ev);
      SaidRight(st, op);
      ParentAndLast(op.d);
      ParentAndLast(op.e);
    }
  }

  lemma HeadSweeps(f: State, c: Choice, s: State, o: Option<RawEvent>, p: Dir)
    requires WdsOk(f) && f.queue != [] && Sweeps(f.queue[0]) && f.queue[0].wd in f.table
    requires PathOf(f.table, f.queue[0]) == p
    requires Possible(f, c) && Smooth(c.walk) && Consume(f, c) == (s, o)
    ensures SweptOff(f, s, p)
  {
    SweepEffect(f, f.queue[1..], p, c.order);
  }

  lemma FirstHalf(st: State, op: Op)
    requires Agreement(st) && Enabled(st, op) && op.Rename?
    ensures var q := Records(st, op);
      q != [] && Sweeps(q[0]) && q[0].wd in st.table && PathOf(st.table, q[0]) == op.d
  {
    var q := Records(st, op);
    HeadHeard(st, op);
    assert q[0] in q;
    RenamePaths(st, op, q[0]);
    SaidRight(st, op);
    assert Messages(op)[0] in Messages(op);
  }

  /** Once the first half of a rename is read, what moved is not watched any more. */
  lemma MovedIsSwept(st: State, op: Op, f: State, c: Choice, s: State, o: Option<RawEvent>, d: Dir)
    requires Agreement(st) && Enabled(st, op) && op.Rename? && f == Outcome(st, op)
    requires f.queue != [] && Possible(f, c) && Smooth(c.walk) && Consume(f, c) == (s, o)
    requires d in f.tree && op.e <= d
    ensures s.tree == f.tree && s.tree[d] !in s.watches
  {
    FirstFacts(st, op);
    FirstHalf(st, op);
    assert [] + Records(st, op) == Records(st, op);
    HeadSweeps(f, c, s, o, op.d);
    ArrivedHeard(st, op, f, d);
    assert op.d <= Origin(op, d);
  }

  /** `s` has read `k` records of `op`, at least one if there are any. */
  ghost predicate Part(st: State, op: Op, f: State, k: nat, s: State, more: seq<KEvent>) {
    && Agreement(st) && Enabled(st, op) && f == Outcome(st, op)
    && k <= |Records(st, op)| && (k == 0 ==> Records(st, op) == [])
    && Draining(s, st.table, Records(st, op)[k..], more) && s.tree == f.tree
  }

  /** What moved is not watched while its walk is queued. */
  ghost predicate MovedUnwatched(op: Op, s: State) {
    op.Rename? && !NoWalkQueued(s.queue) ==> forall c :: c in s.tree && op.e <= c ==> s.tree[c] !in s.watches
  }

  /** Where the walk still queued will begin. */
  function DueAfter(op: Op, q: seq<KEvent>): Option<Dir> {
    if op.Rename? && !NoWalkQueued(q) then Some(op.e) else None
  }

  lemma PartRecord(st: State, op: Op, f: State, k: nat, s: State, more: seq<KEvent>, j: nat)
    requires Part(st, op, f, k, s, more) && j < |s.queue|
    ensures !Sweeps(s.queue[j])
    ensures s.queue[j].Named? ==> k + j < |Records(st, op)| && s.queue[j] == Records(st, op)[k + j]
  {
    var q0 := Records(st, op);
    if k + j < |q0| {
      assert s.queue[j] == q0[k..][j] == q0[k + j];
      SweepIsFirst(st, op, k + j);
    } else {
      assert s.queue[j] in more;
    }
  }

  lemma WalkLastTail(q: seq<KEvent>, k: nat, more: seq<KEvent>)
    requires WalkLast(q) && k <= |q| && Quiet(more)
    ensures WalkLast(q[k..] + more)
  {
    var t := q[k..] + more;
    assert forall x :: |q| - k <= x < |t| ==> t[x] in more;
    forall i, j | 0 <= i < j < |t| && t[j].Named?
      ensures !Starts(t[i])
    {
      assert t[i] == q[k + i] && t[j] == q[k + j];
    }
  }

  lemma PartWalkAtMost(st: State, op: Op, f: State, k: nat, s: State, more: seq<KEvent>)
    requires Part(st, op, f, k, s, more)
    ensures WalkAtMost(s.queue)
  {
    var q := Records(st, op);
    forall ev | ev in s.queue
      ensures !Sweeps(ev)
    {
      var j :| 0 <= j < |s.queue| && s.queue[j] == ev;
      PartRecord(st, op, f, k, s, more, j);
    }
    forall i, j | 0 <= i < j < |q| && q[j].Named?
      ensures !Starts(q[i])
    {
      WalkIsLast(st, op, i, j);
    }
    WalkLastTail(q, k, more);
  }

  /** Each record still has the entry it had at the beginning. */
  lemma PartEntries(st: State, op: Op, f: State, k: nat, s: State, more: seq<KEvent>)
    requires Part(st, op, f, k, s, more)
    ensures EntriesStand(s)
    ensures forall ev :: ev in s.queue && ev.Named? ==> PathOf(s.table, ev) == PathOf(st.table, ev)
  {
    var q := Records(st, op)[k..];
    forall j | 0 <= j < |s.queue| && s.queue[j].Named?
      ensures s.queue[j].wd in s.table && Ignored(s.queue[j].wd) !in s.queue[..j]
      ensures PathOf(s.table, s.queue[j]) == PathOf(st.table, s.queue[j])
    {
      PartRecord(st, op, f, k, s, more, j);
      assert q[j] == s.queue[j] && s.queue[..j] == q[..j];
      assert Steady(s, st.table, q[..j], q[j].wd);
    }
  }

  /** A walk that is still queued is that of a rename. */
  lemma PartWalk(st: State, op: Op, f: State, k: nat, s: State, more: seq<KEvent>, ev: KEvent)
    requires Part(st, op, f, k, s, more) && ev in s.queue && Starts(ev)
    ensures op.Rename? && k == 1 && PathOf(s.table, ev) == PathOf(st.table, ev) == op.e
  {
    var j :| 0 <= j < |s.queue| && s.queue[j] == ev;
    PartRecord(st, op, f, k, s, more, j);
    LaterWalk(st, op, k + j);
    RenamePaths(st, op, ev);
    PartEntries(st, op, f, k, s, more);
  }

  lemma PartWalksDue(st: State, op: Op, f: State, k: nat, s: State, more: seq<KEvent>)
    requires Part(st, op, f, k, s, more)
    ensures WalksDue(s, DueAfter(op, s.queue))
  {
    forall ev | ev in s.queue && Starts(ev)
      ensures op.Rename? && PathOf(s.table, ev) == op.e
    {
      PartWalk(st, op, f, k, s, more, ev);
    }
  }

  lemma PartDirs(st: State, op: Op, f: State, k: nat, s: State, more: seq<KEvent>, c: Dir)
    requires Part(st, op, f, k, s, more) && c in s.tree && !Due(DueAfter(op, s.queue), c)
    ensures Right(s, c)
  {
    var q := Records(st, op)[k..];
    forall ev | ev in q
      ensures !SweepsAt(st.table, ev, c) && !StartsAt(st.table, ev, c)
    {
      PartWalkAtMost(st, op, f, k, s, more);
      assert ev in s.queue;
      if Starts(ev) {
        PartWalk(st, op, f, k, s, more, ev);
      }
    }
    NotTouched(st.table, q, c);
    assert Kept(s, st.table, q, c);
  }

  lemma PartWatches(st: State, op: Op, f: State, k: nat, s: State, more: seq<KEvent>, i: Ino)
    requires Part(st, op, f, k, s, more) && i in s.watches
    ensures i in s.tree.Values
  {
    PartWalkAtMost(st, op, f, k, s, more);
    assert forall ev :: ev in Records(st, op)[k..] ==> ev in s.queue;
    assert Rooted(s, st.table, Records(st, op)[k..], i);
  }

  lemma PartIsMidway(st: State, op: Op, f: State, k: nat, s: State, more: seq<KEvent>)
    requires Part(st, op, f, k, s, more) && MovedUnwatched(op, s)
    ensures Midway(s, DueAfter(op, s.queue))
  {
    PartWalkAtMost(st, op, f, k, s, more);
    PartEntries(st, op, f, k, s, more);
    PartWalksDue(st, op, f, k, s, more);
    forall c | c in s.tree && !Due(DueAfter(op, s.queue), c)
      ensures Right(s, c)
    {
      PartDirs(st, op, f, k, s, more, c);
    }
    forall i | i in s.watches
      ensures i in s.tree.Values
    {
      PartWatches(st, op, f, k, s, more, i);
    }
  }

  // ---- what is reported in all -----------------------------------------------------------------------

  lemma {:induction false} ToldSame(tab: map<Wd, Dir>, tab': map<Wd, Dir>, q: seq<KEvent>)
    requires forall ev :: ev in q && ev.Named? ==> PathOf(tab, ev) == PathOf(tab', ev)
    ensures Told(tab, q) == Told(tab', q)
  {
    if q != [] {
      assert q[0] in q && forall ev :: ev in q[1..] ==> ev in q;
      ToldSame(tab, tab', q[1..]);
    }
  }

  /** What was told and what is still queued make up the first operation's events. */
  lemma PartTold(st: State, op: Op, f: State, k: nat, s: State, more: seq<KEvent>)
    requires Part(st, op, f, k, s, more)
    ensures Told(st.table, Records(st, op)[..k]) + Told(s.table, s.queue) == Reported(op)
  {
    var q := Records(st, op);
    PartEntries(st, op, f, k, s, more);
    ToldSame(s.table, st.table, s.queue);
    ToldConcat(st.table, q[k..], more);
    ToldQuiet(st.table, more);
    assert q == q[..k] + q[k..];
    ToldConcat(st.table, q[..k], q[k..]);
    OneTold(st, op);
    assert Told(st.table, q[k..]) + [] == Told(st.table, q[k..]);
  }

  /** Nothing arrives without a walk being queued. */
  lemma ArrivalIsQueued(st: State, op: Op, d: Dir)
    requires Agreement(st) && Enabled(st, op) && ArrivesAt(op, d)
    ensures !NoWalkQueued(Records(st, op))
  {
    var front, m := SaysArrival(op, d);
    assert m in front + [m];
    SaidRight(st, op);
    SaidIsHeard(st, Messages(op), m);
    assert Starts(RecordOf(st, m)) && RecordOf(st, m) in Records(st, op);
  }

  // ---- the theorem --------------------------------------------------------------------------------------

  /** After `op1` and the records that `cs` took, `op2`. */
  ghost predicate Overtakes(st: State, op1: Op, f: State, cs: seq<Choice>, s: State, outs: seq<RawEvent>, op2: Op, g: State) {
    && Agreement(st) && Enabled(st, op1) && f == Apply(st, op1)
    && ValidRun(f, cs) && DrainQueue(f, cs) == (s, outs)
    && Enabled(s, op2) && g == Apply(s, op2)
  }

  lemma SomeRead(st: State, op1: Op, f: State, cs: seq<Choice>, s: State, outs: seq<RawEvent>) returns (k: nat, more: seq<KEvent>)
    requires Agreement(st) && Enabled(st, op1) && f == Outcome(st, op1) && cs != []
    requires ValidRun(f, cs) && DrainQueue(f, cs) == (s, outs)
    ensures Part(st, op1, f, k, s, more) && outs == Told(st.table, Records(st, op1)[..k])
    ensures k < |Records(st, op1)| ==> k == |cs|
  {
    OneDraining(st, op1, f);
    k, more := DrainPart(f, st.table, Records(st, op1), [], cs, s, outs);
  }

  lemma ReadOne(f: State, cs: seq<Choice>, s: State, outs: seq<RawEvent>)
    requires |cs| == 1 && f.queue != [] && ValidRun(f, cs) && DrainQueue(f, cs) == (s, outs)
    ensures Possible(f, cs[0]) && Smooth(cs[0].walk) && Consume(f, cs[0]).0 == s
  {
    assert cs[1..] == [];
  }

  lemma MovedAway(st: State, op1: Op, f: State, cs: seq<Choice>, s: State, outs: seq<RawEvent>, k: nat, more: seq<KEvent>)
    requires Part(st, op1, f, k, s, more) && (k < |Records(st, op1)| ==> k == |cs|)
    requires ValidRun(f, cs) && DrainQueue(f, cs) == (s, outs)
    ensures MovedUnwatched(op1, s)
  {
    if op1.Rename? && !NoWalkQueued(s.queue) {
      var ev :| ev in s.queue && Starts(ev);
      PartWalk(st, op1, f, k, s, more, ev);
      HeadHeard(st, op1);
      assert [] + Records(st, op1) == Records(st, op1);
      ReadOne(f, cs, s, outs);
      forall c | c in s.tree && op1.e <= c
        ensures s.tree[c] !in s.watches
      {
        MovedIsSwept(st, op1, f, cs[0], s, Consume(f, cs[0]).1, c);
      }
    }
  }

  /** Something was read in between. */
  lemma PartlyRead(st: State, op1: Op, f: State, cs: seq<Choice>, s: State, outs: seq<RawEvent>) returns (e: Option<Dir>)
    requires Agreement(st) && Enabled(st, op1) && f == Outcome(st, op1) && cs != []
    requires ValidRun(f, cs) && DrainQueue(f, cs) == (s, outs)
    ensures Midway(s, e) && outs + Told(s.table, s.queue) == Reported(op1)
    ensures if NoWalkQueued(s.queue) then e == None else op1.Rename? && e == Some(op1.e)
  {
    var k, more := SomeRead(st, op1, f, cs, s, outs);
    MovedAway(st, op1, f, cs, s, outs, k, more);
    PartIsMidway(st, op1, f, k, s, more);
    PartTold(st, op1, f, k, s, more);
    e := DueAfter(op1, s.queue);
    if !NoWalkQueued(s.queue) {
      var ev :| ev in s.queue && Starts(ev);
      PartWalk(st, op1, f, k, s, more, ev);
    }
  }

  lemma StruckSettles(s: State, e: Option<Dir>, op: Op, g: State, cs: seq<Choice>)
    requires Struck(s, e, op, g) && ValidRun(g, cs)
    ensures Settles(g, cs, Told(s.table, s.queue) + AllHeardLate(StandIn(e), Messages(op)), Budget(g.queue, |s.table|, |g.tree|))
  {
    StruckDraining(s, e, op, g, Records(s, op));
    StruckTold(s, e, op, g);
    DrainsTo(g, s.table, g.queue, cs, Told(s.table, s.queue) + AllHeardLate(StandIn(e), Messages(op)),
      |s.table|, Budget(g.queue, |s.table|, |g.tree|));
  }

  lemma LateRight(first: seq<RawEvent>, told: seq<RawEvent>, op1: Op, e: Option<Dir>, op2: Op, q: seq<KEvent>)
    requires BelowRoot(op2) && first + told == Reported(op1)
    requires if NoWalkQueued(q) then e == None else op1.Rename? && e == Some(op1.e)
    ensures first + (told + AllHeardLate(StandIn(e), Messages(op2))) == Reported(op1) + Reported(op2) <==>
      NoWalkQueued(q) || NoneBelow(op1, op2)
  {
    var late := AllHeardLate(StandIn(e), Messages(op2));
    ReportedIsSaid(op2);
    AllHeardLateRight(StandIn(e), Messages(op2));
    assert first + (told + late) == Reported(op1) + late;
    var a, x, y := Reported(op1), late, Reported(op2);
    assert (a + x)[|a|..] == x && (a + y)[|a|..] == y;
  }

  lemma LateConcludes(first: seq<RawEvent>, told: seq<RawEvent>, op1: Op, e: Option<Dir>, op2: Op, q: seq<KEvent>,
      g: State, cs: seq<Choice>, n: nat, t: State, outs: seq<RawEvent>)
    requires BelowRoot(op2) && first + told == Reported(op1)
    requires if NoWalkQueued(q) then e == None else op1.Rename? && e == Some(op1.e)
    requires Settles(g, cs, told + AllHeardLate(StandIn(e), Messages(op2)), n) && DrainQueue(g, cs) == (t, outs)
    ensures t.queue == [] ==> Agreement(t)
    ensures t.queue == [] ==>
      (first + outs == Reported(op1) + Reported(op2) <==> NoWalkQueued(q) || NoneBelow(op1, op2))
    ensures |cs| >= n ==> t.queue == []
  {
    LateRight(first, told, op1, e, op2, q);
  }

  lemma AfterSome(st: State, op1: Op, f: State, cs: seq<Choice>, s: State, outs: seq<RawEvent>, op2: Op, g: State, later: seq<Choice>)
    returns (e: Option<Dir>)
    requires Overtakes(st, op1, f, cs, s, outs, op2, g) && cs != [] && ValidRun(g, later)
    ensures BelowRoot(op2) && outs + Told(s.table, s.queue) == Reported(op1)
    ensures if NoWalkQueued(s.queue) then e == None else op1.Rename? && e == Some(op1.e)
    ensures Settles(g, later, Told(s.table, s.queue) + AllHeardLate(StandIn(e), Messages(op2)),
      Budget(g.queue, |s.table|, |g.tree|))
  {
    ApplyIsOutcome(st, op1);
    e := PartlyRead(st, op1, f, cs, s, outs);
    ApplyIsOutcome(s, op2);
    StruckSettles(s, e, op2, g, later);
  }

  lemma AfterNone(st: State, op1: Op, f: State, op2: Op, g: State, later: seq<Choice>)
    requires Agreement(st) && Enabled(st, op1) && f == Apply(st, op1) && Enabled(f, op2) && g == Apply(f, op2)
    requires ValidRun(g, later)
    ensures BelowRoot(op2) && (op1.Rename? ==> op1.d != op1.e) && (NoWalkQueued(f.queue) ==> NoneBelow(op1, op2))
    ensures Settles(g, later, Reported(op1) + AllHeardLate(op1, Messages(op2)), Budget(g.queue, |f.table|, |g.tree|))
  {
    AreOutcomes(st, op1, f, op2, g);
    SecondFacts(st, op1, f, op2, g);
    BothReady(st, op1, f, op2, g, g.queue, |g.tree|);
    DrainsTo(g, st.table, g.queue, later, Reported(op1) + AllHeardLate(op1, Messages(op2)),
      |f.table|, Budget(g.queue, |f.table|, |g.tree|));
    assert f.queue == [] + Records(st, op1) == Records(st, op1);
    if NoWalkQueued(f.queue) {
      forall m | m in Messages(op2)
        ensures !ArrivesAt(op1, m.dir)
      {
        if ArrivesAt(op1, m.dir) {
          ArrivalIsQueued(st, op1, m.dir);
        }
      }
    }
  }

  lemma NothingRead(st: State, op1: Op, f: State, cs: seq<Choice>, s: State, outs: seq<RawEvent>, op2: Op, g: State, later: seq<Choice>)
    requires Overtakes(st, op1, f, cs, s, outs, op2, g) && cs == [] && ValidRun(g, later)
    ensures s == f && outs == []
    ensures BelowRoot(op2) && (op1.Rename? ==> op1.d != op1.e) && (NoWalkQueued(s.queue) ==> NoneBelow(op1, op2))
    ensures Settles(g, later, Reported(op1) + AllHeardLate(op1, Messages(op2)), Budget(g.queue, |s.table|, |g.tree|))
  {
    AfterNone(st, op1, f, op2, g, later);
  }

  lemma UnreadConcludes(first: seq<RawEvent>, op1: Op, op2: Op, q: seq<KEvent>,
      g: State, cs: seq<Choice>, n: nat, t: State, outs: seq<RawEvent>)
    requires first == [] && BelowRoot(op2) && (op1.Rename? ==> op1.d != op1.e) && (NoWalkQueued(q) ==> NoneBelow(op1, op2))
    requires Settles(g, cs, Reported(op1) + AllHeardLate(op1, Messages(op2)), n) && DrainQueue(g, cs) == (t, outs)
    ensures t.queue == [] ==> Agreement(t)
    ensures t.queue == [] ==>
      (first + outs == Reported(op1) + Reported(op2) <==> NoWalkQueued(q) || NoneBelow(op1, op2))
    ensures |cs| >= n ==> t.queue == []
  {
    Concludes(op1, op2, g, cs, t, outs, n);
    assert [] + outs == outs;
  }

  lemma OvertakesUnread(st: State, op1: Op, f: State, cs: seq<Choice>, s: State, outs: seq<RawEvent>,
      op2: Op, g: State, later: seq<Choice>, t: State, outs2: seq<RawEvent>)
    requires Overtakes(st, op1, f, cs, s, outs, op2, g) && cs == []
    requires ValidRun(g, later) && DrainQueue(g, later) == (t, outs2)
    ensures t.queue == [] ==> Agreement(t)
    ensures t.queue == [] ==>
      (outs + outs2 == Reported(op1) + Reported(op2) <==> NoWalkQueued(s.queue) || NoneBelow(op1, op2))
    ensures |later| >= Budget(g.queue, |s.table|, |g.tree|) ==> t.queue == []
  {
    NothingRead(st, op1, f, cs, s, outs, op2, g, later);
    UnreadConcludes(outs, op1, op2, s.queue, g, later, Budget(g.queue, |s.table|, |g.tree|), t, outs2);
  }

  lemma OvertakesRead(st: State, op1: Op, f: State, cs: seq<Choice>, s: State, outs: seq<RawEvent>,
      op2: Op, g: State, later: seq<Choice>, t: State, outs2: seq<RawEvent>)
    requires Overtakes(st, op1, f, cs, s, outs, op2, g) && cs != []
    requires ValidRun(g, later) && DrainQueue(g, later) == (t, outs2)
    ensures t.queue == [] ==> Agreement(t)
    ensures t.queue == [] ==>
      (outs + outs2 == Reported(op1) + Reported(op2) <==> NoWalkQueued(s.queue) || NoneBelow(op1, op2))
    ensures |later| >= Budget(g.queue, |s.table|, |g.tree|) ==> t.queue == []
  {
    var e := AfterSome(st, op1, f, cs, s, outs, op2, g, later);
    LateConcludes(outs, Told(s.table, s.queue), op1, e, op2, s.queue, g, later,
      Budget(g.queue, |s.table|, |g.tree|), t, outs2);
  }

  /** A second operation at any moment, whatever has been read of the first: once all is
      drained, which takes a bounded number of records, the table agrees. What was reported is
      what was done if and only if no walk was still to come when the second operation
      happened, or no directory whose watch has to speak of it is, or is below, what the first
      made, moved in or renamed to. */
  lemma SecondAtAnyTime(st: State, op1: Op, f: State, cs: seq<Choice>, s: State, outs: seq<RawEvent>,
      op2: Op, g: State, later: seq<Choice>, t: State, outs2: seq<RawEvent>)
    requires Overtakes(st, op1, f, cs, s, outs, op2, g) && ValidRun(g, later) && DrainQueue(g, later) == (t, outs2)
    ensures t.queue == [] ==> Agreement(t)
    ensures t.queue == [] ==>
      (outs + outs2 == Reported(op1) + Reported(op2) <==> NoWalkQueued(s.queue) || NoneBelow(op1, op2))
    ensures |later| >= Budget(g.queue, |s.table|, |g.tree|) ==> t.queue == []
  {
    if cs == [] {
      OvertakesUnread(st, op1, f, cs, s, outs, op2, g, later, t, outs2);
    } else {
      OvertakesRead(st, op1, f, cs, s, outs, op2, g, later, t, outs2);
    }
  }

  // ---- every run of ones and twos --------------------------------------------------------------------------

  /** One operation and the processing of its records; or two, the second after `read` was
      processed of the first one's. */
  datatype Turn = One(op: Op, cs: seq<Choice>) | Two(op: Op, read: seq<Choice>, next: Op, cs: seq<Choice>)

  /** When the second operation comes. */
  function Mid(st: State, t: Turn): (State, seq<RawEvent>)
    requires t.Two? && Enabled(st, t.op)
  {
    DrainQueue(Apply(st, t.op), t.read)
  }

  ghost predicate CanTurn(st: State, t: Turn) {
    match t
    case One(op, cs) => Enabled(st, op) && ValidRun(Apply(st, op), cs)
    case Two(op, read, next, cs) =>
      && Enabled(st, op) && ValidRun(Apply(st, op), read)
      && Enabled(Mid(st, t).0, next) && ValidRun(Apply(Mid(st, t).0, next), cs)
  }

  /** The state after a turn, and what was reported. */
  ghost function Turned(st: State, t: Turn): (State, seq<RawEvent>)
    requires CanTurn(st, t)
  {
    match t
    case One(op, cs) => DrainQueue(Apply(st, op), cs)
    case Two(op, read, next, cs) =>
      var (s, outs) := Mid(st, t);
      var (u, more) := DrainQueue(Apply(s, next), cs);
      (u, outs + more)
  }

  /** All is read at the end of every turn. */
  ghost predicate DrainedTurns(st: State, ts: seq<Turn>)
    decreases |ts|
  {
    ts == [] || (CanTurn(st, ts[0]) && Turned(st, ts[0]).0.queue == [] && DrainedTurns(Turned(st, ts[0]).0, ts[1..]))
  }

  ghost function RunTurns(st: State, ts: seq<Turn>): (State, seq<RawEvent>)
    requires DrainedTurns(st, ts)
    decreases |ts|
  {
    if ts == [] then (st, [])
    else
      var (t, outs) := Turned(st, ts[0]);
      var (u, more) := RunTurns(t, ts[1..]);
      (u, outs + more)
  }

  function DoneIn(t: Turn): seq<RawEvent> {
    if t.One? then Reported(t.op) else Reported(t.op) + Reported(t.next)
  }

  function DoneInAll(ts: seq<Turn>): seq<RawEvent> {
    if ts == [] then [] else DoneIn(ts[0]) + DoneInAll(ts[1..])
  }

  /** No second operation speaks from at or below what its first brought. */
  ghost predicate Apart(ts: seq<Turn>) {
    forall t :: t in ts && t.Two? ==> BelowRoot(t.next) && NoneBelow(t.op, t.next)
  }

  lemma TurnAgrees(st: State, t: Turn, u: State, outs: seq<RawEvent>)
    requires Agreement(st) && CanTurn(st, t) && Turned(st, t) == (u, outs) && u.queue == []
    ensures Agreement(u)
    ensures Apart([t]) ==> outs == DoneIn(t)
  {
    match t
    case One(op, cs) => OperationSettles(st, op, cs);
    case Two(op, read, next, cs) =>
      var f := Apply(st, op);
      var (s, outs1) := Mid(st, t);
      var g := Apply(s, next);
      SecondAtAnyTime(st, op, f, read, s, outs1, next, g, cs, u, DrainQueue(g, cs).1);
      assert t in [t];
  }

  /** So every run that never has more than two operations in hand keeps table and tree in
      agreement, and reports what was done wherever the two are apart. */
  lemma {:induction false} AgreesInTurns(st: State, ts: seq<Turn>)
    requires Agreement(st) && DrainedTurns(st, ts)
    ensures Agreement(RunTurns(st, ts).0)
    ensures Apart(ts) ==> RunTurns(st, ts).1 == DoneInAll(ts)
    decreases |ts|
  {
    if ts != [] {
      var (t, outs) := Turned(st, ts[0]);
      TurnAgrees(st, ts[0], t, outs);
      AgreesInTurns(t, ts[1..]);
      assert ts[0] in ts && forall x :: x in ts[1..] ==> x in ts;
    }
  }
}
