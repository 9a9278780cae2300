/** The agreement of table and tree, brought down to next_event on the byte stream. */
module EndToEnd {
  import opened Events
  import opened RelPaths
  import opened Inotify
  import opened WalkSpec
  import opened FileOps
  import opened TreeAgreement
  import opened TreeRuns
  import opened Operations
  import opened MessageRecords
  import opened UserActions
  import opened TwoUnread
  import opened Framing
  import opened Kernels
  import opened LinuxWatchers

  /** One operation, then calls of next_event until nothing is left to read: the table
      is again exactly the tree, and exactly the operation's events were reported. */
  lemma DrainedWatcherAgrees(st: State, op: Op, cs: seq<Choice>, t: State, outs: seq<RawEvent>)
    requires Agreement(st) && Enabled(st, op)
    requires Takes(Apply(st, op), cs, t, outs) && t.queue == []
    requires forall c :: c in cs ==> Smooth(c.walk) && Lists(c.walk, Apply(st, op).tree)
    ensures Agreement(t) && outs == Reported(op)
  {
    LawfulIsValid(Apply(st, op), cs);
    OperationSettles(st, op, cs);
  }

  /** Two operations, and only then the calls of next_event. */
  lemma DrainedPairAgrees(st: State, op1: Op, f: State, op2: Op, g: State, cs: seq<Choice>, t: State, outs: seq<RawEvent>)
    requires Agreement(st) && Enabled(st, op1) && f == Apply(st, op1) && Enabled(f, op2) && g == Apply(f, op2)
    requires Takes(g, cs, t, outs) && t.queue == []
    requires forall c :: c in cs ==> Smooth(c.walk) && Lists(c.walk, g.tree)
    ensures Agreement(t) && (outs == Reported(op1) + Reported(op2) <==> NoneBelow(op1, op2))
  {
    LawfulIsValid(g, cs);
    TwoUnreadOperations(st, op1, f, op2, g, cs, t, outs);
  }

  /** filecat_open on a tree that nobody watches yet: when nothing fails and the directories
      are as they are read, the watcher agrees with it. */
  method OpenWatcher(root: Path, kernel: Kernel, env: Env) returns (w: LinuxWatcher, ok: bool)
    requires IsTree(kernel.tree) && kernel.watches == map[] && kernel.queue == kernel.inFlight == []
    requires Listing(env) && Tells(env, kernel.tree) && Smooth(env.walk)
    modifies kernel`watches, kernel`nextWd, kernel`queue
    ensures fresh(w) && ok && w.Valid() && !w.closing && w.tree.root == root && w.tree.kernel == kernel
    ensures Agreement(w.Abs())
  {
    TruthIsListed(env, kernel.tree);
    OpenAgrees(kernel.tree, kernel.nextWd, env.walk);
    w := new LinuxWatcher(root, true, kernel);
    ok := w.Start(env, true, true);
  }

  // ---- watch descriptors stay writable --------------------------------------------

  /** A descriptor is a C int. */
  const WD_LIMIT := 0x8000_0000

  ghost predicate Bounded(st: State) {
    && IsTree(st.tree) && WdsOk(st)
    && forall wd: Wd :: Ignored(wd) in st.queue ==> wd < st.nextWd
  }

  /** Only IN_IGNOREDs are queued by the watcher's own doing. */
  ghost predicate QueuedSince(st: State, t: State) {
    forall ev :: ev in t.queue ==> ev in st.queue || ev.Ignored?
  }

  lemma RmWatchBounded(st: State, wd: Wd)
    requires Bounded(st)
    ensures Bounded(RmWatch(st, wd)) && QueuedSince(st, RmWatch(st, wd))
  {
    var t := RmWatch(st, wd);
    forall i, j | SameWatch(t.watches, i, j)
      ensures i == j
    {
      assert SameWatch(st.watches, i, j);
    }
  }

  lemma {:induction false} RmAllBounded(st: State, order: seq<Wd>)
    requires Bounded(st)
    ensures Bounded(RmAll(st, order)) && QueuedSince(st, RmAll(st, order))
  {
    if order != [] {
      var front := RmAll(st, order[..|order| - 1]);
      RmAllBounded(st, order[..|order| - 1]);
      RmWatchBounded(front, order[|order| - 1]);
    }
  }

  lemma WalkBounded(st: State, d: Dir, w: Walk)
    requires Bounded(st) && Lists(w, st.tree)
    ensures Bounded(WatchSubtree(st, d, w)) && WatchSubtree(st, d, w).queue == st.queue
  {
    WalkWatches(st, d, w);
  }

  lemma ConsumeBounded(st: State, c: Choice)
    requires Bounded(st) && st.queue != [] && Lists(c.walk, st.tree)
    ensures Bounded(Consume(st, c).0) && QueuedSince(st, Consume(st, c).0)
    ensures Consume(st, c).0.tree == st.tree
  {
    var s := st.(queue := st.queue[1..]);
    assert forall ev :: ev in s.queue ==> ev in st.queue;
    assert Bounded(s);
    ConsumeKeepsTree(st, c);
    RmAllBounded(s, c.order);
    var head := st.queue[0];
    if head.Named? && head.wd in s.table {
      WalkBounded(s, s.table[head.wd] + [head.name], c.walk);
    }
  }

  lemma {:induction false} DrainBounded(st: State, cs: seq<Choice>)
    requires Bounded(st) && Lawful(st, cs) && forall c :: c in cs ==> Lists(c.walk, st.tree)
    ensures Bounded(DrainQueue(st, cs).0) && QueuedSince(st, DrainQueue(st, cs).0)
    decreases |cs|
  {
    if cs != [] {
      assert cs[0] in cs && forall c :: c in cs[1..] ==> c in cs;
      ConsumeBounded(st, cs[0]);
      DrainBounded(Consume(st, cs[0]).0, cs[1..]);
    }
  }

  lemma ApplyBounded(st: State, op: Op)
    requires Agreement(st) && Enabled(st, op)
    ensures Bounded(Apply(st, op))
  {
    AgreementIsSynced(st);
    ApplyIsOutcome(st, op);
    ApplyBookkeeping(st, op);
  }

  // ---- calls of next_event until nothing is left -------------------------------------

  /** Every pass goes well: no failure, no Close, and the directory is as it is read. */
  ghost predicate GoesWell(env: Env, tree: map<Dir, Ino>, recursive: bool) {
    && Possibly(env, recursive) && Smooth(env.walk) && Tells(env, tree)
    && env.pathOk && !env.closedAtTop && !env.closedAtFill
  }

  /** The kernel can write what is queued, and any IN_IGNORED that may follow. */
  ghost predicate PlaysOn(wire: KEvent -> Record, q: seq<KEvent>) {
    && Plays(wire, q)
    && forall wd: Wd :: wd < WD_LIMIT ==> Writable(wire(Ignored(wd))) && Represents(wire(Ignored(wd)), Ignored(wd))
  }

  /** However the operation's records are processed, the descriptors stay C ints. */
  ghost predicate EnoughDescriptors(st: State) {
    forall cs :: Lawful(st, cs) ==> DrainQueue(st, cs).0.nextWd <= WD_LIMIT
  }

  lemma StillPlays(wire: KEvent -> Record, st: State, t: State, q: seq<KEvent>)
    requires PlaysOn(wire, st.queue) && Bounded(t) && QueuedSince(st, t) && t.nextWd <= WD_LIMIT
    requires forall ev :: ev in q ==> ev in t.queue
    ensures Plays(wire, q)
  {
    forall ev | ev in q
      ensures Writable(wire(ev)) && Represents(wire(ev), ev)
    {
      assert ev in t.queue;
      if ev !in st.queue {
        assert ev == Ignored(ev.wd) && ev.wd < WD_LIMIT;
      }
    }
  }

  /** What the calls made so far have done. */
  ghost predicate Progress(start: State, cs: seq<Choice>, now: State, outs: seq<RawEvent>) {
    Takes(start, cs, now, outs) && forall c :: c in cs ==> Smooth(c.walk) && Lists(c.walk, start.tree)
  }

  lemma WalksGoWell(cs: seq<Choice>, envs: nat -> Env, tree: map<Dir, Ino>, recursive: bool)
    requires Walks(cs, envs) && forall i :: GoesWell(envs(i), tree, recursive)
    ensures forall c :: c in cs ==> Smooth(c.walk) && Lists(c.walk, tree)
  {
    forall c | c in cs
      ensures Smooth(c.walk) && Lists(c.walk, tree)
    {
      var i :| 0 <= i < |cs| && cs[i] == c;
      assert GoesWell(envs(i), tree, recursive);
      TruthIsListed(envs(i), tree);
    }
  }

  lemma ProgressOn(start: State, cs: seq<Choice>, t: State, outs: seq<RawEvent>, ds: seq<Choice>, u: State, more: seq<RawEvent>)
    requires Progress(start, cs, t, outs) && Takes(t, ds, u, more)
    requires forall c :: c in ds ==> Smooth(c.walk) && Lists(c.walk, start.tree)
    ensures Progress(start, cs + ds, u, outs + more)
  {
    TakesConcat(start, cs, t, outs, ds, u, more);
  }

  /** Only so many records can be taken. */
  ghost predicate Ends(start: State, limit: nat) {
    forall cs, t, outs :: Progress(start, cs, t, outs) && t.queue != [] ==> |cs| < limit
  }

  lemma OperationEnds(st: State, op: Op)
    requires Agreement(st) && Enabled(st, op)
    ensures Ends(Apply(st, op), Bound(|st.table|))
  {
    forall cs, t, outs | Progress(Apply(st, op), cs, t, outs) && t.queue != []
      ensures |cs| < Bound(|st.table|)
    {
      LawfulIsValid(Apply(st, op), cs);
      OperationSettles(st, op, cs);
    }
  }

  /** The events returned, with one more answer. */
  function Told(outs: seq<RawEvent>, r: Status): seq<RawEvent> {
    if r.Event? then outs + [r.ev] else outs
  }

  /** One more call of next_event. */
  method CallOnce(
    w: LinuxWatcher, wire: KEvent -> Record, envs: nat -> Env,
    ghost start: State, ghost cs: seq<Choice>, ghost t: State, ghost told: seq<RawEvent>)
    returns (r: Status, ghost ds: seq<Choice>)
    requires w.Valid() && !w.closing && t == w.Abs() && Progress(start, cs, t, told)
    requires Bounded(start) && PlaysOn(wire, start.queue) && EnoughDescriptors(start)
    requires forall i :: GoesWell(envs(i), start.tree, w.tree.recursive)
    modifies w`closing, w.tree`dirs, w.tree.kernel, w.tree.table, w.tree.table.slots
    modifies w.buffer`len, w.buffer`offset, w.buffer`pending, w.buffer.bytes
    ensures w.Valid() && !w.closing && (w.tree.table.slots == old(w.tree.table.slots) || fresh(w.tree.table.slots))
    ensures Progress(start, cs + ds, w.Abs(), Told(told, r))
    ensures if r == Waits then w.Abs().queue == [] else t.queue != [] && ds != []
  {
    DrainBounded(start, cs);
    StillPlays(wire, start, t, w.tree.kernel.queue);
    assert forall i :: GoesWell(envs(i), start.tree, w.tree.recursive) ==> Possibly(envs(i), w.tree.recursive);
    r, ds := w.NextEvent(wire, envs);
    WalksGoWell(ds, envs, start.tree, w.tree.recursive);
    ProgressOn(start, cs, t, told, ds, w.Abs(), if r.Event? then [r.ev] else []);
    assert told + [] == told;
  }

  /** One call after the other until next_event has nothing to read. */
  method DrainFrom(
    w: LinuxWatcher, wire: KEvent -> Record, envs: nat -> nat -> Env, ghost start: State, ghost limit: nat)
    returns (outs: seq<RawEvent>, ghost cs: seq<Choice>)
    requires w.Valid() && !w.closing && w.Abs() == start && Ends(start, limit)
    requires Bounded(start) && PlaysOn(wire, start.queue) && EnoughDescriptors(start)
    requires forall n, i :: GoesWell(envs(n)(i), start.tree, w.tree.recursive)
    modifies w`closing, w.tree`dirs, w.tree.kernel, w.tree.table, w.tree.table.slots
    modifies w.buffer`len, w.buffer`offset, w.buffer`pending, w.buffer.bytes
    ensures w.Valid() && Progress(start, cs, w.Abs(), outs) && w.Abs().queue == []
  {
    outs, cs := [], [];
    var n := 0;
    while true
      invariant w.Valid() && (w.tree.table.slots == old(w.tree.table.slots) || fresh(w.tree.table.slots))
      invariant !w.closing && Progress(start, cs, w.Abs(), outs)
      decreases limit - |cs|
    {
      ghost var t := w.Abs();
      var r, ds := CallOnce(w, wire, envs(n), start, cs, t, outs);
      assert t.queue != [] ==> |cs| < limit;
      outs, cs := Told(outs, r), cs + ds;
      if r == Waits { return; }
      n := n + 1;
    }
  }

  /** Whatever was done to the tree, after that the table is again exactly the tree, and
      exactly the operation's events were returned. */
  method DrainOperation(w: LinuxWatcher, wire: KEvent -> Record, envs: nat -> nat -> Env, ghost st: State, ghost op: Op)
    returns (outs: seq<RawEvent>)
    requires Agreement(st) && Enabled(st, op)
    requires w.Valid() && !w.closing && w.Abs() == Apply(st, op)
    requires forall n, i :: GoesWell(envs(n)(i), Apply(st, op).tree, w.tree.recursive)
    requires PlaysOn(wire, Apply(st, op).queue) && EnoughDescriptors(Apply(st, op))
    modifies w`closing, w.tree`dirs, w.tree.kernel, w.tree.table, w.tree.table.slots
    modifies w.buffer`len, w.buffer`offset, w.buffer`pending, w.buffer.bytes
    ensures w.Valid() && Agreement(w.Abs()) && outs == Reported(op)
  {
    ApplyBounded(st, op);
    OperationEnds(st, op);
    ghost var cs;
    outs, cs := DrainFrom(w, wire, envs, Apply(st, op), Bound(|st.table|));
    DrainedWatcherAgrees(st, op, cs, w.Abs(), outs);
  }
}
