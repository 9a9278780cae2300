/** A watcher that is not recursive: one watch, and the events of the root's own entries. */
module FlatWatcher {
  import opened Events
  import opened RelPaths
  import opened Inotify
  import opened WalkSpec
  import opened FileOps
  import opened TreeAgreement
  import opened TreeRuns
  import opened Unread
  import opened Operations
  import opened MessageRecords

  /** Only the root is watched and tabled, and only its watch has anything queued. */
  ghost predicate Flat(st: State, wd: Wd) {
    && IsTree(st.tree) && st.watches == map[st.tree[[]] := wd] && st.table == map[wd := []]
    && forall ev :: ev in st.queue ==> Plain(ev, wd)
  }

  predicate Plain(ev: KEvent, wd: Wd) {
    ev == Self(wd) || (ev.Named? && ev.wd == wd)
  }

  /** What the root's watch says of an operation. */
  function OfRoot(ms: seq<Message>): seq<RawEvent> {
    if ms == [] then [] else (if ms[0].dir == [] then [EventOf(ms[0])] else []) + OfRoot(ms[1..])
  }

  lemma OpensFlat(tree: map<Dir, Ino>, firstWd: Wd, w: Walk)
    requires IsTree(tree) && !w.recursive && w.addOk([])
    ensures Flat(WatchSubtree(State(tree, map[], firstWd, [], map[]), [], w), firstWd)
  {
  }

  // ---- an operation -----------------------------------------------------------------------

  lemma RootHears(st: State, wd: Wd, d: Dir)
    requires Flat(st, wd)
    ensures Hears(st, d) <==> d == []
    ensures d in st.tree && d != [] ==> st.tree[d] !in st.watches
  {
    assert SameIno(st.tree, d, []) ==> d == [];
  }

  lemma {:induction false} HeardFlat(st: State, wd: Wd, ms: seq<Message>)
    requires Flat(st, wd)
    ensures forall ev :: ev in Heard(st, ms) ==> Plain(ev, wd)
    ensures Told(map[wd := []], Heard(st, ms)) == OfRoot(ms)
  {
    if ms != [] {
      RootHears(st, wd, ms[0].dir);
      HeardFlat(st, wd, ms[1..]);
      assert ms == [ms[0]] + ms[1..];
      ToldSay(map[wd := []], st, ms[0], ms[1..]);
      assert [] + [ms[0].name] == [ms[0].name];
    }
  }

  lemma NamelessFlat(st: State, wd: Wd, op: Op)
    requires Flat(st, wd) && Enabled(st, op)
    ensures forall ev :: ev in Nameless(st, op) ==> Plain(ev, wd)
  {
    match op
    case Rmdir(d, _) => RootHears(st, wd, d);
    case Rename(d, e, _) =>
      RootHears(st, wd, d);
      RootHears(st, wd, e);
    case MoveOut(d, _) => RootHears(st, wd, d);
    case MoveIn(e, _, _) => RootHears(st, wd, e);
    case Chmod(d) => RootHears(st, wd, d);
    case _ =>
  }

  /** The root stays, and so does its watch. */
  lemma RootStays(st: State, wd: Wd, op: Op)
    requires Flat(st, wd) && Enabled(st, op)
    ensures var f := Outcome(st, op);
      IsTree(f.tree) && f.tree[[]] == st.tree[[]] && f.watches == st.watches && f.table == st.table
  {
    TreeAfter(st, op);
    StaysWatched(st, op, []);
    assert !LeavesFrom(op, []) && !ArrivesAt(op, []);
    assert st.watches - Dying(st, op) == st.watches;
  }

  lemma HappensFlat(st: State, wd: Wd, op: Op)
    requires Flat(st, wd) && Enabled(st, op)
    ensures Flat(Apply(st, op), wd)
    ensures Told(st.table, Apply(st, op).queue) == Told(st.table, st.queue) + OfRoot(Messages(op))
  {
    ApplyIsOutcome(st, op);
    RootStays(st, wd, op);
    HeardFlat(st, wd, Messages(op));
    NamelessFlat(st, wd, op);
    ToldConcat(st.table, st.queue, Records(st, op));
    ToldRecords(st.table, st, op);
  }

  // ---- a record ----------------------------------------------------------------------------

  lemma ReadsFlat(st: State, wd: Wd, c: Choice)
    requires Flat(st, wd) && st.queue != [] && !c.walk.recursive
    ensures Flat(Consume(st, c).0, wd) && Consume(st, c).0.queue == st.queue[1..]
    ensures OptSeq(Consume(st, c).1) == ToldOf(st.table, st.queue[0])
  {
    assert st.queue[0] in st.queue && forall ev :: ev in st.queue[1..] ==> ev in st.queue;
  }

  // ---- every run -----------------------------------------------------------------------------

  /** The two things that happen, in any order. */
  datatype Act = Happens(op: Op) | Reads(c: Choice)

  ghost predicate CanAct(st: State, a: Act) {
    match a
    case Happens(op) => Enabled(st, op)
    case Reads(c) => st.queue != [] && !c.walk.recursive
  }

  function Acted(st: State, a: Act): (State, seq<RawEvent>)
    requires CanAct(st, a)
  {
    match a
    case Happens(op) => (Apply(st, op), [])
    case Reads(c) => (Consume(st, c).0, OptSeq(Consume(st, c).1))
  }

  ghost predicate CanActAll(st: State, acts: seq<Act>)
    decreases |acts|
  {
    acts == [] || (CanAct(st, acts[0]) && CanActAll(Acted(st, acts[0]).0, acts[1..]))
  }

  ghost function ActedAll(st: State, acts: seq<Act>): (State, seq<RawEvent>)
    requires CanActAll(st, acts)
    decreases |acts|
  {
    if acts == [] then (st, [])
    else
      var (t, outs) := Acted(st, acts[0]);
      var (u, more) := ActedAll(t, acts[1..]);
      (u, outs + more)
  }

  /** What was done directly in the root. */
  function DoneInRoot(acts: seq<Act>): seq<RawEvent> {
    if acts == [] then []
    else (if acts[0].Happens? && BelowRoot(acts[0].op) then OfRoot(Messages(acts[0].op)) else []) + DoneInRoot(acts[1..])
  }

  lemma ActFlat(st: State, wd: Wd, a: Act)
    requires Flat(st, wd) && CanAct(st, a)
    ensures var (t, outs) := Acted(st, a);
      Flat(t, wd) && outs + Told(t.table, t.queue) == Told(st.table, st.queue) + DoneInRoot([a])
  {
    assert [a][1..] == [];
    match a
    case Happens(op) =>
      HappensFlat(st, wd, op);
      assert OfRoot(Messages(op)) + [] == OfRoot(Messages(op));
    case Reads(c) =>
      ReadsFlat(st, wd, c);
      assert Told(st.table, st.queue) + [] == Told(st.table, st.queue);
  }

  lemma DoneInRootNext(a: Act, rest: seq<Act>)
    ensures DoneInRoot([a] + rest) == DoneInRoot([a]) + DoneInRoot(rest)
  {
    assert [a][1..] == [] && ([a] + rest)[1..] == rest;
  }

  /** However operations and reads are interleaved, and however many are unread: the one
      watch and its entry stay, and what is reported is, in order and under the right names,
      what was done directly in the root - all of it, once the queue is empty. */
  lemma {:induction false} FlatReports(st: State, wd: Wd, acts: seq<Act>)
    requires Flat(st, wd) && CanActAll(st, acts)
    ensures var (t, outs) := ActedAll(st, acts);
      Flat(t, wd) && outs + Told(t.table, t.queue) == Told(st.table, st.queue) + DoneInRoot(acts)
    decreases |acts|
  {
    if acts == [] {
      assert [] + Told(st.table, st.queue) == Told(st.table, st.queue) + [];
    } else {
      var (t, outs) := Acted(st, acts[0]);
      var (u, more) := ActedAll(t, acts[1..]);
      ActFlat(st, wd, acts[0]);
      FlatReports(t, wd, acts[1..]);
      assert acts == [acts[0]] + acts[1..];
      DoneInRootNext(acts[0], acts[1..]);
      Regroup(outs, more, Told(u.table, u.queue), Told(t.table, t.queue),
        Told(st.table, st.queue), DoneInRoot([acts[0]]), DoneInRoot(acts[1..]));
    }
  }
}
