/** How many Moves a window makes: the ledger, optimality of greedy pairing, and
    what changes when a window is cut in two. */
module Pairing {
  import opened Events
  import opened Batching
  import opened EmissionLog

  function Count(log: seq<Logged>, kind: EventType): nat {
    if log == [] then 0
    else Count(log[..|log| - 1], kind) + if log[|log| - 1].entry.fe.kind == kind then 1 else 0
  }

  /** Number of Moves attributed to id `k`. */
  function MovesOf(k: Id, log: seq<Logged>): nat {
    Count(Project(FromId(k), log), Move)
  }

  lemma {:induction false} CountConcat(a: seq<Logged>, b: seq<Logged>, kind: EventType)
    ensures Count(a + b, kind) == Count(a, kind) + Count(b, kind)
  {
    if b == [] {
      assert a + b == a;
    } else {
      assert (a + b)[..|a + b| - 1] == a + b[..|b| - 1];
      CountConcat(a, b[..|b| - 1], kind);
    }
  }

  lemma CountOne(e: Logged, kind: EventType)
    ensures Count([e], kind) == if e.entry.fe.kind == kind then 1 else 0
  {
    assert [e][..0] == [];
  }

  /** Every entry is of exactly one kind. */
  lemma {:induction false} CountAll(log: seq<Logged>)
    ensures |log| == Count(log, Created) + Count(log, Removed) + Count(log, Modified) + Count(log, Move)
  {
    if log != [] {
      CountAll(log[..|log| - 1]);
    }
  }

  // ---- one absorb -------------------------------------------------------

  /** Number of single (unpaired) entries. */
  function Singles(log: seq<Logged>): nat {
    Count(log, Created) + Count(log, Removed)
  }

  /** The absorb of `ev` forms a Move. */
  predicate FormsMove(pending: map<Id, RawEvent>, ev: RawEvent) {
    Pairable(ev) && ev.id in pending && Pairs(pending[ev.id].typ, ev.typ)
  }

  lemma CommitLogCounts(ev: RawEvent)
    ensures Count(CommitLog(ev), Move) == 0 && Count(CommitLog(ev), Modified) == 0
    ensures Singles(CommitLog(ev)) == B2N(EntryOf(ev).Some?)
  {
    if EntryOf(ev).Some? {
      var e := Logged(FromId(ev.id), EntryOf(ev).value);
      assert CommitLog(ev) == [e];
      CountOne(e, Move);
      CountOne(e, Modified);
      CountOne(e, Created);
      CountOne(e, Removed);
    }
  }

  lemma EmitMoves(b: Batch, ev: RawEvent)
    ensures Count(Emit(b, ev), Move) == B2N(FormsMove(b.pending, ev))
  {
    if ev.typ == MODIFIED {
      CountOne(Logged(FromModify, ModifiedEntry(ev.path)), Move);
    } else if ev.id == 0 {
      CommitLogCounts(ev);
    } else if ev.id in b.pending {
      CommitLogCounts(b.pending[ev.id]);
      CountOne(Logged(FromId(ev.id), MoveOf(b.pending[ev.id], ev)), Move);
    }
  }

  lemma {:induction false} DrainHasNoMoves(pending: map<Id, RawEvent>, order: seq<Id>)
    requires forall k :: k in order ==> k in pending
    ensures Count(DrainLog(pending, order), Move) == 0
  {
    if order != [] {
      var front, last := order[..|order| - 1], order[|order| - 1];
      DrainHasNoMoves(pending, front);
      CommitLogCounts(pending[last]);
      CountConcat(DrainLog(pending, front), CommitLog(pending[last]), Move);
    }
  }

  lemma MovesAreAbsorbed(s: seq<RawEvent>, order: seq<Id>)
    requires Enumerates(order, AbsorbAll(s).pending.Keys)
    ensures Count(FullLog(s, order), Move) == Count(LogOf(s), Move)
  {
    DrainHasNoMoves(AbsorbAll(s).pending, order);
    CountConcat(LogOf(s), DrainLog(AbsorbAll(s).pending, order), Move);
  }

  // ---- greedy pairing is optimal -----------------------------------------

  /** `m` picks disjoint adjacent pairs that may become Moves: `i` in `m` pairs
      the events at `i` and `i + 1`. */
  ghost predicate Matching(u: seq<RawEvent>, m: set<nat>) {
    forall i :: i in m ==> i + 1 < |u| && Pairs(u[i].typ, u[i + 1].typ) && i + 1 !in m
  }

  /** Every event of `u` is a pairable event of id `k`. */
  ghost predicate AllOfId(k: Id, u: seq<RawEvent>) {
    k != 0 && forall e :: e in u ==> e.typ != MODIFIED && e.id == k
  }

  lemma {:induction false} OnlyIsOfId(k: Id, s: seq<RawEvent>)
    requires k != 0
    ensures AllOfId(k, Only(k, s))
  {
    if s != [] {
      OnlyIsOfId(k, s[..|s| - 1]);
    }
  }

  lemma GreedyStep(k: Id, u: seq<RawEvent>)
    requires AllOfId(k, u) && u != []
    ensures var front, last := u[..|u| - 1], u[|u| - 1];
      var p := AbsorbAll(front).pending;
      && AllOfId(k, front)
      && Count(LogOf(u), Move) == Count(LogOf(front), Move) + B2N(FormsMove(p, last))
      && AbsorbAll(u).pending == if FormsMove(p, last) then p - {k} else p[k := last]
  {
    var front, last := u[..|u| - 1], u[|u| - 1];
    assert last in u;
    EmitMoves(AbsorbAll(front), last);
    CountConcat(LogOf(front), Emit(AbsorbAll(front), last), Move);
    AbsorbPending(AbsorbAll(front), last);
  }

  lemma AbsorbPending(b: Batch, ev: RawEvent)
    requires !Panics(b, ev) && Pairable(ev)
    ensures Absorb(b, ev).pending ==
      if FormsMove(b.pending, ev) then b.pending - {ev.id} else b.pending[ev.id := ev]
  {
  }

  /** With a single id, the pending event is the last one or there is none. */
  lemma {:induction false} SinglePending(k: Id, u: seq<RawEvent>)
    requires AllOfId(k, u)
    ensures var p := AbsorbAll(u).pending; p == map[] || (u != [] && p == map[k := u[|u| - 1]])
  {
    if u != [] {
      GreedyStep(k, u);
      SinglePending(k, u[..|u| - 1]);
    }
  }

  lemma MatchingGrows(u: seq<RawEvent>, m: set<nat>)
    requires u != [] && Matching(u[..|u| - 1], m)
    ensures Matching(u, m)
    ensures forall i :: i in m ==> i + 2 < |u|
  {
  }

  lemma MatchingTakesLast(u: seq<RawEvent>, m: set<nat>)
    requires |u| >= 2 && Matching(u, m) && Pairs(u[|u| - 2].typ, u[|u| - 1].typ)
    requires forall i :: i in m ==> i + 3 < |u|
    ensures Matching(u, m + {|u| - 2}) && |m + {|u| - 2}| == |m| + 1
  {
  }

  lemma MatchingDropsLast(u: seq<RawEvent>, m: set<nat>)
    requires u != [] && Matching(u, m)
    ensures |u| < 2 || |u| - 2 !in m ==> Matching(u[..|u| - 1], m)
    ensures |u| >= 2 && |u| - 2 in m ==>
      && Pairs(u[|u| - 2].typ, u[|u| - 1].typ)
      && Matching(u[..|u| - 2], m - {|u| - 2}) && |m - {|u| - 2}| == |m| - 1
  {
  }

  /** The pairs greedy pairing makes form a matching. */
  lemma {:induction false} GreedyAchieves(k: Id, u: seq<RawEvent>) returns (m: set<nat>)
    requires AllOfId(k, u)
    ensures Matching(u, m) && |m| == Count(LogOf(u), Move)
    ensures AbsorbAll(u).pending != map[] ==> forall i :: i in m ==> i + 2 < |u|
  {
    if u == [] {
      return {};
    }
    GreedyStep(k, u);
    SinglePending(k, u[..|u| - 1]);
    m := GreedyAchieves(k, u[..|u| - 1]);
    m := PickLast(k, u, m, AbsorbAll(u[..|u| - 1]).pending);
  }

  /** Extends a matching of all but the last event the way greedy does. */
  lemma PickLast(k: Id, u: seq<RawEvent>, m: set<nat>, p: map<Id, RawEvent>) returns (m': set<nat>)
    requires u != [] && Matching(u[..|u| - 1], m)
    requires p == map[] || (|u| >= 2 && p == map[k := u[|u| - 2]])
    requires p != map[] ==> forall i :: i in m ==> i + 3 < |u|
    ensures Matching(u, m') && |m'| == |m| + B2N(FormsMove(p, u[|u| - 1]))
    ensures !FormsMove(p, u[|u| - 1]) ==> forall i :: i in m' ==> i + 2 < |u|
  {
    MatchingGrows(u, m);
    m' := m;
    if FormsMove(p, u[|u| - 1]) {
      MatchingTakesLast(u, m);
      m' := m + {|u| - 2};
    }
  }

  lemma {:induction false} GreedyBounds(k: Id, u: seq<RawEvent>, m: set<nat>)
    requires AllOfId(k, u) && Matching(u, m)
    ensures |m| <= Count(LogOf(u), Move)
    decreases |u|
  {
    var n := |u|;
    if n == 0 {
      assert m == {};
    } else {
      var front := u[..n - 1];
      GreedyStep(k, u);
      MatchingDropsLast(u, m);
      if n < 2 || n - 2 !in m {
        GreedyBounds(k, front, m);
      } else {
        PairForcesMove(k, u);
        GreedyBounds(k, u[..n - 2], m - {n - 2});
      }
    }
  }

  /** If the last two events may pair, greedy has made one more Move than it had
      two events ago: with them, or with the one before. */
  lemma PairForcesMove(k: Id, u: seq<RawEvent>)
    requires AllOfId(k, u) && |u| >= 2 && Pairs(u[|u| - 2].typ, u[|u| - 1].typ)
    ensures AllOfId(k, u[..|u| - 2])
    ensures Count(LogOf(u), Move) >= Count(LogOf(u[..|u| - 2]), Move) + 1
  {
    var n := |u|;
    SplitLast([], u);
    SplitLast([], u[..n - 1]);
    TwoSteps(k, u[..n - 2], u[..n - 1], u, u[n - 2], u[n - 1]);
  }

  lemma SplitLast<T>(a: seq<T>, b: seq<T>)
    requires b != []
    ensures a + b == a + b[..|b| - 1] + [b[|b| - 1]] && b == b[..|b| - 1] + [b[|b| - 1]]
    ensures |b| >= 2 ==> b[..|b| - 1][..|b| - 2] == b[..|b| - 2]
  {
  }

  lemma TwoSteps(k: Id, u0: seq<RawEvent>, u1: seq<RawEvent>, u2: seq<RawEvent>, first: RawEvent, second: RawEvent)
    requires AllOfId(k, u2) && u2 == u1 + [second] && u1 == u0 + [first]
    requires Pairs(first.typ, second.typ)
    ensures AllOfId(k, u0) && Count(LogOf(u2), Move) >= Count(LogOf(u0), Move) + 1
  {
    assert u2[|u1|] == second && u1[|u0|] == first;
    assert u2[..|u1|] == u1 && u1[..|u0|] == u0;
    GreedyStep(k, u2);
    GreedyStep(k, u1);
  }

  /** Greedy pairing is optimal: id `k`'s Moves are a maximum matching of its
      adjacent pairable events, whatever else happens in the window. */
  lemma GreedyIsOptimal(k: Id, s: seq<RawEvent>, order: seq<Id>)
    requires k != 0 && Enumerates(order, AbsorbAll(s).pending.Keys)
    ensures exists m :: Matching(Only(k, s), m) && |m| == MovesOf(k, FullLog(s, order))
    ensures forall m :: Matching(Only(k, s), m) ==> |m| <= MovesOf(k, FullLog(s, order))
  {
    var u := Only(k, s);
    MovesOfId(k, s, order);
    OnlyIsOfId(k, s);
    var best := GreedyAchieves(k, u);
    forall m | Matching(u, m)
      ensures |m| <= MovesOf(k, FullLog(s, order))
    {
      GreedyBounds(k, u, m);
    }
  }

  lemma MovesOfId(k: Id, s: seq<RawEvent>, order: seq<Id>)
    requires Enumerates(order, AbsorbAll(s).pending.Keys)
    ensures MovesOf(k, FullLog(s, order)) == Count(LogOf(Only(k, s)), Move)
  {
    AbsorbIndependent(k, s);
    var p := AbsorbAll(Only(k, s)).pending;
    var alone: seq<Id> := if k in p then [k] else [];
    NonInterference(k, s, order, alone);
    MovesAreAbsorbed(Only(k, s), alone);
  }

  // ---- the ledger --------------------------------------------------------

  /** Of one of the five types the C ABI defines, and not MODIFIED. */
  predicate Known(ev: RawEvent) {
    EntryOf(ev).Some?
  }

  function KnownCount(s: seq<RawEvent>): nat {
    if s == [] then 0 else KnownCount(s[..|s| - 1]) + B2N(Known(s[|s| - 1]))
  }

  function KnownKeys(p: map<Id, RawEvent>): set<Id> {
    set k | k in p && Known(p[k])
  }

  /** Known non-MODIFIED events among what one absorb emits, counting a Move twice. */
  function EmittedWeight(b: Batch, ev: RawEvent): nat {
    if ev.typ == MODIFIED then 0
    else if ev.id == 0 then B2N(Known(ev))
    else if ev.id !in b.pending then 0
    else if Pairs(b.pending[ev.id].typ, ev.typ) then 2
    else B2N(Known(b.pending[ev.id]))
  }

  lemma EmitLedger(b: Batch, ev: RawEvent)
    ensures 2 * Count(Emit(b, ev), Move) + Singles(Emit(b, ev)) == EmittedWeight(b, ev)
  {
    EmitMoves(b, ev);
    if ev.typ == MODIFIED {
      CountOne(Logged(FromModify, ModifiedEntry(ev.path)), Created);
      CountOne(Logged(FromModify, ModifiedEntry(ev.path)), Removed);
    } else if ev.id == 0 {
      CommitLogCounts(ev);
    } else if ev.id in b.pending {
      CommitLogCounts(b.pending[ev.id]);
      var e := Logged(FromId(ev.id), MoveOf(b.pending[ev.id], ev));
      CountOne(e, Created);
      CountOne(e, Removed);
    }
  }

  lemma EmitModified(b: Batch, ev: RawEvent)
    ensures Count(Emit(b, ev), Modified) == B2N(ev.typ == MODIFIED && ev.path !in b.lastModifiedAt)
  {
    if ev.typ == MODIFIED {
      CountOne(Logged(FromModify, ModifiedEntry(ev.path)), Modified);
    } else if ev.id == 0 {
      CommitLogCounts(ev);
    } else if ev.id in b.pending {
      CommitLogCounts(b.pending[ev.id]);
      CountOne(Logged(FromId(ev.id), MoveOf(b.pending[ev.id], ev)), Modified);
    }
  }

  lemma KnownKeysStep(b: Batch, ev: RawEvent)
    requires WellKeyed(b.pending) && !Panics(b, ev)
    ensures EmittedWeight(b, ev) + |KnownKeys(Absorb(b, ev).pending)| == |KnownKeys(b.pending)| + B2N(Known(ev))
  {
    var p := b.pending;
    if Pairable(ev) {
      AbsorbPending(b, ev);
      if ev.id !in p {
        AddKnown(p, ev);
      } else if FormsMove(p, ev) {
        DropKnown(p, ev.id);
      } else {
        ReplaceKnown(p, ev);
      }
    }
  }

  lemma AddKnown(p: map<Id, RawEvent>, ev: RawEvent)
    requires ev.id !in p
    ensures |KnownKeys(p[ev.id := ev])| == |KnownKeys(p)| + B2N(Known(ev))
  {
    assert KnownKeys(p[ev.id := ev]) == if Known(ev) then KnownKeys(p) + {ev.id} else KnownKeys(p);
  }

  lemma DropKnown(p: map<Id, RawEvent>, k: Id)
    requires k in p && Known(p[k])
    ensures |KnownKeys(p - {k})| == |KnownKeys(p)| - 1
  {
    assert KnownKeys(p) == KnownKeys(p - {k}) + {k};
  }

  lemma ReplaceKnown(p: map<Id, RawEvent>, ev: RawEvent)
    requires ev.id in p
    ensures |KnownKeys(p[ev.id := ev])| + B2N(Known(p[ev.id])) == |KnownKeys(p)| + B2N(Known(ev))
  {
    var rest := KnownKeys(p) - {ev.id};
    assert KnownKeys(p) == if Known(p[ev.id]) then rest + {ev.id} else rest;
    assert KnownKeys(p[ev.id := ev]) == if Known(ev) then rest + {ev.id} else rest;
  }

  /** Before the drain: every known non-MODIFIED event is half of a Move, a
      single entry, or still pending. */
  lemma {:induction false} Ledger(s: seq<RawEvent>)
    ensures 2 * Count(LogOf(s), Move) + Singles(LogOf(s)) + |KnownKeys(AbsorbAll(s).pending)| == KnownCount(s)
    ensures Count(LogOf(s), Modified) == |ModifiedPaths(s)|
  {
    if s != [] {
      var front, last := s[..|s| - 1], s[|s| - 1];
      var b := AbsorbAll(front);
      Ledger(front);
      PendingShape(front);
      ModifiedKeys(front);
      KnownKeysStep(b, last);
      EmitLedger(b, last);
      EmitModified(b, last);
      CountConcat(LogOf(front), Emit(b, last), Move);
      CountConcat(LogOf(front), Emit(b, last), Created);
      CountConcat(LogOf(front), Emit(b, last), Removed);
      CountConcat(LogOf(front), Emit(b, last), Modified);
    } else {
      assert KnownKeys(map[]) == {};
    }
  }

  function KnownIn(p: map<Id, RawEvent>, order: seq<Id>): set<Id>
    requires forall k :: k in order ==> k in p
  {
    set k | k in order && Known(p[k])
  }

  lemma KnownInStep(p: map<Id, RawEvent>, front: seq<Id>, last: Id)
    requires last in p && last !in front && forall k :: k in front ==> k in p
    ensures |KnownIn(p, front + [last])| == |KnownIn(p, front)| + B2N(Known(p[last]))
  {
    assert KnownIn(p, front + [last]) ==
      if Known(p[last]) then KnownIn(p, front) + {last} else KnownIn(p, front);
  }

  lemma {:induction false} DrainLedger(p: map<Id, RawEvent>, order: seq<Id>)
    requires forall k :: k in order ==> k in p
    requires forall i, j :: 0 <= i < j < |order| ==> order[i] != order[j]
    ensures Singles(DrainLog(p, order)) == |KnownIn(p, order)|
    ensures Count(DrainLog(p, order), Modified) == 0
  {
    if order != [] {
      var front, last := order[..|order| - 1], order[|order| - 1];
      assert order == front + [last];
      assert forall i :: 0 <= i < |front| ==> order[i] != last;
      DrainLedger(p, front);
      KnownInStep(p, front, last);
      DrainCounts(p, front, last);
    }
  }

  lemma DrainCounts(p: map<Id, RawEvent>, front: seq<Id>, last: Id)
    requires last in p && forall k :: k in front ==> k in p
    ensures Singles(DrainLog(p, front + [last])) == Singles(DrainLog(p, front)) + B2N(Known(p[last]))
    ensures Count(DrainLog(p, front + [last]), Modified) == Count(DrainLog(p, front), Modified)
  {
    var a, b := DrainLog(p, front), CommitLog(p[last]);
    assert (front + [last])[..|front|] == front;
    CommitLogCounts(p[last]);
    CountConcat(a, b, Created);
    CountConcat(a, b, Removed);
    CountConcat(a, b, Modified);
  }

  lemma DrainBalances(log: seq<Logged>, p: map<Id, RawEvent>, order: seq<Id>)
    requires Enumerates(order, p.Keys)
    ensures var all := log + DrainLog(p, order);
      && Count(all, Move) == Count(log, Move)
      && Singles(all) == Singles(log) + |KnownKeys(p)|
      && Count(all, Modified) == Count(log, Modified)
      && |all| == Singles(all) + Count(all, Modified) + Count(all, Move)
  {
    var drained := DrainLog(p, order);
    DrainLedger(p, order);
    assert KnownIn(p, order) == KnownKeys(p);
    DrainHasNoMoves(p, order);
    CountConcat(log, drained, Created);
    CountConcat(log, drained, Removed);
    CountConcat(log, drained, Modified);
    CountConcat(log, drained, Move);
    CountAll(log + drained);
  }

  /** After the drain nothing is left over: the window emits one entry per known
      non-MODIFIED event, less one per Move, plus one per distinct modified path. */
  lemma DrainedLedger(s: seq<RawEvent>, order: seq<Id>)
    requires Enumerates(order, AbsorbAll(s).pending.Keys)
    ensures var log := FullLog(s, order);
      && 2 * Count(log, Move) + Count(log, Created) + Count(log, Removed) == KnownCount(s)
      && Count(log, Modified) == |ModifiedPaths(s)|
      && |log| == KnownCount(s) - Count(log, Move) + |ModifiedPaths(s)|
  {
    Ledger(s);
    DrainBalances(LogOf(s), AbsorbAll(s).pending, order);
  }

  /** `lastModifiedAt` and the Modified entries of `out` name each other. */
  ghost predicate ModifiedIndex(b: Batch) {
    && (forall p :: p in b.lastModifiedAt ==>
          b.lastModifiedAt[p] < |b.out| && b.out[b.lastModifiedAt[p]] == ModifiedEntry(p))
    && (forall i :: 0 <= i < |b.out| && b.out[i].fe.kind == Modified ==>
          b.out[i].fe.path in b.lastModifiedAt && b.lastModifiedAt[b.out[i].fe.path] == i)
  }

  lemma {:induction false} ModifiedIndexKept(s: seq<RawEvent>, order: seq<Id>)
    requires Enumerates(order, AbsorbAll(s).pending.Keys)
    ensures ModifiedIndex(AbsorbAll(s)) && ModifiedIndex(Drain(AbsorbAll(s), order))
  {
    ModifiedIndexAbsorbing(s);
    PendingShape(s);
    ModifiedIndexDraining(AbsorbAll(s), order);
  }

  lemma {:induction false} ModifiedIndexAbsorbing(s: seq<RawEvent>)
    ensures ModifiedIndex(AbsorbAll(s))
  {
    if s != [] {
      ModifiedIndexAbsorbing(s[..|s| - 1]);
      ModifiedIndexAbsorb(AbsorbAll(s[..|s| - 1]), s[|s| - 1]);
    }
  }

  lemma AppendKeepsIndex(b: Batch, e: Entry)
    requires ModifiedIndex(b) && e.fe.kind != Modified
    ensures ModifiedIndex(b.(out := b.out + [e]))
  {
  }

  lemma RecordKeepsIndex(b: Batch, path: Path)
    requires ModifiedIndex(b)
    ensures ModifiedIndex(RecordModified(b, path))
  {
  }

  lemma CommitKeepsIndex(b: Batch, ev: RawEvent)
    requires ModifiedIndex(b)
    ensures ModifiedIndex(Commit(b, ev))
  {
    if ev.typ == MODIFIED {
      RecordKeepsIndex(b, ev.path);
    } else if Known(ev) {
      AppendKeepsIndex(b, EntryOf(ev).value);
    }
  }

  lemma ModifiedIndexAbsorb(b: Batch, ev: RawEvent)
    requires ModifiedIndex(b) && !Panics(b, ev)
    ensures ModifiedIndex(Absorb(b, ev))
  {
    if ev.typ == MODIFIED {
      RecordKeepsIndex(b, ev.path);
    } else if ev.id == 0 {
      CommitKeepsIndex(b, ev);
    } else if ev.id in b.pending {
      CommitKeepsIndex(b, b.pending[ev.id]);
      AppendKeepsIndex(b, MoveOf(b.pending[ev.id], ev));
    }
  }

  lemma {:induction false} ModifiedIndexDraining(b: Batch, order: seq<Id>)
    requires ModifiedIndex(b) && forall k :: k in order ==> k in b.pending
    ensures ModifiedIndex(CommitKeys(b, order))
  {
    if order != [] {
      ModifiedIndexDraining(b, order[..|order| - 1]);
      CommitKeepsIndex(CommitKeys(b, order[..|order| - 1]), b.pending[order[|order| - 1]]);
    }
  }

  // ---- cutting a window in two -------------------------------------------

  /** How the pendings of the uncut run (`c`) and of the second half alone (`f`)
      differ, id by id: `extra` holds the ids the uncut run is one Move ahead on. */
  ghost predicate CutRelation(c: map<Id, RawEvent>, f: map<Id, RawEvent>, cut: set<Id>, extra: set<Id>) {
    && extra <= cut
    && forall k: Id {:trigger k in c} {:trigger k in f} {:trigger k in cut} {:trigger k in extra} ::
         || SameAt(k, c, f)
         || (k in c && k !in f && k in cut && k !in extra)
         || (k !in c && k in f && k in extra)
  }

  lemma CutStep(c: Batch, f: Batch, cut: set<Id>, extra: set<Id>, ev: RawEvent) returns (extra': set<Id>)
    requires !c.drained && !f.drained && CutRelation(c.pending, f.pending, cut, extra)
    ensures CutRelation(Absorb(c, ev).pending, Absorb(f, ev).pending, cut, extra')
    ensures B2N(FormsMove(c.pending, ev)) + |extra| == B2N(FormsMove(f.pending, ev)) + |extra'|
  {
    extra' := extra;
    if Pairable(ev) {
      AbsorbPending(c, ev);
      AbsorbPending(f, ev);
      if FormsMove(c.pending, ev) && !FormsMove(f.pending, ev) {
        assert ev.id in c.pending && ev.id in cut;
        extra' := extra + {ev.id};
      } else if !FormsMove(c.pending, ev) && FormsMove(f.pending, ev) {
        assert ev.id in f.pending && ev.id in extra;
        extra' := extra - {ev.id};
      }
    }
  }

  lemma MovesAfter(s: seq<RawEvent>, ev: RawEvent)
    ensures Count(LogOf(s + [ev]), Move) == Count(LogOf(s), Move) + B2N(FormsMove(AbsorbAll(s).pending, ev))
    ensures AbsorbAll(s + [ev]) == Absorb(AbsorbAll(s), ev)
  {
    var b := AbsorbAll(s);
    AbsorbLast(s, ev);
    EmitMoves(b, ev);
    CountConcat(LogOf(s), Emit(b, ev), Move);
  }

  /** The uncut run on `s1 + s2`, the cut, and the second half alone, with the
      ids on which the uncut run is one Move ahead. */
  ghost predicate CutAt(s1: seq<RawEvent>, s2: seq<RawEvent>, wide: seq<RawEvent>, extra: set<Id>) {
    && CutRelation(AbsorbAll(wide).pending, AbsorbAll(s2).pending, AbsorbAll(s1).pending.Keys, extra)
    && Count(LogOf(wide), Move) == Count(LogOf(s1), Move) + Count(LogOf(s2), Move) + |extra|
  }

  lemma CutAtStep(s1: seq<RawEvent>, s2: seq<RawEvent>, wide: seq<RawEvent>, extra: set<Id>, ev: RawEvent)
    returns (extra': set<Id>)
    requires CutAt(s1, s2, wide, extra)
    ensures CutAt(s1, s2 + [ev], wide + [ev], extra')
  {
    MovesAfter(wide, ev);
    MovesAfter(s2, ev);
    extra' := CutStep(AbsorbAll(wide), AbsorbAll(s2), AbsorbAll(s1).pending.Keys, extra, ev);
  }

  lemma {:induction false} CutSimulation(s1: seq<RawEvent>, s2: seq<RawEvent>) returns (extra: set<Id>)
    ensures CutAt(s1, s2, s1 + s2, extra)
    decreases |s2|
  {
    if s2 == [] {
      assert s1 + s2 == s1;
      return {};
    }
    var front, last := s2[..|s2| - 1], s2[|s2| - 1];
    SplitLast(s1, s2);
    extra := CutSimulation(s1, front);
    extra := CutAtStep(s1, front, s1 + front, extra, last);
  }

  lemma SubsetSize(a: set<Id>, b: set<Id>)
    requires a <= b
    ensures |a| <= |b|
  {
    assert b == a + (b - a);
  }

  lemma {:induction false} OnlyConcat(k: Id, a: seq<RawEvent>, b: seq<RawEvent>)
    ensures Only(k, a + b) == Only(k, a) + Only(k, b)
  {
    if b == [] {
      assert a + b == a;
    } else {
      assert (a + b)[..|a + b| - 1] == a + b[..|b| - 1];
      OnlyConcat(k, a, b[..|b| - 1]);
    }
  }

  lemma {:induction false} KnownCountConcat(a: seq<RawEvent>, b: seq<RawEvent>)
    ensures KnownCount(a + b) == KnownCount(a) + KnownCount(b)
  {
    if b == [] {
      assert a + b == a;
    } else {
      assert (a + b)[..|a + b| - 1] == a + b[..|b| - 1];
      KnownCountConcat(a, b[..|b| - 1]);
    }
  }

  lemma {:induction false} ModifiedPathsConcat(a: seq<RawEvent>, b: seq<RawEvent>)
    ensures |ModifiedPaths(a + b)| <= |ModifiedPaths(a)| + |ModifiedPaths(b)|
    ensures forall p :: p in ModifiedPaths(b) ==> p in ModifiedPaths(a + b)
  {
    if b == [] {
      assert a + b == a;
    } else {
      assert (a + b)[..|a + b| - 1] == a + b[..|b| - 1];
      ModifiedPathsConcat(a, b[..|b| - 1]);
    }
  }

  /** A wider window makes at least the Moves of its two halves, and at most one
      more for each id left pending at the cut; it never emits more entries. */
  lemma WiderWindow(s1: seq<RawEvent>, s2: seq<RawEvent>, o1: seq<Id>, o2: seq<Id>, o: seq<Id>)
    requires Enumerates(o1, AbsorbAll(s1).pending.Keys) && Enumerates(o2, AbsorbAll(s2).pending.Keys)
    requires Enumerates(o, AbsorbAll(s1 + s2).pending.Keys)
    ensures var one, two, wide := FullLog(s1, o1), FullLog(s2, o2), FullLog(s1 + s2, o);
      && Count(one, Move) + Count(two, Move) <= Count(wide, Move)
      && Count(wide, Move) <= Count(one, Move) + Count(two, Move) + |AbsorbAll(s1).pending.Keys|
      && |wide| <= |one| + |two|
  {
    var extra := CutSimulation(s1, s2);
    SubsetSize(extra, AbsorbAll(s1).pending.Keys);
    MovesAreAbsorbed(s1, o1);
    MovesAreAbsorbed(s2, o2);
    MovesAreAbsorbed(s1 + s2, o);
    DrainedLedger(s1, o1);
    DrainedLedger(s2, o2);
    DrainedLedger(s1 + s2, o);
    KnownCountConcat(s1, s2);
    ModifiedPathsConcat(s1, s2);
  }

  /** The same, id by id: an id gains at most one Move, and none if it was not
      pending at the cut. */
  lemma WiderWindowPerId(k: Id, s1: seq<RawEvent>, s2: seq<RawEvent>, o1: seq<Id>, o2: seq<Id>, o: seq<Id>)
    requires Enumerates(o1, AbsorbAll(s1).pending.Keys) && Enumerates(o2, AbsorbAll(s2).pending.Keys)
    requires Enumerates(o, AbsorbAll(s1 + s2).pending.Keys)
    ensures var split := MovesOf(k, FullLog(s1, o1)) + MovesOf(k, FullLog(s2, o2));
      split <= MovesOf(k, FullLog(s1 + s2, o)) <= split + B2N(k in AbsorbAll(s1).pending)
  {
    MovesOfId(k, s1, o1);
    MovesOfId(k, s2, o2);
    MovesOfId(k, s1 + s2, o);
    OnlyConcat(k, s1, s2);
    var extra := CutSimulation(Only(k, s1), Only(k, s2));
    AbsorbIndependent(k, s1);
    SubsetSize(extra, {k});
    if k !in AbsorbAll(s1).pending {
      assert AbsorbAll(Only(k, s1)).pending.Keys == {};
    }
  }
}
