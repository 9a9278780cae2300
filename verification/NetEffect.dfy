/** Replaying what a window emits against replaying what it absorbed. */
module NetEffect {
  import opened Events
  import opened Batching
  import opened EmissionLog
  import opened Pairing

  // ---- two readings ------------------------------------------------------

  /** The set of existing paths after one emitted event. */
  function Apply(present: set<Path>, e: FileEvent): set<Path> {
    match e.kind
    case Created => present + {e.path}
    case Removed => present - {e.path}
    case Move => present - {e.oldPath} + {e.path}
    case Modified => present
  }

  function Replay(present: set<Path>, log: seq<Logged>): set<Path> {
    if log == [] then present
    else Apply(Replay(present, log[..|log| - 1]), log[|log| - 1].entry.fe)
  }

  predicate Appears(ev: RawEvent) {
    ev.typ == CREATED || ev.typ == RENAMED_NEW
  }

  /** The set of existing paths after one raw event; `mate` says that a
      RENAMED_OLD is to be read as the arriving half of a rename. */
  function ApplyRaw(present: set<Path>, ev: RawEvent, mate: bool): set<Path> {
    if !Known(ev) then present
    else if Appears(ev) || (mate && ev.typ == RENAMED_OLD) then present + {ev.path}
    else present - {ev.path}
  }

  function ReplayRaw(present: set<Path>, s: seq<RawEvent>): set<Path> {
    if s == [] then present
    else ApplyRaw(ReplayRaw(present, s[..|s| - 1]), s[|s| - 1], false)
  }

  /** Raw replay in which the second half of an OLD/OLD pair appears, as macOS
      means it. */
  function ReplayMates(present: set<Path>, s: seq<RawEvent>): set<Path> {
    if s == [] then present
    else
      var front, last := s[..|s| - 1], s[|s| - 1];
      ApplyRaw(ReplayMates(present, front), last, FormsMove(AbsorbAll(front).pending, last))
  }

  lemma {:induction false} ReplayConcat(present: set<Path>, a: seq<Logged>, b: seq<Logged>)
    ensures Replay(present, a + b) == Replay(Replay(present, a), b)
  {
    if b == [] {
      assert a + b == a;
    } else {
      assert (a + b)[..|a + b| - 1] == a + b[..|b| - 1];
      ReplayConcat(present, a, b[..|b| - 1]);
    }
  }

  lemma ReplayOne(present: set<Path>, e: Logged)
    ensures Replay(present, [e]) == Apply(present, e.entry.fe)
  {
    assert [e][..0] == [];
  }

  // ---- one id ------------------------------------------------------------

  /** Committing an event on its own does what the raw event says. */
  lemma CommitEffect(present: set<Path>, ev: RawEvent)
    ensures Replay(present, CommitLog(ev)) == ApplyRaw(present, ev, false)
  {
    if Known(ev) {
      var e := Logged(FromId(ev.id), EntryOf(ev).value);
      assert CommitLog(ev) == [e];
      ReplayOne(present, e);
    }
  }

  /** A Move does what its two halves say. */
  lemma MoveEffect(present: set<Path>, first: RawEvent, second: RawEvent)
    requires Pairs(first.typ, second.typ)
    ensures Apply(present, MoveOf(first, second).fe) == ApplyRaw(ApplyRaw(present, first, false), second, true)
  {
  }

  /** What is still owed for id `k`: its pending event, committed alone. */
  function Owed(k: Id, p: map<Id, RawEvent>): seq<Logged> {
    if k in p then CommitLog(p[k]) else []
  }

  lemma OneIdStep(k: Id, b: Batch, ev: RawEvent, present: set<Path>)
    requires !b.drained && WellKeyed(b.pending) && b.pending.Keys <= {k}
    requires ev.typ != MODIFIED && ev.id == k
    ensures Replay(Replay(present, Emit(b, ev)), Owed(k, Absorb(b, ev).pending))
      == ApplyRaw(Replay(present, Owed(k, b.pending)), ev, FormsMove(b.pending, ev))
  {
    var p := b.pending;
    if k == 0 {
      CommitEffect(present, ev);
    } else {
      AbsorbPending(b, ev);
      if k !in p {
        CommitEffect(present, ev);
      } else {
        CommitEffect(present, p[k]);
        if FormsMove(p, ev) {
          MoveEffect(present, p[k], ev);
          ReplayOne(present, Logged(FromId(k), MoveOf(p[k], ev)));
        } else {
          CommitEffect(Replay(present, CommitLog(p[k])), ev);
        }
      }
    }
  }

  lemma {:induction false} OneIdEffect(k: Id, s: seq<RawEvent>, present: set<Path>)
    ensures Replay(Replay(present, LogOf(Only(k, s))), Owed(k, AbsorbAll(Only(k, s)).pending))
      == ReplayMates(present, Only(k, s))
  {
    if s != [] {
      var front, last := s[..|s| - 1], s[|s| - 1];
      OneIdEffect(k, front, present);
      if last.typ != MODIFIED && last.id == k {
        var u := Only(k, front);
        var b := AbsorbAll(u);
        AbsorbIndependent(k, front);
        PendingShape(u);
        AbsorbLast(u, last);
        assert (u + [last])[..|u|] == u;
        ReplayConcat(present, LogOf(u), Emit(b, last));
        OneIdStep(k, b, last, Replay(present, LogOf(u)));
      } else {
        assert Only(k, s) == Only(k, front);
      }
    }
  }

  /** For a single id, the whole drained log replays as its raw events do. */
  lemma SingleIdNetEffect(k: Id, s: seq<RawEvent>, order: seq<Id>, present: set<Path>)
    requires Enumerates(order, AbsorbAll(s).pending.Keys)
    ensures Replay(present, Project(FromId(k), FullLog(s, order))) == ReplayMates(present, Only(k, s))
  {
    var p, q := AbsorbAll(s).pending, AbsorbAll(Only(k, s)).pending;
    AbsorbIndependent(k, s);
    PendingShape(s);
    ProjectConcat(FromId(k), LogOf(s), DrainLog(p, order));
    DrainProject(p, order, FromId(k));
    ReplayConcat(present, LogOf(Only(k, s)), Owed(k, q));
    OneIdEffect(k, s, present);
  }

  // ---- one path in the whole batch ----------------------------------------

  predicate Touches(e: FileEvent, path: Path) {
    e.kind != Modified && (e.path == path || (e.kind == Move && e.oldPath == path))
  }

  /** Some event of id `k` in `s` is about `path`. */
  ghost predicate Owns(k: Id, path: Path, s: seq<RawEvent>) {
    exists e :: e in s && Known(e) && e.id == k && e.path == path
  }

  /** Entries touching a path come from events about that path, under the same id. */
  ghost predicate Justified(log: seq<Logged>, s: seq<RawEvent>) {
    forall l, path :: l in log && Touches(l.entry.fe, path) ==>
      l.source.FromId? && Owns(l.source.id, path, s)
  }

  lemma CommitJustified(ev: RawEvent, s: seq<RawEvent>)
    requires ev in s
    ensures Justified(CommitLog(ev), s)
  {
  }

  lemma EmitJustified(b: Batch, ev: RawEvent, s: seq<RawEvent>)
    requires WellKeyed(b.pending) && ev in s && forall k :: k in b.pending ==> b.pending[k] in s
    ensures Justified(Emit(b, ev), s)
  {
    if ev.typ != MODIFIED && ev.id in b.pending {
      var other := b.pending[ev.id];
      assert other in s;
      CommitJustified(other, s);
    }
  }

  lemma {:induction false} LogJustified(s: seq<RawEvent>)
    ensures Justified(LogOf(s), s)
    ensures forall k :: k in AbsorbAll(s).pending ==> AbsorbAll(s).pending[k] in s
  {
    if s != [] {
      var front, last := s[..|s| - 1], s[|s| - 1];
      var b := AbsorbAll(front);
      LogJustified(front);
      PendingShape(front);
      assert s == front + [last];
      EmitJustified(b, last, s);
      if Pairable(last) {
        AbsorbPending(b, last);
      }
    }
  }

  lemma {:induction false} DrainJustified(p: map<Id, RawEvent>, order: seq<Id>, s: seq<RawEvent>)
    requires forall k :: k in order ==> k in p
    requires forall k :: k in p ==> p[k] in s
    ensures Justified(DrainLog(p, order), s)
  {
    if order != [] {
      DrainJustified(p, order[..|order| - 1], s);
      CommitJustified(p[order[|order| - 1]], s);
    }
  }

  lemma FullJustified(s: seq<RawEvent>, order: seq<Id>)
    requires Enumerates(order, AbsorbAll(s).pending.Keys)
    ensures Justified(FullLog(s, order), s)
  {
    LogJustified(s);
    DrainJustified(AbsorbAll(s).pending, order, s);
  }

  /** Only the entries of the one id touching `path` decide its fate. */
  lemma {:induction false} PathProject(k: Id, path: Path, log: seq<Logged>, present: set<Path>)
    requires forall l :: l in log && Touches(l.entry.fe, path) ==> l.source == FromId(k)
    ensures path in Replay(present, log) <==> path in Replay(present, Project(FromId(k), log))
  {
    if log != [] {
      var front, last := log[..|log| - 1], log[|log| - 1];
      assert last in log;
      PathProject(k, path, front, present);
      if last.source == FromId(k) {
        ReplayConcat(present, Project(FromId(k), front), [last]);
        ReplayOne(Replay(present, Project(FromId(k), front)), last);
      } else {
        assert Project(FromId(k), log) == Project(FromId(k), front);
      }
    }
  }

  /** An event of the id does to its path what it does among all events. */
  lemma PathOwnEvent(k: Id, path: Path, front: seq<RawEvent>, last: RawEvent, present: set<Path>)
    requires last.typ != MODIFIED && last.id == k
    requires path in ReplayMates(present, front) <==> path in ReplayMates(present, Only(k, front))
    ensures path in ReplayMates(present, front + [last]) <==> path in ReplayMates(present, Only(k, front) + [last])
  {
    AbsorbIndependent(k, front);
    ReplayMatesLast(present, front, last);
    ReplayMatesLast(present, Only(k, front), last);
  }

  lemma PathOtherEvent(path: Path, front: seq<RawEvent>, last: RawEvent, present: set<Path>)
    requires !Known(last) || last.path != path
    ensures path in ReplayMates(present, front + [last]) <==> path in ReplayMates(present, front)
  {
    ReplayMatesLast(present, front, last);
  }

  lemma {:induction false} PathOnly(k: Id, path: Path, s: seq<RawEvent>, present: set<Path>)
    requires forall e :: e in s && Known(e) && e.path == path ==> e.id == k
    ensures path in ReplayMates(present, s) <==> path in ReplayMates(present, Only(k, s))
  {
    if s != [] {
      var front, last := s[..|s| - 1], s[|s| - 1];
      assert last in s && s == front + [last];
      PathOnly(k, path, front, present);
      if last.typ != MODIFIED && last.id == k {
        PathOwnEvent(k, path, front, last, present);
      } else {
        PathOtherEvent(path, front, last, present);
        assert Only(k, s) == Only(k, front);
      }
    }
  }

  lemma ReplayMatesLast(present: set<Path>, u: seq<RawEvent>, ev: RawEvent)
    ensures ReplayMates(present, u + [ev])
      == ApplyRaw(ReplayMates(present, u), ev, FormsMove(AbsorbAll(u).pending, ev))
  {
    assert (u + [ev])[..|u|] == u;
  }

  /** No path is touched under two different ids (0 counts as one id). */
  ghost predicate NoSharing(s: seq<RawEvent>) {
    forall e, f :: e in s && f in s && Known(e) && Known(f) && e.path == f.path ==> e.id == f.id
  }

  /** Net effect of a whole window, for every order of the final range: the
      emitted events lead to the same set of paths as the raw ones. */
  lemma BatchNetEffect(s: seq<RawEvent>, order: seq<Id>, present: set<Path>)
    requires Enumerates(order, AbsorbAll(s).pending.Keys) && NoSharing(s)
    ensures Replay(present, FullLog(s, order)) == ReplayMates(present, s)
  {
    var log := FullLog(s, order);
    FullJustified(s, order);
    forall path
      ensures path in Replay(present, log) <==> path in ReplayMates(present, s)
    {
      var k: Id := if exists e :: e in s && Known(e) && e.path == path
        then var e :| e in s && Known(e) && e.path == path; e.id else 0;
      PathProject(k, path, log, present);
      PathOnly(k, path, s, present);
      SingleIdNetEffect(k, s, order, present);
    }
  }

  // ---- exactly when the plain reading agrees -------------------------------

  /** The last known event about `path` is the second half of an OLD/OLD pair. */
  predicate EndsAsOldMate(s: seq<RawEvent>, path: Path) {
    s != [] &&
    var front, last := s[..|s| - 1], s[|s| - 1];
    if Known(last) && last.path == path then
      last.typ == RENAMED_OLD && FormsMove(AbsorbAll(front).pending, last)
    else EndsAsOldMate(front, path)
  }

  /** No path ends that way. */
  ghost predicate ReadsLiterally(s: seq<RawEvent>) {
    forall path :: !EndsAsOldMate(s, path)
  }

  lemma {:induction false} ReadingsAtPath(s: seq<RawEvent>, path: Path, present: set<Path>)
    ensures (path in ReplayMates(present, s) <==> path in ReplayRaw(present, s)) <==> !EndsAsOldMate(s, path)
  {
    if s != [] {
      ReadingsAtPath(s[..|s| - 1], path, present);
    }
  }

  /** The emitted events replay exactly as the raw ones, read literally, if and
      only if no path ends as the second half of an OLD/OLD pair. */
  lemma NetEffectExact(s: seq<RawEvent>, order: seq<Id>, present: set<Path>)
    requires Enumerates(order, AbsorbAll(s).pending.Keys) && NoSharing(s)
    ensures Replay(present, FullLog(s, order)) == ReplayRaw(present, s) <==> ReadsLiterally(s)
  {
    BatchNetEffect(s, order, present);
    forall path
      ensures (path in ReplayMates(present, s) <==> path in ReplayRaw(present, s)) <==> !EndsAsOldMate(s, path)
    {
      ReadingsAtPath(s, path, present);
    }
    if Replay(present, FullLog(s, order)) == ReplayRaw(present, s) {
      assert forall path :: path in ReplayMates(present, s) <==> path in ReplayRaw(present, s);
    } else {
      var path :| !(path in ReplayMates(present, s) <==> path in ReplayRaw(present, s));
      assert EndsAsOldMate(s, path);
    }
  }

  /** Linux and Windows never send two RENAMED_OLD in a row under one id; then
      the literal reading is always kept. */
  lemma NetEffectWithoutOldPairs(s: seq<RawEvent>, order: seq<Id>, present: set<Path>)
    requires Enumerates(order, AbsorbAll(s).pending.Keys) && NoSharing(s)
    requires forall k: Id, i :: 0 <= i < |Only(k, s)| - 1 ==>
      !(Only(k, s)[i].typ == RENAMED_OLD && Only(k, s)[i + 1].typ == RENAMED_OLD)
    ensures Replay(present, FullLog(s, order)) == ReplayRaw(present, s)
  {
    forall path
      ensures !EndsAsOldMate(s, path)
    {
      NoOldMate(s, path);
    }
    NetEffectExact(s, order, present);
  }

  lemma {:induction false} NoOldMate(s: seq<RawEvent>, path: Path)
    requires forall k: Id, i :: 0 <= i < |Only(k, s)| - 1 ==>
      !(Only(k, s)[i].typ == RENAMED_OLD && Only(k, s)[i + 1].typ == RENAMED_OLD)
    ensures !EndsAsOldMate(s, path)
  {
    if s != [] {
      var front, last := s[..|s| - 1], s[|s| - 1];
      forall k: Id, i | 0 <= i < |Only(k, front)| - 1
        ensures !(Only(k, front)[i].typ == RENAMED_OLD && Only(k, front)[i + 1].typ == RENAMED_OLD)
      {
        assert Only(k, s)[i] == Only(k, front)[i] && Only(k, s)[i + 1] == Only(k, front)[i + 1];
      }
      NoOldMate(front, path);
      if Known(last) && last.path == path && last.typ == RENAMED_OLD && last.id != 0 {
        var k := last.id;
        var u := Only(k, front);
        OnlyIsOfId(k, front);
        SinglePending(k, u);
        AbsorbIndependent(k, front);
        if u != [] {
          assert Only(k, s)[|u| - 1] == u[|u| - 1] && Only(k, s)[|u|] == last;
        }
      }
    }
  }

  /** Sharing a path between ids can really break it. Linux: a file is moved in, which
      carries an id, and deleted, which carries none; the arrival is held back for its
      mate and comes out after the delete. */
  lemma SharingBreaksNetEffect()
    ensures var s := [RawEvent(RENAMED_NEW, "a", 7), RawEvent(REMOVED, "a", 0)];
      && Enumerates([7], AbsorbAll(s).pending.Keys)
      && Replay({}, FullLog(s, [7])) != ReplayRaw({}, s)
  {
    var arrive, delete := RawEvent(RENAMED_NEW, "a", 7), RawEvent(REMOVED, "a", 0);
    var s := [arrive, delete];
    var one := [arrive];
    assert one[..0] == [] && s[..1] == one;
    assert AbsorbAll(one) == Absorb(EMPTY, arrive);
    assert AbsorbAll(s) == Absorb(AbsorbAll(one), delete);
    var p := AbsorbAll(s).pending;
    assert p == map[7 := arrive];
    assert LogOf(one) == [];
    assert LogOf(s) == CommitLog(delete);
    var order: seq<Id> := [7];
    assert order[..0] == [];
    assert DrainLog(p, order) == CommitLog(arrive);
    ReplayConcat({}, CommitLog(delete), CommitLog(arrive));
    CommitEffect({}, delete);
    CommitEffect({}, arrive);
    assert "a" in Replay({}, FullLog(s, order));
    assert ReplayRaw({}, one) == {"a"};
    assert "a" !in ReplayRaw({}, s);
  }
}
