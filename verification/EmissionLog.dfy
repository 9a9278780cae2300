/** What a batch emits, with each entry attributed to the id that produced it.
    Erasing the attribution gives back the batch's `out` (LogIsOutput), so facts
    about the log are facts about the delivered entries. */
module EmissionLog {
  import opened Events
  import opened Batching

  datatype Source = FromModify | FromId(id: Id)

  datatype Logged = Logged(source: Source, entry: Entry)

  function Erase(log: seq<Logged>): seq<Entry> {
    seq(|log|, i requires 0 <= i < |log| => log[i].entry)
  }

  /** The entries of one source, in order of emission. */
  function Project(source: Source, log: seq<Logged>): seq<Logged> {
    if log == [] then []
    else
      var last := log[|log| - 1];
      Project(source, log[..|log| - 1]) + if last.source == source then [last] else []
  }

  function CommitLog(ev: RawEvent): seq<Logged> {
    match EntryOf(ev)
    case Some(e) => [Logged(FromId(ev.id), e)]
    case None => []
  }

  /** What absorbing `ev` appends to `out`. */
  function Emit(b: Batch, ev: RawEvent): seq<Logged> {
    if ev.typ == MODIFIED then
      if ev.path in b.lastModifiedAt then [] else [Logged(FromModify, ModifiedEntry(ev.path))]
    else if ev.id == 0 then CommitLog(ev)
    else if ev.id !in b.pending then []
    else
      var other := b.pending[ev.id];
      if Pairs(other.typ, ev.typ) then [Logged(FromId(ev.id), MoveOf(other, ev))] else CommitLog(other)
  }

  function LogOf(s: seq<RawEvent>): seq<Logged> {
    if s == [] then []
    else LogOf(s[..|s| - 1]) + Emit(AbsorbAll(s[..|s| - 1]), s[|s| - 1])
  }

  function DrainLog(pending: map<Id, RawEvent>, order: seq<Id>): seq<Logged>
    requires forall k :: k in order ==> k in pending
  {
    if order == [] then []
    else DrainLog(pending, order[..|order| - 1]) + CommitLog(pending[order[|order| - 1]])
  }

  /** Everything one window emits, when the final map range visits `order`. */
  function FullLog(s: seq<RawEvent>, order: seq<Id>): seq<Logged>
    requires Enumerates(order, AbsorbAll(s).pending.Keys)
  {
    LogOf(s) + DrainLog(AbsorbAll(s).pending, order)
  }

  /** The non-MODIFIED events of one id. */
  function Only(k: Id, s: seq<RawEvent>): seq<RawEvent> {
    if s == [] then []
    else
      var last := s[|s| - 1];
      Only(k, s[..|s| - 1]) + if last.typ != MODIFIED && last.id == k then [last] else []
  }

  /** The distinct paths of MODIFIED events, by first occurrence. */
  function ModifiedPaths(s: seq<RawEvent>): seq<Path> {
    if s == [] then []
    else
      var front, last := ModifiedPaths(s[..|s| - 1]), s[|s| - 1];
      if last.typ == MODIFIED && last.path !in front then front + [last.path] else front
  }

  lemma AbsorbLast(s: seq<RawEvent>, ev: RawEvent)
    ensures AbsorbAll(s + [ev]) == Absorb(AbsorbAll(s), ev)
    ensures LogOf(s + [ev]) == LogOf(s) + Emit(AbsorbAll(s), ev)
  {
    assert (s + [ev])[..|s|] == s;
  }

  lemma {:induction false} ProjectConcat(source: Source, a: seq<Logged>, b: seq<Logged>)
    ensures Project(source, a + b) == Project(source, a) + Project(source, b)
  {
    if b == [] {
      assert a + b == a;
    } else {
      assert (a + b)[..|a + b| - 1] == a + b[..|b| - 1];
      ProjectConcat(source, a, b[..|b| - 1]);
    }
  }

  lemma EraseConcat(a: seq<Logged>, b: seq<Logged>)
    ensures Erase(a + b) == Erase(a) + Erase(b)
  {
  }

  /** One absorb appends exactly what Emit says. */
  lemma AbsorbAppends(b: Batch, ev: RawEvent)
    requires WellKeyed(b.pending) && !Panics(b, ev)
    ensures Absorb(b, ev).out == b.out + Erase(Emit(b, ev))
  {
    var e := Emit(b, ev);
    assert Erase(e) == if e == [] then [] else [e[0].entry];
    assert b.out + [] == b.out;
  }

  ghost predicate WellKeyed(p: map<Id, RawEvent>) {
    forall k :: k in p ==> p[k].id == k && k != 0 && p[k].typ != MODIFIED
  }

  lemma AbsorbWellKeyed(b: Batch, ev: RawEvent)
    requires WellKeyed(b.pending) && !Panics(b, ev)
    ensures WellKeyed(Absorb(b, ev).pending)
  {
  }

  /** `pending` never holds a MODIFIED event or id 0, and keys match. */
  lemma {:induction false} PendingShape(s: seq<RawEvent>)
    ensures WellKeyed(AbsorbAll(s).pending)
  {
    if s != [] {
      PendingShape(s[..|s| - 1]);
      AbsorbWellKeyed(AbsorbAll(s[..|s| - 1]), s[|s| - 1]);
    }
  }

  lemma {:induction false} OutIsLog(s: seq<RawEvent>)
    ensures AbsorbAll(s).out == Erase(LogOf(s))
  {
    if s != [] {
      var front, last := s[..|s| - 1], s[|s| - 1];
      OutIsLog(front);
      PendingShape(front);
      AbsorbAppends(AbsorbAll(front), last);
      EraseConcat(LogOf(front), Emit(AbsorbAll(front), last));
    }
  }

  lemma CommitAppends(b: Batch, ev: RawEvent)
    requires ev.typ != MODIFIED
    ensures Commit(b, ev) == b.(out := b.out + Erase(CommitLog(ev)))
  {
    if EntryOf(ev).Some? {
      assert Erase(CommitLog(ev)) == [EntryOf(ev).value];
    }
  }

  lemma {:induction false} CommitKeysIsLog(b: Batch, order: seq<Id>)
    requires forall k :: k in order ==> k in b.pending
    requires WellKeyed(b.pending)
    ensures CommitKeys(b, order) == b.(out := b.out + Erase(DrainLog(b.pending, order)))
  {
    if order != [] {
      var front, last := order[..|order| - 1], order[|order| - 1];
      CommitKeysIsLog(b, front);
      CommitAppends(CommitKeys(b, front), b.pending[last]);
      EraseConcat(DrainLog(b.pending, front), CommitLog(b.pending[last]));
    }
  }

  /** The drained output is the log without its attribution. */
  lemma LogIsOutput(s: seq<RawEvent>, order: seq<Id>)
    requires Enumerates(order, AbsorbAll(s).pending.Keys)
    ensures Drain(AbsorbAll(s), order).out == Erase(FullLog(s, order))
  {
    var b := AbsorbAll(s);
    PendingShape(s);
    OutIsLog(s);
    CommitKeysIsLog(b, order);
    EraseConcat(LogOf(s), DrainLog(b.pending, order));
  }

  lemma CommitLogProject(source: Source, ev: RawEvent)
    ensures Project(source, CommitLog(ev)) == if source == FromId(ev.id) then CommitLog(ev) else []
  {
    if EntryOf(ev).Some? {
      var e := Logged(FromId(ev.id), EntryOf(ev).value);
      assert CommitLog(ev) == [e] && [e][..0] == [];
    }
  }

  lemma {:induction false} DrainProject(pending: map<Id, RawEvent>, order: seq<Id>, source: Source)
    requires forall k :: k in order ==> k in pending && pending[k].id == k
    requires forall i, j :: 0 <= i < j < |order| ==> order[i] != order[j]
    ensures Project(source, DrainLog(pending, order)) ==
      if source.FromId? && source.id in order then CommitLog(pending[source.id]) else []
  {
    if order != [] {
      var front, last := order[..|order| - 1], order[|order| - 1];
      assert order == front + [last];
      DrainProject(pending, front, source);
      calc {
        Project(source, DrainLog(pending, order));
        { ProjectConcat(source, DrainLog(pending, front), CommitLog(pending[last])); }
        Project(source, DrainLog(pending, front)) + Project(source, CommitLog(pending[last]));
        { CommitLogProject(source, pending[last]); }
        Project(source, DrainLog(pending, front)) + if source == FromId(last) then CommitLog(pending[last]) else [];
      }
      assert forall i :: 0 <= i < |front| ==> order[i] != last;
    }
  }

  /** `p` and `q` agree on id `k`. */
  ghost predicate SameAt(k: Id, p: map<Id, RawEvent>, q: map<Id, RawEvent>) {
    (k in p <==> k in q) && (k in p ==> p[k] == q[k])
  }

  lemma EmitElsewhere(k: Id, b: Batch, ev: RawEvent)
    requires WellKeyed(b.pending) && !Panics(b, ev) && !(ev.typ != MODIFIED && ev.id == k)
    ensures Project(FromId(k), Emit(b, ev)) == []
    ensures SameAt(k, Absorb(b, ev).pending, b.pending)
  {
    var e := Emit(b, ev);
    if e != [] {
      assert |e| == 1 && e[..0] == [];
    }
  }

  lemma EmitHere(k: Id, b: Batch, c: Batch, ev: RawEvent)
    requires WellKeyed(b.pending) && !Panics(b, ev) && !Panics(c, ev)
    requires ev.typ != MODIFIED && ev.id == k && SameAt(k, b.pending, c.pending) && c.pending.Keys <= {k}
    ensures Project(FromId(k), Emit(b, ev)) == Emit(c, ev)
    ensures SameAt(k, Absorb(b, ev).pending, Absorb(c, ev).pending)
    ensures Absorb(c, ev).pending.Keys <= {k}
  {
    var e := Emit(b, ev);
    if e != [] {
      assert |e| == 1 && e[..0] == [];
      assert e == [e[0]];
    }
  }

  /** While absorbing, id `k` lives its own life. */
  lemma {:induction false} AbsorbIndependent(k: Id, s: seq<RawEvent>)
    ensures Project(FromId(k), LogOf(s)) == LogOf(Only(k, s))
    ensures SameAt(k, AbsorbAll(s).pending, AbsorbAll(Only(k, s)).pending)
    ensures AbsorbAll(Only(k, s)).pending.Keys <= {k}
  {
    if s != [] {
      var front, last := s[..|s| - 1], s[|s| - 1];
      AbsorbIndependent(k, front);
      PendingShape(front);
      var b := AbsorbAll(front);
      ProjectConcat(FromId(k), LogOf(front), Emit(b, last));
      if last.typ != MODIFIED && last.id == k {
        AbsorbLast(Only(k, front), last);
        EmitHere(k, b, AbsorbAll(Only(k, front)), last);
      } else {
        EmitElsewhere(k, b, last);
        assert Only(k, s) == Only(k, front) && LogOf(Only(k, front)) + [] == LogOf(Only(k, front));
      }
    }
  }

  /** Ids do not interfere: whatever the interleaving and whatever order the
      final range takes, id `k` contributes exactly what coalescing its own
      events alone emits. */
  lemma NonInterference(k: Id, s: seq<RawEvent>, order: seq<Id>, alone: seq<Id>)
    requires Enumerates(order, AbsorbAll(s).pending.Keys)
    requires Enumerates(alone, AbsorbAll(Only(k, s)).pending.Keys)
    ensures Project(FromId(k), FullLog(s, order)) == FullLog(Only(k, s), alone)
  {
    var p, q := AbsorbAll(s).pending, AbsorbAll(Only(k, s)).pending;
    AbsorbIndependent(k, s);
    PendingShape(s);
    ProjectConcat(FromId(k), LogOf(s), DrainLog(p, order));
    DrainProject(p, order, FromId(k));
    DrainAlone(k, q, alone);
  }

  lemma DrainAlone(k: Id, q: map<Id, RawEvent>, alone: seq<Id>)
    requires q.Keys <= {k} && Enumerates(alone, q.Keys)
    ensures DrainLog(q, alone) == if k in q then CommitLog(q[k]) else []
  {
    assert forall i :: 0 <= i < |alone| ==> alone[i] in alone;
    if k in q {
      assert k in alone;
      var i :| 0 <= i < |alone| && alone[i] == k;
      forall j | 0 <= j < |alone|
        ensures alone[j] == k && j == i
      {
        assert alone[j] in q.Keys;
      }
      assert alone[if i == 0 then |alone| - 1 else 0] == k;
      assert alone == [k] && alone[..0] == [];
    }
  }

  lemma {:induction false} ModifiedPathsProps(s: seq<RawEvent>)
    ensures forall p :: p in ModifiedPaths(s) <==> exists e :: e in s && e.typ == MODIFIED && e.path == p
    ensures forall i, j :: 0 <= i < j < |ModifiedPaths(s)| ==> ModifiedPaths(s)[i] != ModifiedPaths(s)[j]
  {
    if s != [] {
      var front, last := s[..|s| - 1], s[|s| - 1];
      ModifiedPathsProps(front);
      assert s == front + [last];
      assert forall e :: e in s <==> e in front || e == last;
    }
  }

  lemma AbsorbModifiedKeys(b: Batch, ev: RawEvent)
    requires WellKeyed(b.pending) && !Panics(b, ev)
    ensures Absorb(b, ev).lastModifiedAt.Keys ==
      b.lastModifiedAt.Keys + if ev.typ == MODIFIED then {ev.path} else {}
  {
  }

  lemma {:induction false} ModifiedKeys(s: seq<RawEvent>)
    ensures forall p :: p in AbsorbAll(s).lastModifiedAt <==> p in ModifiedPaths(s)
  {
    if s != [] {
      var front, last := s[..|s| - 1], s[|s| - 1];
      ModifiedKeys(front);
      PendingShape(front);
      AbsorbModifiedKeys(AbsorbAll(front), last);
      var b := AbsorbAll(s);
      assert forall p :: p in b.lastModifiedAt <==> p in b.lastModifiedAt.Keys;
      assert ModifiedPaths(s) == ModifiedPaths(front) || ModifiedPaths(s) == ModifiedPaths(front) + [last.path];
    }
  }

  function ModifiedLog(paths: seq<Path>): seq<Logged> {
    seq(|paths|, i requires 0 <= i < |paths| => Logged(FromModify, ModifiedEntry(paths[i])))
  }

  /** MODIFIED events are emitted once per distinct path, in order of first
      arrival, and the drain adds none. */
  lemma {:induction false} ModifiedOncePerPath(s: seq<RawEvent>, order: seq<Id>)
    requires Enumerates(order, AbsorbAll(s).pending.Keys)
    ensures Project(FromModify, FullLog(s, order)) == ModifiedLog(ModifiedPaths(s))
    ensures forall p :: p in ModifiedPaths(s) <==> exists e :: e in s && e.typ == MODIFIED && e.path == p
    ensures forall i, j :: 0 <= i < j < |ModifiedPaths(s)| ==> ModifiedPaths(s)[i] != ModifiedPaths(s)[j]
  {
    ModifiedPathsProps(s);
    PendingShape(s);
    ModifiedWhileAbsorbing(s);
    DrainProject(AbsorbAll(s).pending, order, FromModify);
    ProjectConcat(FromModify, LogOf(s), DrainLog(AbsorbAll(s).pending, order));
  }

  lemma EmitFromModify(b: Batch, ev: RawEvent)
    ensures Project(FromModify, Emit(b, ev)) ==
      if ev.typ == MODIFIED && ev.path !in b.lastModifiedAt then [Logged(FromModify, ModifiedEntry(ev.path))] else []
  {
    var e := Emit(b, ev);
    if e != [] {
      assert |e| == 1 && e[..0] == [] && e == [e[0]];
    }
  }

  lemma {:induction false} ModifiedWhileAbsorbing(s: seq<RawEvent>)
    ensures Project(FromModify, LogOf(s)) == ModifiedLog(ModifiedPaths(s))
  {
    if s != [] {
      var front, last := s[..|s| - 1], s[|s| - 1];
      ModifiedWhileAbsorbing(front);
      ModifiedKeys(front);
      ProjectConcat(FromModify, LogOf(front), Emit(AbsorbAll(front), last));
      EmitFromModify(AbsorbAll(front), last);
      if last.typ == MODIFIED && last.path !in ModifiedPaths(front) {
        ModifiedLogNext(ModifiedPaths(front), last.path);
      }
    }
  }

  lemma ModifiedLogNext(paths: seq<Path>, path: Path)
    ensures ModifiedLog(paths + [path]) == ModifiedLog(paths) + [Logged(FromModify, ModifiedEntry(path))]
  {
    assert (paths + [path])[..|paths|] == paths;
  }
}
