/** Where every emitted entry comes from. */
module Explanation {
  import opened Events
  import opened Batching
  import opened EmissionLog
  import opened Pairing

  /** The entry of a raw event on its own; `fromHalf` marks exactly a lone RENAMED_OLD. */
  predicate Single(e: Entry, ev: RawEvent) {
    && e.fe.path == ev.path && e.fe.oldPath == ""
    && e.fromHalf == (ev.typ == RENAMED_OLD)
    && (e.fe.kind == Created ==> ev.typ == CREATED || ev.typ == RENAMED_NEW)
    && (e.fe.kind == Removed ==> ev.typ == REMOVED || ev.typ == RENAMED_OLD)
    && (e.fe.kind == Modified ==> ev.typ == MODIFIED)
    && e.fe.kind != Move
  }

  /** The Move from where the first event happened to where the second did. */
  predicate Paired(e: Entry, first: RawEvent, second: RawEvent) {
    && e == Entry(FileEvent(Move, second.path, first.path), false)
    && (first.typ == RENAMED_OLD ==> second.typ == RENAMED_NEW || second.typ == RENAMED_OLD)
    && (first.typ != RENAMED_OLD ==> first.typ == REMOVED && second.typ == CREATED)
  }

  ghost predicate FromSingle(l: Logged, s: seq<RawEvent>) {
    exists ev :: ev in s && Single(l.entry, ev) &&
      l.source == (if ev.typ == MODIFIED then FromModify else FromId(ev.id))
  }

  /** Position `i` of id `k`'s own events and the next one form the Move. */
  predicate MoveAt(e: Entry, k: Id, s: seq<RawEvent>, i: nat) {
    i + 1 < |Only(k, s)| && Paired(e, Only(k, s)[i], Only(k, s)[i + 1])
  }

  ghost predicate FromPair(l: Logged, s: seq<RawEvent>) {
    l.source.FromId? && l.source.id != 0 && exists i: nat :: MoveAt(l.entry, l.source.id, s, i)
  }

  ghost predicate Explained(log: seq<Logged>, s: seq<RawEvent>) {
    forall l :: l in log ==> if l.entry.fe.kind == Move then FromPair(l, s) else FromSingle(l, s)
  }

  /** The last of id `k`'s own events in `s`. */
  predicate LastOf(ev: RawEvent, k: Id, s: seq<RawEvent>) {
    && k != 0 && ev in s && ev.typ != MODIFIED && ev.id == k
    && |Only(k, s)| > 0 && ev == Only(k, s)[|Only(k, s)| - 1]
  }

  ghost predicate PendingIsLast(p: map<Id, RawEvent>, s: seq<RawEvent>) {
    forall k :: k in p ==> LastOf(p[k], k, s)
  }

  lemma ExplainedLater(log: seq<Logged>, s: seq<RawEvent>, ev: RawEvent)
    requires Explained(log, s)
    ensures Explained(log, s + [ev])
  {
    var t := s + [ev];
    assert t[..|s|] == s;
    forall l | l in log
      ensures if l.entry.fe.kind == Move then FromPair(l, t) else FromSingle(l, t)
    {
      if l.entry.fe.kind == Move {
        var i: nat :| MoveAt(l.entry, l.source.id, s, i);
        assert MoveAt(l.entry, l.source.id, t, i);
      } else {
        assert FromSingle(l, s);
      }
    }
  }

  lemma CommitExplained(ev: RawEvent, s: seq<RawEvent>)
    requires ev in s
    ensures Explained(CommitLog(ev), s)
  {
    if l :| l in CommitLog(ev) {
      assert Single(l.entry, ev);
    }
  }

  lemma PairExplained(s: seq<RawEvent>, ev: RawEvent, other: RawEvent)
    requires Pairable(ev) && Pairs(other.typ, ev.typ)
    requires |Only(ev.id, s)| > 0 && other == Only(ev.id, s)[|Only(ev.id, s)| - 1]
    ensures Explained([Logged(FromId(ev.id), MoveOf(other, ev))], s + [ev])
  {
    var t, u := s + [ev], Only(ev.id, s);
    assert t[..|s|] == s;
    assert Only(ev.id, t) == u + [ev];
    assert (u + [ev])[|u| - 1] == other && (u + [ev])[|u|] == ev;
    assert MoveAt(MoveOf(other, ev), ev.id, t, |u| - 1);
  }

  lemma EmitExplained(s: seq<RawEvent>, ev: RawEvent)
    requires PendingIsLast(AbsorbAll(s).pending, s)
    ensures Explained(Emit(AbsorbAll(s), ev), s + [ev])
  {
    var b := AbsorbAll(s);
    if ev.typ == MODIFIED {
      assert Single(ModifiedEntry(ev.path), ev);
    } else if ev.id == 0 {
      CommitExplained(ev, s + [ev]);
    } else if ev.id in b.pending {
      if Pairs(b.pending[ev.id].typ, ev.typ) {
        PairExplained(s, ev, b.pending[ev.id]);
      } else {
        CommitExplained(b.pending[ev.id], s + [ev]);
      }
    }
  }

  lemma LastOfNext(s: seq<RawEvent>, ev: RawEvent, x: RawEvent, k: Id)
    requires if ev.typ != MODIFIED && ev.id == k then k != 0 && x == ev else LastOf(x, k, s)
    ensures LastOf(x, k, s + [ev])
  {
    assert (s + [ev])[..|s|] == s;
  }

  lemma PendingStaysLast(s: seq<RawEvent>, ev: RawEvent)
    requires PendingIsLast(AbsorbAll(s).pending, s)
    ensures PendingIsLast(AbsorbAll(s + [ev]).pending, s + [ev])
  {
    var p, q := AbsorbAll(s).pending, AbsorbAll(s + [ev]).pending;
    AbsorbLast(s, ev);
    if Pairable(ev) {
      AbsorbPending(AbsorbAll(s), ev);
    }
    forall k | k in q
      ensures LastOf(q[k], k, s + [ev])
    {
      LastOfNext(s, ev, q[k], k);
    }
  }

  lemma {:induction false} LogExplained(s: seq<RawEvent>)
    ensures Explained(LogOf(s), s) && PendingIsLast(AbsorbAll(s).pending, s)
  {
    if s != [] {
      var front, last := s[..|s| - 1], s[|s| - 1];
      assert s == front + [last];
      LogExplained(front);
      ExplainedLater(LogOf(front), front, last);
      EmitExplained(front, last);
      PendingStaysLast(front, last);
    }
  }

  lemma {:induction false} DrainExplained(p: map<Id, RawEvent>, order: seq<Id>, s: seq<RawEvent>)
    requires forall k :: k in order ==> k in p
    requires forall k :: k in p ==> p[k] in s
    ensures Explained(DrainLog(p, order), s)
  {
    if order != [] {
      DrainExplained(p, order[..|order| - 1], s);
      CommitExplained(p[order[|order| - 1]], s);
    }
  }

  /** Every emitted entry is explained by the raw events of its own id: a Move by two
      adjacent ones of a pairing combination, from the first's path to the second's; any
      other entry by one event of the corresponding type and path, with the half-move
      mark exactly on a lone RENAMED_OLD. */
  lemma EveryEntryIsExplained(s: seq<RawEvent>, order: seq<Id>)
    requires Enumerates(order, AbsorbAll(s).pending.Keys)
    ensures Explained(FullLog(s, order), s)
  {
    LogExplained(s);
    DrainExplained(AbsorbAll(s).pending, order, s);
  }
}
