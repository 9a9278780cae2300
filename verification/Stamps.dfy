/** Which raw events each entry of a window stands for, by their positions in the raw
    sequence, and when its entry comes out. Nothing here looks at a batch: everything is
    read off the raw events. */
module Stamps {
  import opened Events
  import opened Batching
  import opened EmissionLog
  import opened Pairing
  import opened Explanation

  // ---- positions ---------------------------------------------------------------

  /** The last non-MODIFIED event of id `k`, or -1. */
  function LastIndex(s: seq<RawEvent>, k: Id): (i: int)
    ensures -1 <= i < |s|
    ensures i >= 0 ==> s[i].typ != MODIFIED && s[i].id == k
  {
    if s == [] then -1
    else if s[|s| - 1].typ != MODIFIED && s[|s| - 1].id == k then |s| - 1
    else LastIndex(s[..|s| - 1], k)
  }

  /** Event `i` completes a Move: parsing its id's events from the left, two at a time
      where they pair, it is the second of two. */
  predicate Second(s: seq<RawEvent>, i: nat)
    requires i < |s|
    decreases i
  {
    && Pairable(s[i])
    && var p := LastIndex(s[..i], s[i].id);
       p >= 0 && !Second(s, p) && Pairs(s[p].typ, s[i].typ)
  }

  lemma {:induction false} SecondPrefix(s: seq<RawEvent>, t: seq<RawEvent>, i: nat)
    requires i < |s| && s <= t
    ensures Second(s, i) == Second(t, i)
    decreases i
  {
    assert s[..i] == t[..i];
    var p := LastIndex(s[..i], s[i].id);
    if p >= 0 {
      SecondPrefix(s, t, p);
    }
  }

  /** Waits for a mate after `s`. */
  predicate Waiting(s: seq<RawEvent>, k: Id) {
    k != 0 && LastIndex(s, k) >= 0 && !Second(s, LastIndex(s, k))
  }

  /** The first MODIFIED event about its path. */
  predicate FirstModified(s: seq<RawEvent>, i: nat)
    requires i < |s|
  {
    s[i].typ == MODIFIED && s[i].path !in ModifiedPaths(s[..i])
  }

  /** Has a part in some entry. */
  predicate Stamped(s: seq<RawEvent>, i: nat)
    requires i < |s|
  {
    Known(s[i]) || FirstModified(s, i)
  }

  // ---- the stamps of a window ----------------------------------------------------

  /** What the arrival of `ev` after `s` makes come out. */
  function NewStamps(s: seq<RawEvent>, ev: RawEvent): seq<nat> {
    if ev.typ == MODIFIED then (if ev.path in ModifiedPaths(s) then [] else [|s|])
    else if ev.id == 0 then (if Known(ev) then [|s|] else [])
    else if !Waiting(s, ev.id) then []
    else
      var p := LastIndex(s, ev.id);
      if Pairs(s[p].typ, ev.typ) then [p, |s|] else if Known(s[p]) then [p] else []
  }

  function StampsOf(s: seq<RawEvent>): seq<nat> {
    if s == [] then []
    else StampsOf(s[..|s| - 1]) + NewStamps(s[..|s| - 1], s[|s| - 1])
  }

  function LastStamp(s: seq<RawEvent>, k: Id): seq<nat> {
    var i := LastIndex(s, k);
    if i >= 0 && Known(s[i]) then [i] else []
  }

  function DrainStamps(s: seq<RawEvent>, order: seq<Id>): seq<nat> {
    if order == [] then []
    else DrainStamps(s, order[..|order| - 1]) + LastStamp(s, order[|order| - 1])
  }

  /** The raw events behind the entries of a window, in the order the entries come out. */
  function FullStamps(s: seq<RawEvent>, order: seq<Id>): seq<nat> {
    StampsOf(s) + DrainStamps(s, order)
  }

  /** What is pending is what waits. */
  lemma {:induction false} PendingWaits(s: seq<RawEvent>)
    ensures forall k :: k in AbsorbAll(s).pending <==> Waiting(s, k)
    ensures forall k :: Waiting(s, k) && k in AbsorbAll(s).pending ==> AbsorbAll(s).pending[k] == s[LastIndex(s, k)]
  {
    if s != [] {
      var front, last := s[..|s| - 1], s[|s| - 1];
      var n := |front|;
      PendingWaits(front);
      var b := AbsorbAll(front);
      forall k | LastIndex(front, k) >= 0
        ensures Second(s, LastIndex(front, k)) == Second(front, LastIndex(front, k))
      {
        SecondPrefix(front, s, LastIndex(front, k));
      }
      if Pairable(last) {
        AbsorbPending(b, last);
        assert LastIndex(s, last.id) == n;
        assert Second(s, n) <==> FormsMove(b.pending, last);
      }
      forall k
        ensures k in AbsorbAll(s).pending <==> Waiting(s, k)
        ensures Waiting(s, k) && k in AbsorbAll(s).pending ==> AbsorbAll(s).pending[k] == s[LastIndex(s, k)]
      {
        if !(Pairable(last) && k == last.id) {
          assert k in AbsorbAll(s).pending <==> k in b.pending;
          assert k != 0 ==> LastIndex(s, k) == LastIndex(front, k);
        }
      }
    }
  }

  // ---- reading the log back ------------------------------------------------------

  ghost predicate InRange(s: seq<RawEvent>, st: seq<nat>) {
    forall x :: x in st ==> x < |s|
  }

  /** The entry is the Move of two successive events of its id, the second of which
      completes it. */
  predicate MovePiece(l: Logged, s: seq<RawEvent>, x: nat, y: nat)
    requires x < |s| && y < |s|
  {
    && x < y && s[y].typ != MODIFIED && x == LastIndex(s[..y], s[y].id)
    && Second(s, y) && Paired(l.entry, s[x], s[y]) && l.source == FromId(s[y].id)
  }

  /** The entry is that of one event, which completes no Move. */
  predicate SinglePiece(l: Logged, s: seq<RawEvent>, y: nat)
    requires y < |s|
  {
    && !Second(s, y) && Single(l.entry, s[y])
    && l.source == (if s[y].typ == MODIFIED then FromModify else FromId(s[y].id))
  }

  /** The last entry stands for the last stamp or, being a Move, for the last two. */
  predicate LastPiece(l: Logged, s: seq<RawEvent>, st: seq<nat>) {
    if l.entry.fe.kind == Move then
      |st| >= 2 && st[|st| - 2] < |s| && st[|st| - 1] < |s| && MovePiece(l, s, st[|st| - 2], st[|st| - 1])
    else
      |st| >= 1 && st[|st| - 1] < |s| && SinglePiece(l, s, st[|st| - 1])
  }

  function PieceLength(l: Logged): nat {
    if l.entry.fe.kind == Move then 2 else 1
  }

  /** The entries, each read back as its one or two raw events, are the stamps. */
  predicate Spells(log: seq<Logged>, s: seq<RawEvent>, st: seq<nat>) {
    if log == [] then st == []
    else
      var last := log[|log| - 1];
      LastPiece(last, s, st) && Spells(log[..|log| - 1], s, st[..|st| - PieceLength(last)])
  }

  lemma SpellsOne(log: seq<Logged>, s: seq<RawEvent>, st: seq<nat>, l: Logged, y: nat)
    requires Spells(log, s, st) && y < |s| && SinglePiece(l, s, y)
    ensures Spells(log + [l], s, st + [y])
  {
    assert (log + [l])[..|log|] == log && (st + [y])[..|st|] == st;
  }

  lemma SpellsTwo(log: seq<Logged>, s: seq<RawEvent>, st: seq<nat>, l: Logged, x: nat, y: nat)
    requires Spells(log, s, st) && x < |s| && y < |s| && l.entry.fe.kind == Move && MovePiece(l, s, x, y)
    ensures Spells(log + [l], s, st + [x, y])
  {
    assert (log + [l])[..|log|] == log && (st + [x, y])[..|st|] == st;
  }

  lemma {:induction false} SpellsLater(log: seq<Logged>, s: seq<RawEvent>, st: seq<nat>, ev: RawEvent)
    requires Spells(log, s, st)
    ensures Spells(log, s + [ev], st)
  {
    if log != [] {
      var t := s + [ev];
      SpellsLater(log[..|log| - 1], s, st[..|st| - PieceLength(log[|log| - 1])], ev);
      var y := st[|st| - 1];
      assert t[..y] == s[..y];
      SecondPrefix(s, t, y);
    }
  }

  lemma {:induction false} StampsInRange(s: seq<RawEvent>)
    ensures InRange(s, StampsOf(s))
  {
    if s != [] {
      StampsInRange(s[..|s| - 1]);
    }
  }

  /** Committed on its own. */
  lemma CommitSpells(log: seq<Logged>, s: seq<RawEvent>, st: seq<nat>, y: nat)
    requires Spells(log, s, st) && y < |s| && s[y].typ != MODIFIED && !Second(s, y)
    ensures Spells(log + CommitLog(s[y]), s, st + if Known(s[y]) then [y] else [])
  {
    if Known(s[y]) {
      SpellsOne(log, s, st, Logged(FromId(s[y].id), EntryOf(s[y]).value), y);
    } else {
      assert log + [] == log && st + [] == st;
    }
  }

  /** Something waits for the id of the event that arrives. */
  lemma MateSpells(log: seq<Logged>, s: seq<RawEvent>, ev: RawEvent, st: seq<nat>)
    requires Spells(log, s, st) && Pairable(ev) && Waiting(s, ev.id)
    ensures var p := LastIndex(s, ev.id);
      Spells(
        log + if Pairs(s[p].typ, ev.typ) then [Logged(FromId(ev.id), MoveOf(s[p], ev))] else CommitLog(s[p]),
        s + [ev], st + NewStamps(s, ev))
  {
    var t, n, p := s + [ev], |s|, LastIndex(s, ev.id);
    SpellsLater(log, s, st, ev);
    SecondPrefix(s, t, p);
    assert t[..n] == s;
    if Pairs(s[p].typ, ev.typ) {
      SpellsTwo(log, t, st, Logged(FromId(ev.id), MoveOf(s[p], ev)), p, n);
    } else {
      CommitSpells(log, t, st, p);
    }
  }

  /** The event that arrives comes out at once, or not at all. */
  lemma AloneSpells(log: seq<Logged>, s: seq<RawEvent>, ev: RawEvent, st: seq<nat>)
    requires Spells(log, s, st) && !Pairable(ev)
    ensures Spells(log + Emit(AbsorbAll(s), ev), s + [ev], st + NewStamps(s, ev))
  {
    var t, n := s + [ev], |s|;
    ModifiedKeys(s);
    SpellsLater(log, s, st, ev);
    if ev.typ != MODIFIED {
      CommitSpells(log, t, st, n);
    } else if ev.path !in ModifiedPaths(s) {
      SpellsOne(log, t, st, Logged(FromModify, ModifiedEntry(ev.path)), n);
    } else {
      assert log + [] == log && st + [] == st;
    }
  }

  /** What one arrival emits is spelled by its stamps. */
  lemma EmitSpells(log: seq<Logged>, s: seq<RawEvent>, ev: RawEvent, st: seq<nat>)
    requires Spells(log, s, st)
    ensures Spells(log + Emit(AbsorbAll(s), ev), s + [ev], st + NewStamps(s, ev))
  {
    PendingWaits(s);
    if !Pairable(ev) {
      AloneSpells(log, s, ev, st);
    } else if Waiting(s, ev.id) {
      MateSpells(log, s, ev, st);
    } else {
      SpellsLater(log, s, st, ev);
      assert log + [] == log && st + [] == st;
    }
  }

  lemma {:induction false} LogSpells(s: seq<RawEvent>)
    ensures Spells(LogOf(s), s, StampsOf(s))
  {
    if s != [] {
      var front, last := s[..|s| - 1], s[|s| - 1];
      LogSpells(front);
      assert s == front + [last];
      EmitSpells(LogOf(front), front, last, StampsOf(front));
    }
  }

  ghost predicate Holds(p: map<Id, RawEvent>, s: seq<RawEvent>, order: seq<Id>) {
    forall k :: k in order ==> k in p && Waiting(s, k) && p[k] == s[LastIndex(s, k)]
  }

  lemma {:induction false} DrainSpells(
    log: seq<Logged>, st: seq<nat>, s: seq<RawEvent>, p: map<Id, RawEvent>, order: seq<Id>)
    requires Spells(log, s, st) && Holds(p, s, order)
    ensures Spells(log + DrainLog(p, order), s, st + DrainStamps(s, order))
  {
    if order == [] {
      assert log + [] == log && st + [] == st;
    } else {
      var front, k := order[..|order| - 1], order[|order| - 1];
      DrainSpells(log, st, s, p, front);
      assert k in order;
      var a, b := DrainLog(p, front), DrainStamps(s, front);
      CommitSpells(log + a, s, st + b, LastIndex(s, k));
      Assoc(log, a, CommitLog(p[k]));
      Assoc(st, b, LastStamp(s, k));
    }
  }

  /** The whole window: every entry, read back as its raw events, in the order of
      emission. */
  lemma WindowSpells(s: seq<RawEvent>, order: seq<Id>)
    requires Enumerates(order, AbsorbAll(s).pending.Keys)
    ensures Spells(FullLog(s, order), s, FullStamps(s, order))
  {
    LogSpells(s);
    PendingWaits(s);
    DrainSpells(LogOf(s), StampsOf(s), s, AbsorbAll(s).pending, order);
  }
}
