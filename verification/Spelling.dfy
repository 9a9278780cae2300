/** Within one id the entries spell its raw events in the order they arrived: nothing is
    skipped, doubled or swapped. */
module Spelling {
  import opened Events
  import opened Batching
  import opened EmissionLog
  import opened Pairing
  import opened Stamps

  predicate IsOf(s: seq<RawEvent>, k: Id, x: nat) {
    x < |s| && s[x].typ != MODIFIED && s[x].id == k
  }

  /** The stamps of id `k`'s events. */
  function OfId(s: seq<RawEvent>, k: Id, st: seq<nat>): seq<nat> {
    if st == [] then []
    else OfId(s, k, st[..|st| - 1]) + if IsOf(s, k, st[|st| - 1]) then [st[|st| - 1]] else []
  }

  /** The positions of id `k`'s known events. */
  function KnownIndices(s: seq<RawEvent>, k: Id): seq<nat> {
    if s == [] then []
    else KnownIndices(s[..|s| - 1], k) + if Known(s[|s| - 1]) && s[|s| - 1].id == k then [|s| - 1] else []
  }

  lemma {:induction false} OfIdConcat(s: seq<RawEvent>, k: Id, a: seq<nat>, b: seq<nat>)
    ensures OfId(s, k, a + b) == OfId(s, k, a) + OfId(s, k, b)
  {
    if b == [] {
      assert a + b == a;
    } else {
      assert (a + b)[..|a + b| - 1] == a + b[..|b| - 1];
      OfIdConcat(s, k, a, b[..|b| - 1]);
    }
  }

  lemma {:induction false} OfIdLater(s: seq<RawEvent>, ev: RawEvent, k: Id, st: seq<nat>)
    requires InRange(s, st)
    ensures OfId(s + [ev], k, st) == OfId(s, k, st)
  {
    if st != [] {
      var front, last := st[..|st| - 1], st[|st| - 1];
      assert st == front + [last] && last in st;
      forall x: nat | x in front
        ensures x < |s|
      {
        assert x in st;
      }
      OfIdLater(s, ev, k, front);
    }
  }

  lemma OfIdOne(s: seq<RawEvent>, k: Id, x: nat)
    ensures OfId(s, k, [x]) == if IsOf(s, k, x) then [x] else []
  {
    assert [x][..0] == [];
  }

  lemma OfIdTwo(s: seq<RawEvent>, k: Id, x: nat, y: nat)
    requires IsOf(s, k, x) == IsOf(s, k, y)
    ensures OfId(s, k, [x, y]) == if IsOf(s, k, x) then [x, y] else []
  {
    assert [x, y] == [x] + [y];
    OfIdConcat(s, k, [x], [y]);
    OfIdOne(s, k, x);
    OfIdOne(s, k, y);
  }

  /** The known event of id `k` that waits, if there is one. */
  function Owed(s: seq<RawEvent>, k: Id): seq<nat> {
    if Waiting(s, k) then LastStamp(s, k) else []
  }

  /** Stamps of another id's arrival are none of `k`'s. */
  lemma NewStampsElsewhere(s: seq<RawEvent>, ev: RawEvent, k: Id)
    requires ev.typ == MODIFIED || ev.id != k
    ensures OfId(s + [ev], k, NewStamps(s, ev)) == []
  {
    var t, n := s + [ev], |s|;
    OfIdOne(t, k, n);
    if ev.typ != MODIFIED && LastIndex(s, ev.id) >= 0 {
      OfIdOne(t, k, LastIndex(s, ev.id));
      OfIdTwo(t, k, LastIndex(s, ev.id), n);
    }
  }

  lemma LastNow(s: seq<RawEvent>, ev: RawEvent)
    requires ev.typ != MODIFIED
    ensures LastIndex(s + [ev], ev.id) == |s|
    ensures LastStamp(s + [ev], ev.id) == if Known(ev) then [|s|] else []
  {
    assert (s + [ev])[..|s|] == s;
  }

  lemma SecondNow(s: seq<RawEvent>, ev: RawEvent)
    ensures Second(s + [ev], |s|) <==>
      Pairable(ev) && Waiting(s, ev.id) && Pairs(s[LastIndex(s, ev.id)].typ, ev.typ)
  {
    var t := s + [ev];
    assert t[..|s|] == s;
    if LastIndex(s, ev.id) >= 0 {
      SecondPrefix(s, t, LastIndex(s, ev.id));
    }
  }

  lemma OwedNow(s: seq<RawEvent>, ev: RawEvent)
    requires ev.typ != MODIFIED
    ensures Owed(s + [ev], ev.id) ==
      if Known(ev) && ev.id != 0 && !(Waiting(s, ev.id) && Pairs(s[LastIndex(s, ev.id)].typ, ev.typ)) then [|s|] else []
  {
    LastNow(s, ev);
    SecondNow(s, ev);
  }

  /** The mate of what waits arrives: both come out. */
  lemma MateComes(s: seq<RawEvent>, ev: RawEvent)
    requires Pairable(ev) && Waiting(s, ev.id) && Pairs(s[LastIndex(s, ev.id)].typ, ev.typ)
    ensures Known(ev) && NewStamps(s, ev) == [LastIndex(s, ev.id), |s|]
    ensures Owed(s, ev.id) == [LastIndex(s, ev.id)] && Owed(s + [ev], ev.id) == []
  {
    OwedNow(s, ev);
  }

  /** What waits is displaced: it comes out, and the new event waits. */
  lemma OtherComes(s: seq<RawEvent>, ev: RawEvent)
    requires Pairable(ev) && Waiting(s, ev.id) && !Pairs(s[LastIndex(s, ev.id)].typ, ev.typ)
    ensures NewStamps(s, ev) == Owed(s, ev.id)
    ensures Owed(s, ev.id) == if Known(s[LastIndex(s, ev.id)]) then [LastIndex(s, ev.id)] else []
    ensures Owed(s + [ev], ev.id) == if Known(ev) then [|s|] else []
  {
    OwedNow(s, ev);
  }

  lemma NobodyWaits(s: seq<RawEvent>, ev: RawEvent)
    requires ev.typ != MODIFIED && !Waiting(s, ev.id)
    ensures Owed(s, ev.id) == []
    ensures NewStamps(s, ev) == (if ev.id == 0 && Known(ev) then [|s|] else [])
    ensures Owed(s + [ev], ev.id) == if ev.id != 0 && Known(ev) then [|s|] else []
  {
    OwedNow(s, ev);
  }

  /** An arrival of id `k` brings out what was owed, and is then owed itself or comes out
      too. */
  lemma NewStampsHere(s: seq<RawEvent>, ev: RawEvent)
    requires ev.typ != MODIFIED
    ensures OfId(s + [ev], ev.id, NewStamps(s, ev)) + Owed(s + [ev], ev.id)
      == Owed(s, ev.id) + if Known(ev) then [|s|] else []
  {
    var t, n, p := s + [ev], |s|, LastIndex(s, ev.id);
    OfIdOne(t, ev.id, n);
    if Waiting(s, ev.id) {
      if Pairs(s[p].typ, ev.typ) {
        MateComes(s, ev);
        OfIdTwo(t, ev.id, p, n);
      } else {
        OtherComes(s, ev);
        OfIdOne(t, ev.id, p);
      }
    } else {
      NobodyWaits(s, ev);
    }
  }

  lemma OwedElsewhere(s: seq<RawEvent>, ev: RawEvent, k: Id)
    requires ev.typ == MODIFIED || ev.id != k
    ensures Owed(s + [ev], k) == Owed(s, k)
  {
    var t := s + [ev];
    assert t[..|s|] == s;
    var p := LastIndex(s, k);
    if p >= 0 {
      SecondPrefix(s, t, p);
    }
  }

  lemma StampsNext(s: seq<RawEvent>, ev: RawEvent, k: Id)
    ensures OfId(s + [ev], k, StampsOf(s + [ev])) == OfId(s, k, StampsOf(s)) + OfId(s + [ev], k, NewStamps(s, ev))
    ensures KnownIndices(s + [ev], k) == KnownIndices(s, k) + if Known(ev) && ev.id == k then [|s|] else []
  {
    assert (s + [ev])[..|s|] == s;
    StampsInRange(s);
    OfIdLater(s, ev, k, StampsOf(s));
    OfIdConcat(s + [ev], k, StampsOf(s), NewStamps(s, ev));
  }

  lemma Regroup<T>(before: seq<T>, owed: seq<T>, idx: seq<T>, now: seq<T>, next: seq<T>, add: seq<T>)
    requires before + owed == idx && now + next == owed + add
    ensures (before + now) + next == idx + add
  {
    Assoc(before, now, next);
    Assoc(before, owed, add);
  }

  lemma OneMore(s: seq<RawEvent>, ev: RawEvent, k: Id)
    ensures OfId(s + [ev], k, NewStamps(s, ev)) + Owed(s + [ev], k)
      == Owed(s, k) + if Known(ev) && ev.id == k then [|s|] else []
  {
    if ev.typ != MODIFIED && ev.id == k {
      NewStampsHere(s, ev);
    } else {
      NewStampsElsewhere(s, ev, k);
      OwedElsewhere(s, ev, k);
      assert [] + Owed(s, k) == Owed(s, k) + [];
    }
  }

  lemma {:induction false} StampsOfId(s: seq<RawEvent>, k: Id)
    ensures OfId(s, k, StampsOf(s)) + Owed(s, k) == KnownIndices(s, k)
  {
    if s != [] {
      var front, ev := s[..|s| - 1], s[|s| - 1];
      assert s == front + [ev];
      StampsOfId(front, k);
      StampsNext(front, ev, k);
      OneMore(front, ev, k);
      Regroup(OfId(front, k, StampsOf(front)), Owed(front, k), KnownIndices(front, k),
        OfId(s, k, NewStamps(front, ev)), Owed(s, k), if Known(ev) && ev.id == k then [|front|] else []);
    }
  }

  lemma {:induction false} DrainOfId(s: seq<RawEvent>, k: Id, order: seq<Id>)
    requires forall i, j :: 0 <= i < j < |order| ==> order[i] != order[j]
    requires forall c :: c in order ==> Waiting(s, c)
    ensures OfId(s, k, DrainStamps(s, order)) == if k in order then Owed(s, k) else []
  {
    if order != [] {
      var front, c := order[..|order| - 1], order[|order| - 1];
      assert c in order && c !in front && order == front + [c];
      DrainOfId(s, k, front);
      OfIdConcat(s, k, DrainStamps(s, front), LastStamp(s, c));
      OfIdOne(s, k, LastIndex(s, c));
    }
  }

  lemma FullOfId(s: seq<RawEvent>, k: Id, order: seq<Id>)
    requires Enumerates(order, AbsorbAll(s).pending.Keys)
    ensures OfId(s, k, FullStamps(s, order)) == KnownIndices(s, k)
  {
    PendingWaits(s);
    StampsOfId(s, k);
    DrainOfId(s, k, order);
    OfIdConcat(s, k, StampsOf(s), DrainStamps(s, order));
  }

  lemma ProjectLast(k: Id, front: seq<Logged>, l: Logged)
    ensures Project(FromId(k), front + [l]) == Project(FromId(k), front) + if l.source == FromId(k) then [l] else []
  {
    assert (front + [l])[..|front|] == front;
  }

  lemma OfIdPiece(s: seq<RawEvent>, k: Id, rest: seq<nat>, x: nat, y: nat)
    ensures OfId(s, k, rest + [y]) == OfId(s, k, rest) + if IsOf(s, k, y) then [y] else []
    ensures IsOf(s, k, x) == IsOf(s, k, y) ==>
      OfId(s, k, rest + [x, y]) == OfId(s, k, rest) + if IsOf(s, k, y) then [x, y] else []
  {
    OfIdConcat(s, k, rest, [y]);
    OfIdOne(s, k, y);
    if IsOf(s, k, x) == IsOf(s, k, y) {
      OfIdConcat(s, k, rest, [x, y]);
      OfIdTwo(s, k, x, y);
    }
  }

  /** Of one more piece nothing is kept, or all. */
  lemma SpellsIf(b: bool, log: seq<Logged>, s: seq<RawEvent>, st: seq<nat>, l: Logged, piece: seq<nat>)
    requires Spells(log, s, st) && (b ==> Spells(log + [l], s, st + piece))
    ensures Spells(log + if b then [l] else [], s, st + if b then piece else [])
  {
    assert log + [] == log && st + [] == st;
  }

  lemma ProjectTwo(k: Id, front: seq<Logged>, l: Logged, s: seq<RawEvent>, rest: seq<nat>, x: nat, y: nat)
    requires Spells(Project(FromId(k), front), s, OfId(s, k, rest))
    requires x < |s| && y < |s| && l.entry.fe.kind == Move && MovePiece(l, s, x, y)
    ensures Spells(Project(FromId(k), front + [l]), s, OfId(s, k, rest + [x, y]))
  {
    var log, st := Project(FromId(k), front), OfId(s, k, rest);
    ProjectLast(k, front, l);
    OfIdPiece(s, k, rest, x, y);
    SpellsTwo(log, s, st, l, x, y);
    SpellsIf(l.source == FromId(k), log, s, st, l, [x, y]);
  }

  lemma ProjectOne(k: Id, front: seq<Logged>, l: Logged, s: seq<RawEvent>, rest: seq<nat>, y: nat)
    requires Spells(Project(FromId(k), front), s, OfId(s, k, rest))
    requires y < |s| && SinglePiece(l, s, y)
    ensures Spells(Project(FromId(k), front + [l]), s, OfId(s, k, rest + [y]))
  {
    var log, st := Project(FromId(k), front), OfId(s, k, rest);
    ProjectLast(k, front, l);
    OfIdPiece(s, k, rest, y, y);
    SpellsOne(log, s, st, l, y);
    SpellsIf(l.source == FromId(k), log, s, st, l, [y]);
  }

  /** What is left when the last entry's piece is taken off. */
  lemma SpellsFront(log: seq<Logged>, s: seq<RawEvent>, st: seq<nat>) returns (rest: seq<nat>, x: nat, y: nat)
    requires Spells(log, s, st) && log != []
    ensures var l := log[|log| - 1];
      && Spells(log[..|log| - 1], s, rest) && x < |s| && y < |s|
      && (if l.entry.fe.kind == Move then st == rest + [x, y] && MovePiece(l, s, x, y)
          else st == rest + [y] && SinglePiece(l, s, y))
  {
    var n, m := |st|, PieceLength(log[|log| - 1]);
    rest, y := st[..n - m], st[n - 1];
    x := if m == 2 then st[n - 2] else y;
  }

  /** The entries of one id are spelled by the stamps of that id. */
  lemma {:induction false} ProjectSpells(k: Id, log: seq<Logged>, s: seq<RawEvent>, st: seq<nat>)
    requires Spells(log, s, st)
    ensures Spells(Project(FromId(k), log), s, OfId(s, k, st))
  {
    if log != [] {
      var front, l := log[..|log| - 1], log[|log| - 1];
      var rest, x, y := SpellsFront(log, s, st);
      ProjectSpells(k, front, s, rest);
      assert log == front + [l];
      if l.entry.fe.kind == Move {
        ProjectTwo(k, front, l, s, rest, x, y);
      } else {
        ProjectOne(k, front, l, s, rest, y);
      }
    }
  }

  /** For every id, whatever else is in the window and in whatever order the final range
      runs: its entries, each read back as its one or two raw events, are exactly its known
      events in the order they arrived, and the Moves are those of parsing its events from
      the left. */
  lemma EachIdInArrivalOrder(k: Id, s: seq<RawEvent>, order: seq<Id>)
    requires Enumerates(order, AbsorbAll(s).pending.Keys)
    ensures Spells(Project(FromId(k), FullLog(s, order)), s, KnownIndices(s, k))
  {
    WindowSpells(s, order);
    ProjectSpells(k, FullLog(s, order), s, FullStamps(s, order));
    FullOfId(s, k, order);
  }
}
