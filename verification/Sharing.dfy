/** Exactly when a window whose ids share paths keeps the net effect. */
module Sharing {
  import opened Events
  import opened Batching
  import opened EmissionLog
  import opened Pairing
  import opened Explanation
  import opened NetEffect
  import opened Stamps
  import opened Timing

  // ---- what an event says about its path -----------------------------------------

  predicate About(s: seq<RawEvent>, i: nat, path: Path) {
    i < |s| && Known(s[i]) && s[i].path == path
  }

  /** The path exists after event `i`; `mates` reads the second half of an OLD/OLD pair as
      the arrival it means. */
  predicate Adds(s: seq<RawEvent>, i: nat, mates: bool)
    requires i < |s|
  {
    Appears(s[i]) || (mates && s[i].typ == RENAMED_OLD && Second(s, i))
  }

  /** The last event about `path` to arrive, or -1. */
  function LastAbout(s: seq<RawEvent>, path: Path): (i: int)
    ensures -1 <= i < |s|
    ensures i >= 0 ==> About(s, i, path)
  {
    if s == [] then -1
    else if About(s, |s| - 1, path) then |s| - 1
    else LastAbout(s[..|s| - 1], path)
  }

  /** What the last arrival about `path` says of it. */
  predicate LastArrivalAdds(s: seq<RawEvent>, path: Path, mates: bool) {
    LastAbout(s, path) >= 0 && Adds(s, LastAbout(s, path), mates)
  }

  lemma {:induction false} LastAboutIs(s: seq<RawEvent>, i: nat, path: Path)
    requires About(s, i, path)
    ensures i <= LastAbout(s, path)
  {
    if i < |s| - 1 {
      LastAboutIs(s[..|s| - 1], i, path);
    }
  }

  // ---- the raw side ----------------------------------------------------------------

  /** The raw events, read with or without mates. */
  function Truth(present: set<Path>, s: seq<RawEvent>, mates: bool): set<Path> {
    if mates then ReplayMates(present, s) else ReplayRaw(present, s)
  }

  lemma SecondForms(s: seq<RawEvent>, ev: RawEvent)
    ensures Second(s + [ev], |s|) == FormsMove(AbsorbAll(s).pending, ev)
  {
    var t := s + [ev];
    assert t[..|s|] == s;
    PendingWaits(s);
    if LastIndex(s, ev.id) >= 0 {
      SecondPrefix(s, t, LastIndex(s, ev.id));
    }
  }

  /** The last arrival about a path decides. */
  lemma {:induction false} TruthAtPath(present: set<Path>, s: seq<RawEvent>, mates: bool, path: Path)
    ensures path in Truth(present, s, mates) <==>
      var m := LastAbout(s, path); if m >= 0 then Adds(s, m, mates) else path in present
  {
    if s != [] {
      var front, last := s[..|s| - 1], s[|s| - 1];
      assert s == front + [last];
      TruthAtPath(present, front, mates, path);
      SecondForms(front, last);
      var m := LastAbout(front, path);
      if m >= 0 {
        SecondPrefix(front, s, m);
      }
    }
  }

  // ---- the emitted side --------------------------------------------------------------

  /** The last stamp about a path decides. */
  predicate Fate(s: seq<RawEvent>, st: seq<nat>, path: Path, was: bool) {
    if st == [] then was
    else if About(s, st[|st| - 1], path) then Adds(s, st[|st| - 1], true)
    else Fate(s, st[..|st| - 1], path, was)
  }

  lemma FateTwo(s: seq<RawEvent>, rest: seq<nat>, x: nat, y: nat, path: Path, was: bool)
    ensures Fate(s, rest + [x, y], path, was) ==
      if About(s, y, path) then Adds(s, y, true)
      else if About(s, x, path) then Adds(s, x, true)
      else Fate(s, rest, path, was)
  {
    assert (rest + [x, y])[..|rest| + 1] == rest + [x];
    assert (rest + [x])[..|rest|] == rest;
  }

  /** The halves of a Move: the first takes its path away, the second makes its own. */
  lemma HalvesSay(l: Logged, s: seq<RawEvent>, x: nat, y: nat)
    requires x < |s| && y < |s| && l.entry.fe.kind == Move && MovePiece(l, s, x, y)
    ensures Known(s[x]) && Known(s[y]) && !Adds(s, x, true) && Adds(s, y, true)
  {
    SecondPrefix(s[..y], s, x);
  }

  lemma {:induction false} ReplayIsFate(present: set<Path>, log: seq<Logged>, s: seq<RawEvent>, st: seq<nat>, path: Path)
    requires Spells(log, s, st)
    ensures path in Replay(present, log) <==> Fate(s, st, path, path in present)
  {
    if log != [] {
      var l := log[|log| - 1];
      var rest, y := st[..|st| - PieceLength(l)], st[|st| - 1];
      ReplayIsFate(present, log[..|log| - 1], s, rest, path);
      if l.entry.fe.kind == Move {
        var x := st[|st| - 2];
        assert st == rest + [x, y];
        HalvesSay(l, s, x, y);
        FateTwo(s, rest, x, y, path, path in present);
      } else {
        SingleSays(l, s, y);
      }
    }
  }

  lemma SingleSays(l: Logged, s: seq<RawEvent>, y: nat)
    requires y < |s| && l.entry.fe.kind != Move && SinglePiece(l, s, y)
    ensures l.entry.fe.kind == Modified <==> !Known(s[y])
    ensures l.entry.fe.kind == Created ==> Adds(s, y, true)
    ensures l.entry.fe.kind == Removed ==> !Adds(s, y, true)
    ensures l.entry.fe.path == s[y].path
  {
  }

  /** Stamp `a` is the last about its path. */
  ghost predicate LastStampAbout(s: seq<RawEvent>, st: seq<nat>, path: Path, a: nat) {
    && a < |st| && About(s, st[a], path)
    && forall b :: a < b < |st| ==> !About(s, st[b], path)
  }

  lemma {:induction false} FateIsLast(s: seq<RawEvent>, st: seq<nat>, path: Path, was: bool, a: nat)
    requires LastStampAbout(s, st, path, a)
    ensures Fate(s, st, path, was) == Adds(s, st[a], true)
  {
    if a < |st| - 1 {
      FateIsLast(s, st[..|st| - 1], path, was, a);
    }
  }

  lemma {:induction false} FateUntouched(s: seq<RawEvent>, st: seq<nat>, path: Path, was: bool)
    requires forall x :: x in st ==> !About(s, x, path)
    ensures Fate(s, st, path, was) == was
  {
    if st != [] {
      assert st[|st| - 1] in st;
      FateUntouched(s, st[..|st| - 1], path, was);
    }
  }

  lemma {:induction false} SomeLast(s: seq<RawEvent>, st: seq<nat>, path: Path, x: nat) returns (a: nat)
    requires x in st && About(s, x, path)
    ensures LastStampAbout(s, st, path, a)
  {
    var n := |st| - 1;
    if About(s, st[n], path) {
      a := n;
    } else {
      assert st == st[..n] + [st[n]];
      a := SomeLast(s, st[..n], path, x);
    }
  }

  // ---- which event can have the last word ----------------------------------------------

  /** Whatever order the final range takes, `y` comes out after `x`. */
  predicate SurelyAfter(s: seq<RawEvent>, x: nat, y: nat) {
    && x < |s| && y < |s|
    && (EmittedAt(s, x) < EmittedAt(s, y) || (EmittedAt(s, x) == EmittedAt(s, y) < |s| && x < y))
  }

  /** No other event about the path surely comes out after `i`. */
  ghost predicate MayComeLast(s: seq<RawEvent>, i: nat, path: Path) {
    About(s, i, path) && forall j: nat :: About(s, j, path) ==> !SurelyAfter(s, i, j)
  }

  /** Every event that may come out last about `path` says of it what the last event to
      arrive says. */
  ghost predicate LastWordKeptAt(s: seq<RawEvent>, mates: bool, path: Path) {
    forall i: nat :: MayComeLast(s, i, path) ==> Adds(s, i, true) == LastArrivalAdds(s, path, mates)
  }

  ghost predicate LastWordKept(s: seq<RawEvent>, mates: bool) {
    forall path :: LastWordKeptAt(s, mates, path)
  }

  /** What is last in one order may come last. */
  lemma LastMayComeLast(s: seq<RawEvent>, order: seq<Id>, st: seq<nat>, path: Path, a: nat)
    requires Ordered(s, order, st) && LastStampAbout(s, st, path, a)
    requires forall x: nat :: x in st <==> x < |s| && Stamped(s, x)
    ensures MayComeLast(s, st[a], path)
  {
    forall j: nat | About(s, j, path)
      ensures !SurelyAfter(s, st[a], j)
    {
      assert j in st;
      var b :| 0 <= b < |st| && st[b] == j;
      assert b < a ==> Before(s, order, j, st[a]);
    }
  }

  /** An order in which `i` is the last of what the range visits, if it is of that. */
  ghost predicate PutsLast(s: seq<RawEvent>, order: seq<Id>, i: nat)
    requires i < |s|
  {
    EmittedAt(s, i) == |s| ==> order != [] && order[|order| - 1] == s[i].id
  }

  lemma SomeOrderFor(s: seq<RawEvent>, i: nat) returns (order: seq<Id>)
    requires i < |s| && Known(s[i])
    ensures Enumerates(order, AbsorbAll(s).pending.Keys) && PutsLast(s, order, i)
  {
    var keys := AbsorbAll(s).pending.Keys;
    if EmittedAt(s, i) == |s| {
      PendingWaits(s);
      WaitingIsDrained(s, i);
      var rest := SomeEnumeration(keys - {s[i].id});
      order := rest + [s[i].id];
    } else {
      order := SomeEnumeration(keys);
    }
  }

  lemma {:induction false} RankBelow(order: seq<Id>, k: Id)
    requires k in order
    ensures Rank(order, k) < |order| && order[Rank(order, k)] == k
  {
    if order[0] != k {
      RankBelow(order[1..], k);
    }
  }

  /** In such an order nothing comes out after what may come last. */
  lemma ComesLast(s: seq<RawEvent>, order: seq<Id>, i: nat, j: nat, path: Path)
    requires Enumerates(order, AbsorbAll(s).pending.Keys)
    requires MayComeLast(s, i, path) && About(s, j, path) && PutsLast(s, order, i)
    ensures !Before(s, order, i, j)
  {
    assert !SurelyAfter(s, i, j);
    if EmittedAt(s, i) == |s| && EmittedAt(s, j) == |s| {
      PendingWaits(s);
      WaitingIsDrained(s, j);
      RankAt(order, |order| - 1);
      RankBelow(order, s[j].id);
    }
  }

  lemma PutLastIsLast(s: seq<RawEvent>, order: seq<Id>, st: seq<nat>, i: nat, path: Path) returns (a: nat)
    requires Enumerates(order, AbsorbAll(s).pending.Keys)
    requires Ordered(s, order, st) && forall x: nat :: x in st <==> x < |s| && Stamped(s, x)
    requires MayComeLast(s, i, path) && PutsLast(s, order, i)
    ensures LastStampAbout(s, st, path, a) && st[a] == i
  {
    assert i in st;
    a :| 0 <= a < |st| && st[a] == i;
    forall b | a < b < |st|
      ensures !About(s, st[b], path)
    {
      assert Before(s, order, i, st[b]);
      if About(s, st[b], path) {
        ComesLast(s, order, i, st[b], path);
      }
    }
  }

  // ---- the theorem ---------------------------------------------------------------------

  /** For one order and one path. */
  lemma AgreesAtPath(s: seq<RawEvent>, order: seq<Id>, present: set<Path>, mates: bool, path: Path)
    requires Enumerates(order, AbsorbAll(s).pending.Keys) && LastWordKeptAt(s, mates, path)
    ensures path in Replay(present, FullLog(s, order)) <==> path in Truth(present, s, mates)
  {
    var st := FullStamps(s, order);
    WindowSpells(s, order);
    WindowOrder(s, order);
    ReplayIsFate(present, FullLog(s, order), s, st, path);
    TruthAtPath(present, s, mates, path);
    var m := LastAbout(s, path);
    if m >= 0 {
      var a := SomeLast(s, st, path, m);
      LastMayComeLast(s, order, st, path, a);
      FateIsLast(s, st, path, path in present, a);
    } else {
      forall x | x in st
        ensures !About(s, x, path)
      {
        if About(s, x, path) {
          LastAboutIs(s, x, path);
        }
      }
      FateUntouched(s, st, path, path in present);
    }
  }

  lemma DisagreesAtPath(s: seq<RawEvent>, present: set<Path>, mates: bool, i: nat, path: Path) returns (order: seq<Id>)
    requires MayComeLast(s, i, path) && Adds(s, i, true) != LastArrivalAdds(s, path, mates)
    ensures Enumerates(order, AbsorbAll(s).pending.Keys)
    ensures path in Replay(present, FullLog(s, order)) <==> path !in Truth(present, s, mates)
  {
    order := SomeOrderFor(s, i);
    var st := FullStamps(s, order);
    WindowSpells(s, order);
    WindowOrder(s, order);
    ReplayIsFate(present, FullLog(s, order), s, st, path);
    TruthAtPath(present, s, mates, path);
    LastAboutIs(s, i, path);
    var a := PutLastIsLast(s, order, st, i, path);
    FateIsLast(s, st, path, path in present, a);
  }

  /** The net effect of a window with whatever sharing of paths, read with mates or
      literally: it is kept for every order of the final range if and only if every event
      that may come out last about its path says of it what the last event to arrive says.
      Only the raw events are asked. */
  lemma NetEffectWithSharing(s: seq<RawEvent>, present: set<Path>, mates: bool)
    ensures
      (forall order :: Enumerates(order, AbsorbAll(s).pending.Keys) ==>
        Replay(present, FullLog(s, order)) == Truth(present, s, mates))
      <==> LastWordKept(s, mates)
  {
    if LastWordKept(s, mates) {
      forall order | Enumerates(order, AbsorbAll(s).pending.Keys)
        ensures Replay(present, FullLog(s, order)) == Truth(present, s, mates)
      {
        forall path
          ensures path in Replay(present, FullLog(s, order)) <==> path in Truth(present, s, mates)
        {
          AgreesAtPath(s, order, present, mates, path);
        }
      }
    } else {
      var path :| !LastWordKeptAt(s, mates, path);
      var i: nat :| MayComeLast(s, i, path) && Adds(s, i, true) != LastArrivalAdds(s, path, mates);
      var order := DisagreesAtPath(s, present, mates, i, path);
    }
  }

  /** Without sharing the last word is always kept. */
  lemma NoSharingKeepsLastWord(s: seq<RawEvent>)
    requires NoSharing(s)
    ensures LastWordKept(s, true)
  {
    forall order | Enumerates(order, AbsorbAll(s).pending.Keys)
      ensures Replay({}, FullLog(s, order)) == Truth({}, s, true)
    {
      BatchNetEffect(s, order, {});
    }
    NetEffectWithSharing(s, {}, true);
  }
}
