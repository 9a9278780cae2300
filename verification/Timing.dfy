/** When the entry of each raw event comes out, and when a whole window comes out in the
    order of arrival. */
module Timing {
  import opened Events
  import opened Batching
  import opened EmissionLog
  import opened Pairing
  import opened Stamps

  /** The next non-MODIFIED event of the same id, or the end. */
  function NextIndex(s: seq<RawEvent>, i: nat): (j: nat)
    requires i < |s|
    ensures i < j <= |s|
  {
    var n := |s| - 1;
    if i == n then |s|
    else
      var j := NextIndex(s[..n], i);
      if j < n then j else if s[n].typ != MODIFIED && s[n].id == s[i].id then n else |s|
  }

  /** The arrival that brings event `i` out: its own where it cannot wait or completes a
      Move, else that of the next event of its id - its mate, or the one that displaces
      it - and `|s|`, the drain, where there is none. */
  function EmittedAt(s: seq<RawEvent>, i: nat): (j: nat)
    requires i < |s|
    ensures i <= j <= |s|
  {
    if !Pairable(s[i]) || Second(s, i) then i else NextIndex(s, i)
  }

  predicate IsLast(s: seq<RawEvent>, i: nat)
    requires i < |s|
  {
    s[i].typ != MODIFIED && i == LastIndex(s, s[i].id)
  }

  lemma {:induction false} NextOfLast(s: seq<RawEvent>, i: nat)
    requires i < |s| && s[i].typ != MODIFIED
    ensures NextIndex(s, i) == |s| <==> IsLast(s, i)
  {
    if i < |s| - 1 {
      NextOfLast(s[..|s| - 1], i);
    }
  }

  /** One more arrival settles only what it brings out. */
  lemma EmittedLater(s: seq<RawEvent>, ev: RawEvent, i: nat)
    requires i < |s|
    ensures var t := s + [ev];
      EmittedAt(t, i) ==
        if EmittedAt(s, i) < |s| then EmittedAt(s, i)
        else if ev.typ != MODIFIED && ev.id == s[i].id then |s|
        else |t|
    ensures Stamped(s + [ev], i) == Stamped(s, i)
  {
    var t := s + [ev];
    assert t[..|s|] == s && t[..i] == s[..i];
    SecondPrefix(s, t, i);
  }

  // ---- while absorbing -----------------------------------------------------------

  /** Comes out before `y`: at an earlier arrival, or as the first half of the Move that
      `y` completes. */
  predicate Sooner(s: seq<RawEvent>, x: nat, y: nat) {
    && x < |s| && y < |s|
    && (EmittedAt(s, x) < EmittedAt(s, y) || (EmittedAt(s, x) == EmittedAt(s, y) && x < y))
  }

  /** Exactly the events that have come out, in the order they did. */
  ghost predicate OutSoFar(s: seq<RawEvent>, st: seq<nat>) {
    && (forall x: nat :: x in st <==> x < |s| && Stamped(s, x) && EmittedAt(s, x) < |s|)
    && (forall a, b :: 0 <= a < b < |st| ==> Sooner(s, st[a], st[b]))
  }

  /** What one arrival brings out. */
  lemma NewStampsAre(s: seq<RawEvent>, ev: RawEvent)
    ensures var t, st := s + [ev], NewStamps(s, ev);
      && (forall x: nat :: x in st <==> x < |t| && Stamped(t, x) && EmittedAt(t, x) == |s|)
      && (forall a, b :: 0 <= a < b < |st| ==> st[a] < st[b])
  {
    var t, n, st := s + [ev], |s|, NewStamps(s, ev);
    assert t[..n] == s;
    assert EmittedAt(t, n) == if !Pairable(ev) || Second(t, n) then n else n + 1;
    var p := LastIndex(s, ev.id);
    if p >= 0 {
      SecondPrefix(s, t, p);
    }
    forall x: nat | x < n
      ensures Stamped(t, x) && EmittedAt(t, x) == n <==> x in st
    {
      EmittedLater(s, ev, x);
      if s[x].typ != MODIFIED {
        NextOfLast(s, x);
      }
    }
    assert Stamped(t, n) && EmittedAt(t, n) == n <==> n in st;
  }

  lemma OutNext(s: seq<RawEvent>, ev: RawEvent, st: seq<nat>)
    requires OutSoFar(s, st)
    ensures OutSoFar(s + [ev], st + NewStamps(s, ev))
  {
    var t, new2 := s + [ev], NewStamps(s, ev);
    var all := st + new2;
    NewStampsAre(s, ev);
    forall x: nat | x < |s|
      ensures EmittedAt(s, x) < |s| ==> EmittedAt(t, x) == EmittedAt(s, x)
      ensures EmittedAt(s, x) == |s| ==> EmittedAt(t, x) >= |s|
      ensures Stamped(t, x) == Stamped(s, x)
    {
      EmittedLater(s, ev, x);
    }
    forall x: nat
      ensures x in all <==> x < |t| && Stamped(t, x) && EmittedAt(t, x) < |t|
    {
      assert x in all <==> x in st || x in new2;
    }
    forall a, b | 0 <= a < b < |all|
      ensures Sooner(t, all[a], all[b])
    {
      assert a < |st| ==> all[a] == st[a] && st[a] in st;
      assert a >= |st| ==> all[a] == new2[a - |st|] && new2[a - |st|] in new2;
      assert b < |st| ==> all[b] == st[b] && st[b] in st && Sooner(s, st[a], st[b]);
      assert b >= |st| ==> all[b] == new2[b - |st|] && new2[b - |st|] in new2;
    }
  }

  lemma {:induction false} OutIsSoFar(s: seq<RawEvent>)
    ensures OutSoFar(s, StampsOf(s))
  {
    if s != [] {
      var front := s[..|s| - 1];
      OutIsSoFar(front);
      OutNext(front, s[|s| - 1], StampsOf(front));
      assert s == front + [s[|s| - 1]];
    }
  }

  // ---- with the drain --------------------------------------------------------------

  /** Where `k` stands in the order of the final range. */
  function Rank(order: seq<Id>, k: Id): nat {
    if order == [] then 0
    else if order[0] == k then 0
    else 1 + Rank(order[1..], k)
  }

  lemma {:induction false} RankAt(order: seq<Id>, i: nat)
    requires i < |order| && forall a, b :: 0 <= a < b < |order| ==> order[a] != order[b]
    ensures Rank(order, order[i]) == i
  {
    if i > 0 {
      RankAt(order[1..], i - 1);
    }
  }

  /** Comes out before `y` when the final range runs in this order. */
  predicate Before(s: seq<RawEvent>, order: seq<Id>, x: nat, y: nat) {
    && x < |s| && y < |s|
    && (if EmittedAt(s, x) == |s| && EmittedAt(s, y) == |s| then Rank(order, s[x].id) < Rank(order, s[y].id)
        else Sooner(s, x, y))
  }

  ghost predicate Ordered(s: seq<RawEvent>, order: seq<Id>, st: seq<nat>) {
    forall a, b :: 0 <= a < b < |st| ==> Before(s, order, st[a], st[b])
  }

  /** What still waits comes out in the order of the range. */
  ghost predicate Drained(s: seq<RawEvent>, order: seq<Id>, done: seq<Id>, st: seq<nat>) {
    && (forall x: nat :: x in st <==> x < |s| && Known(s[x]) && EmittedAt(s, x) == |s| && s[x].id in done)
    && Ordered(s, order, st)
  }

  ghost predicate NoTwice(order: seq<Id>) {
    forall a, b :: 0 <= a < b < |order| ==> order[a] != order[b]
  }

  lemma WaitingIsDrained(s: seq<RawEvent>, x: nat)
    requires x < |s| && Known(s[x])
    ensures EmittedAt(s, x) == |s| <==> Waiting(s, s[x].id) && x == LastIndex(s, s[x].id)
  {
    NextOfLast(s, x);
  }

  lemma DrainNext(s: seq<RawEvent>, order: seq<Id>, m: nat, st: seq<nat>)
    requires m < |order| && NoTwice(order) && Waiting(s, order[m]) && Drained(s, order, order[..m], st)
    ensures Drained(s, order, order[..m + 1], st + LastStamp(s, order[m]))
  {
    var k, done := order[m], order[..m];
    var p := LastIndex(s, k);
    var all := st + LastStamp(s, k);
    assert forall c :: c in order[..m + 1] <==> c in done || c == k;
    if Known(s[p]) {
      WaitingIsDrained(s, p);
    }
    forall x: nat
      ensures x in all <==> x < |s| && Known(s[x]) && EmittedAt(s, x) == |s| && s[x].id in order[..m + 1]
    {
      if x < |s| && Known(s[x]) {
        WaitingIsDrained(s, x);
      }
    }
    RankAt(order, m);
    forall a, b | 0 <= a < b < |all|
      ensures Before(s, order, all[a], all[b])
    {
      if b == |st| {
        assert all[a] in st && s[all[a]].id in done;
        var i :| 0 <= i < m && order[i] == s[all[a]].id;
        RankAt(order, i);
      }
    }
  }

  lemma DrainStampsNext(s: seq<RawEvent>, order: seq<Id>, m: nat)
    requires m < |order|
    ensures DrainStamps(s, order[..m + 1]) == DrainStamps(s, order[..m]) + LastStamp(s, order[m])
  {
    assert order[..m + 1][..m] == order[..m];
  }

  lemma {:induction false} DrainIsDrained(s: seq<RawEvent>, order: seq<Id>, m: nat)
    requires m <= |order| && NoTwice(order) && forall k :: k in order ==> Waiting(s, k)
    ensures Drained(s, order, order[..m], DrainStamps(s, order[..m]))
  {
    if m > 0 {
      DrainIsDrained(s, order, m - 1);
      assert order[m - 1] in order;
      DrainNext(s, order, m - 1, DrainStamps(s, order[..m - 1]));
      DrainStampsNext(s, order, m - 1);
    } else {
      assert order[..0] == [];
    }
  }

  lemma OutThenDrained(s: seq<RawEvent>, order: seq<Id>, a: seq<nat>, b: seq<nat>)
    requires OutSoFar(s, a) && Drained(s, order, order, b)
    requires forall x: nat :: x < |s| && Known(s[x]) && EmittedAt(s, x) == |s| ==> s[x].id in order
    ensures forall x: nat :: x in a + b <==> x < |s| && Stamped(s, x)
    ensures Ordered(s, order, a + b)
  {
    var st := a + b;
    forall x: nat
      ensures x in st <==> x < |s| && Stamped(s, x)
    {
      assert x in st <==> x in a || x in b;
    }
    forall i, j | 0 <= i < j < |st|
      ensures Before(s, order, st[i], st[j])
    {
      assert i < |a| ==> st[i] == a[i] && a[i] in a;
      assert i >= |a| ==> st[i] == b[i - |a|];
      assert j < |a| ==> st[j] == a[j] && a[j] in a && Sooner(s, a[i], a[j]);
      assert j >= |a| ==> st[j] == b[j - |a|] && b[j - |a|] in b;
    }
  }

  /** The stamps of a window are the positions of all events that have a part in an entry,
      each once, in the order they come out. */
  lemma WindowOrder(s: seq<RawEvent>, order: seq<Id>)
    requires Enumerates(order, AbsorbAll(s).pending.Keys)
    ensures forall x: nat :: x in FullStamps(s, order) <==> x < |s| && Stamped(s, x)
    ensures Ordered(s, order, FullStamps(s, order))
  {
    PendingWaits(s);
    OutIsSoFar(s);
    assert order[..|order|] == order;
    DrainIsDrained(s, order, |order|);
    forall x: nat | x < |s| && Known(s[x]) && EmittedAt(s, x) == |s|
      ensures s[x].id in order
    {
      WaitingIsDrained(s, x);
    }
    OutThenDrained(s, order, StampsOf(s), DrainStamps(s, order));
  }

  // ---- the order of arrival ----------------------------------------------------------

  ghost predicate Increasing(st: seq<nat>) {
    forall a, b :: 0 <= a < b < |st| ==> st[a] < st[b]
  }

  /** While `i` waits, the later `j` comes out. */
  predicate Overtaken(s: seq<RawEvent>, i: nat, j: nat) {
    && i < j < |s| && Stamped(s, i) && Stamped(s, j)
    && j < EmittedAt(s, i) && EmittedAt(s, j) < EmittedAt(s, i)
  }

  ghost predicate NoneOvertaken(s: seq<RawEvent>) {
    forall i: nat, j: nat :: !Overtaken(s, i, j)
  }

  /** Two events come out of the drain, `i` arrived first. */
  predicate BothDrained(s: seq<RawEvent>, i: nat, j: nat) {
    && i < j < |s| && Stamped(s, i) && Stamped(s, j)
    && EmittedAt(s, i) == |s| && EmittedAt(s, j) == |s|
  }

  /** The final range visits what waits in the order it arrived. */
  ghost predicate DrainFollows(s: seq<RawEvent>, order: seq<Id>) {
    forall i: nat, j: nat :: BothDrained(s, i, j) ==> Rank(order, s[i].id) < Rank(order, s[j].id)
  }

  lemma InOrder(s: seq<RawEvent>, order: seq<Id>, x: nat, y: nat)
    requires Before(s, order, x, y) && Stamped(s, x) && Stamped(s, y)
    requires !Overtaken(s, y, x) && (BothDrained(s, y, x) ==> Rank(order, s[y].id) < Rank(order, s[x].id))
    ensures x < y
  {
  }

  lemma NotBefore(s: seq<RawEvent>, order: seq<Id>, i: nat, j: nat)
    requires Before(s, order, i, j)
    ensures !Overtaken(s, i, j) && (BothDrained(s, i, j) ==> Rank(order, s[i].id) < Rank(order, s[j].id))
  {
  }

  ghost predicate AllStamped(s: seq<RawEvent>, st: seq<nat>) {
    forall x: nat :: x in st <==> x < |s| && Stamped(s, x)
  }

  lemma FollowsArrival(s: seq<RawEvent>, order: seq<Id>, st: seq<nat>)
    requires Ordered(s, order, st) && AllStamped(s, st) && NoneOvertaken(s) && DrainFollows(s, order)
    ensures Increasing(st)
  {
    forall a, b | 0 <= a < b < |st|
      ensures st[a] < st[b]
    {
      assert st[a] in st && st[b] in st;
      InOrder(s, order, st[a], st[b]);
    }
  }

  lemma IncreasingAt(s: seq<RawEvent>, order: seq<Id>, st: seq<nat>, i: nat, j: nat)
    requires Ordered(s, order, st) && Increasing(st) && i in st && j in st && i < j
    ensures Before(s, order, i, j)
  {
    var a :| 0 <= a < |st| && st[a] == i;
    var b :| 0 <= b < |st| && st[b] == j;
    assert a < b;
  }

  lemma NobodyOvertaken(s: seq<RawEvent>, order: seq<Id>, st: seq<nat>)
    requires Ordered(s, order, st) && AllStamped(s, st) && Increasing(st)
    ensures NoneOvertaken(s) && DrainFollows(s, order)
  {
    forall i: nat, j: nat | Overtaken(s, i, j) || BothDrained(s, i, j)
      ensures !Overtaken(s, i, j) && (BothDrained(s, i, j) ==> Rank(order, s[i].id) < Rank(order, s[j].id))
    {
      IncreasingAt(s, order, st, i, j);
      NotBefore(s, order, i, j);
    }
  }

  /** The whole output, read back as raw events, is in the order of arrival if and only if
      no event is overtaken while it waits and the final range follows the arrivals. */
  lemma ArrivalOrderExact(s: seq<RawEvent>, order: seq<Id>)
    requires Enumerates(order, AbsorbAll(s).pending.Keys)
    ensures Spells(FullLog(s, order), s, FullStamps(s, order))
    ensures Increasing(FullStamps(s, order)) <==> NoneOvertaken(s) && DrainFollows(s, order)
  {
    WindowSpells(s, order);
    WindowOrder(s, order);
    var st := FullStamps(s, order);
    if NoneOvertaken(s) && DrainFollows(s, order) {
      FollowsArrival(s, order, st);
    }
    if Increasing(st) {
      NobodyOvertaken(s, order, st);
    }
  }

  // Linux: a file is moved out, then another is made. Only the move carries an id.
  const MOVED_OUT := RawEvent(RENAMED_OLD, "a", 7)
  const MADE := RawEvent(CREATED, "b", 0)

  /** The later event comes out first. */
  lemma LaterComesFirst()
    ensures Enumerates([7], AbsorbAll([MOVED_OUT, MADE]).pending.Keys)
    ensures FullStamps([MOVED_OUT, MADE], [7]) == [1, 0]
    ensures Drain(AbsorbAll([MOVED_OUT, MADE]), [7]).out ==
      [Entry(FileEvent(Created, "b", ""), false), Entry(FileEvent(Removed, "a", ""), true)]
  {
    var one, s := [MOVED_OUT], [MOVED_OUT, MADE];
    assert one == [] + [MOVED_OUT] && s == one + [MADE];
    AbsorbLast([], MOVED_OUT);
    AbsorbLast(one, MADE);
    var p := AbsorbAll(s).pending;
    assert p == map[7 := MOVED_OUT];
    assert LogOf(one) == [] && LogOf(s) == CommitLog(MADE);
    assert [7][..0] == [];
    assert DrainLog(p, [7]) == CommitLog(MOVED_OUT);
    LogIsOutput(s, [7]);
    LaterStamps();
  }

  lemma LaterStamps()
    ensures FullStamps([MOVED_OUT, MADE], [7]) == [1, 0]
  {
    var one, s := [MOVED_OUT], [MOVED_OUT, MADE];
    assert s[..1] == one && one[..0] == [];
    assert LastIndex([], 7) == -1 && LastIndex(one, 7) == 0 && LastIndex(s, 7) == 0;
    assert MADE.id == 0 && MADE.typ != MODIFIED && Known(MADE) && Known(MOVED_OUT);
    var now := NewStamps(one, MADE);
    assert |now| == 1 && now[0] == 1;
    assert StampsOf(one) == [];
    assert StampsOf(s) == [1];
    assert [7][..0] == [] && LastStamp(s, 7) == [0];
    assert DrainStamps(s, [7]) == [0];
  }
}
