/** What the macOS consumer is answered, read off what happened before: the calls of the
    callback and of Close, and the answers so far. */
module MacHistory {
  import opened Events
  import opened ComputeRels
  import opened MacSpec

  // ---- one operation more ----------------------------------------------------------------

  lemma {:induction false} AfterLast(q: Queue, ops: seq<Op>, op: Op)
    ensures After(q, ops + [op]) == Step(After(q, ops), op)
    decreases |ops|
  {
    if ops == [] {
      assert [op][1..] == [];
    } else {
      assert (ops + [op])[1..] == ops[1..] + [op];
      AfterLast(Step(q, ops[0]), ops[1..], op);
    }
  }

  // ---- what is due -------------------------------------------------------------------------

  /** Events were dropped, and the watcher was not closing. */
  predicate Drops(ops: seq<Op>, i: nat)
    requires i < |ops|
  {
    ops[i].Callback? && ops[i].over && Close !in ops[..i]
  }

  /** Operation `j` answered Overflow. */
  predicate Tells(ops: seq<Op>, j: nat)
    requires j < |ops|
  {
    AnsweredBy(After(OPENED, ops[..j]), ops[j]) == [Overflow]
  }

  /** Events were dropped since Overflow was last answered. */
  ghost predicate OverflowDue(ops: seq<Op>) {
    exists i :: 0 <= i < |ops| && Drops(ops, i) && forall j :: i < j < |ops| ==> !Tells(ops, j)
  }

  lemma Prefixes(ops: seq<Op>, op: Op)
    ensures forall k :: 0 <= k <= |ops| ==> (ops + [op])[..k] == ops[..k]
    ensures ops[..|ops|] == ops
    ensures forall k :: 0 <= k < |ops| ==> Drops(ops + [op], k) == Drops(ops, k) && Tells(ops + [op], k) == Tells(ops, k)
  {
  }

  lemma OverflowDueNext(ops: seq<Op>, op: Op)
    ensures OverflowDue(ops + [op]) <==>
      (op.Callback? && op.over && Close !in ops) ||
      (OverflowDue(ops) && AnsweredBy(After(OPENED, ops), op) != [Overflow])
  {
    var next := ops + [op];
    Prefixes(ops, op);
    assert Drops(next, |ops|) <==> op.Callback? && op.over && Close !in ops;
    assert Tells(next, |ops|) <==> AnsweredBy(After(OPENED, ops), op) == [Overflow];
    if OverflowDue(ops) && !Tells(next, |ops|) {
      var i :| 0 <= i < |ops| && Drops(ops, i) && forall j :: i < j < |ops| ==> !Tells(ops, j);
      assert Drops(next, i);
    }
    if OverflowDue(next) {
      var i :| 0 <= i < |next| && Drops(next, i) && forall j :: i < j < |next| ==> !Tells(next, j);
      if i < |ops| {
        assert Drops(ops, i) && !Tells(next, |ops|);
      }
    }
  }

  /** The two flags say what happened. */
  lemma {:induction false} FlagsSay(ops: seq<Op>)
    ensures After(OPENED, ops).closing <==> Close in ops
    ensures After(OPENED, ops).overflow <==> OverflowDue(ops)
  {
    if ops != [] {
      var front, last := ops[..|ops| - 1], ops[|ops| - 1];
      assert ops == front + [last];
      FlagsSay(front);
      AfterLast(OPENED, front, last);
      OverflowDueNext(front, last);
    }
  }

  /** The next answer of a consumer that calls, from the history alone: Closed exactly after a
      Close; otherwise Overflow exactly when events were dropped since it was last told so;
      otherwise it parks exactly when it has got all that was accepted, and otherwise gets the
      first accepted event it has not got. */
  lemma NextAnswer(ops: seq<Op>)
    requires Enabled(After(OPENED, ops), Pop)
    ensures var q, accepted, popped := After(OPENED, ops), Accepted(OPENED, ops), Popped(OPENED, ops);
      && AnsweredBy(q, Pop) ==
           (if Close in ops then [Closed]
            else if OverflowDue(ops) then [Overflow]
            else if popped == accepted then [Parked]
            else [])
      && (AnsweredBy(q, Pop) == [] ==>
            |popped| < |accepted| && Step(q, Pop).hand == Some(accepted[|popped|]))
  {
    FlagsSay(ops);
    Fifo(OPENED, ops);
    var q, accepted, popped := After(OPENED, ops), Accepted(OPENED, ops), Popped(OPENED, ops);
    assert [] + accepted == accepted;
    assert popped + q.items == accepted;
    assert q.items == [] ==> popped == accepted;
  }

  // ---- memory ---------------------------------------------------------------------------------

  function Max(a: nat, b: nat): nat {
    if a > b then a else b
  }

  /** The room that the longest of these paths takes. */
  function Longest(evs: seq<RawEvent>): nat {
    if evs == [] then 0 else Max(|evs[0].path| + 1, Longest(evs[1..]))
  }

  lemma {:induction false} LongestConcat(a: seq<RawEvent>, b: seq<RawEvent>)
    ensures Longest(a + b) == Max(Longest(a), Longest(b))
  {
    if a == [] {
      assert a + b == b;
    } else {
      assert (a + b)[0] == a[0] && (a + b)[1..] == a[1..] + b;
      LongestConcat(a[1..], b);
    }
  }

  lemma StepScratch(q: Queue, op: Op)
    ensures Step(q, op).scratch == Max(q.scratch, Longest(EventsOf(AnsweredBy(q, op))))
  {
    var a := AnsweredBy(q, op);
    if a != [] {
      assert a[1..] == [];
      assert EventsOf(a)[..] == EventsOf(a);
      assert a[0].Event? ==> EventsOf(a) == [a[0].ev] && EventsOf(a)[1..] == [];
    }
  }

  /** The buffer that carries a path is as large as the longest path it has carried. */
  lemma {:induction false} ScratchIsLongest(q: Queue, ops: seq<Op>)
    ensures After(q, ops).scratch == Max(q.scratch, Longest(EventsOf(Answers(q, ops))))
    decreases |ops|
  {
    if ops != [] {
      var r := Step(q, ops[0]);
      ScratchIsLongest(r, ops[1..]);
      StepScratch(q, ops[0]);
      EventsOfNext(AnsweredBy(q, ops[0]), Answers(r, ops[1..]));
      LongestConcat(EventsOf(AnsweredBy(q, ops[0])), EventsOf(Answers(r, ops[1..])));
    }
  }

  /** A popped event is answered, and lost for want of memory exactly when there is none to
      be had and its path is longer than all that were answered before. */
  lemma HandIsAnswered(ops: seq<Op>, alloc: bool)
    requires After(OPENED, ops).hand.Some?
    ensures var ev := After(OPENED, ops).hand.value;
      AnsweredBy(After(OPENED, ops), Return(alloc)) ==
        [if !alloc && |ev.path| + 1 > Longest(EventsOf(Answers(OPENED, ops))) then NoMemory else Event(ev)]
  {
    ScratchIsLongest(OPENED, ops);
  }

  // ---- what the callback hands over -------------------------------------------------------------

  /** The record becomes an event: it has a path, below the root. */
  predicate Accepts(root: Path, recursive: bool, r: Record) {
    r.abs.Some? && Relative(root, recursive, r.abs.value).Some?
  }

  function EventFor(root: Path, recursive: bool, r: Record): RawEvent
    requires Accepts(root, recursive, r)
  {
    RawEvent(r.typ, Relative(root, recursive, r.abs.value).value, r.inode)
  }

  /** `at` says which record each event of a batch is for. */
  ghost predicate Selects(root: Path, recursive: bool, rs: seq<Record>, items: seq<RawEvent>, at: seq<nat>) {
    && |at| == |items|
    && (forall k :: 0 <= k < |at| ==>
          at[k] < |rs| && Accepts(root, recursive, rs[at[k]]) && items[k] == EventFor(root, recursive, rs[at[k]]))
    && (forall j, k :: 0 <= j < k < |at| ==> at[j] < at[k])
    && (forall i: nat :: i < |rs| && Accepts(root, recursive, rs[i]) ==> i in at)
  }

  lemma SelectsNext(root: Path, recursive: bool, front: seq<Record>, r: Record, items: seq<RawEvent>, at: seq<nat>)
    requires Selects(root, recursive, front, items, at)
    ensures Accepts(root, recursive, r) ==>
      Selects(root, recursive, front + [r], items + [EventFor(root, recursive, r)], at + [|front|])
    ensures !Accepts(root, recursive, r) ==> Selects(root, recursive, front + [r], items, at)
  {
    var rs := front + [r];
    assert forall k :: 0 <= k < |at| ==> rs[at[k]] == front[at[k]];
    assert forall i: nat :: i < |front| ==> rs[i] == front[i];
    assert |front| in at + [|front|] && forall i :: i in at ==> i in at + [|front|];
  }

  /** A batch is the accepted records, in order, each with its type, its inode and its path
      below the root: none skipped, doubled or swapped. */
  lemma {:induction false} BatchIsSelection(root: Path, recursive: bool, rs: seq<Record>) returns (at: seq<nat>)
    ensures Selects(root, recursive, rs, Items(root, recursive, rs), at)
  {
    if rs == [] {
      at := [];
    } else {
      var front, last := rs[..|rs| - 1], rs[|rs| - 1];
      at := BatchIsSelection(root, recursive, front);
      assert rs == front + [last];
      SelectsNext(root, recursive, front, last, Items(root, recursive, front), at);
      if Accepts(root, recursive, last) {
        at := at + [|front|];
      } else {
        assert Items(root, recursive, rs) == Items(root, recursive, front) + [];
      }
    }
  }

  /** Whenever a record says that events were dropped, the consumer is told - first thing,
      unless the watcher is closed before. */
  lemma DropIsTold(q: Queue, root: Path, recursive: bool, rs: seq<Record>, r: Record, ops: seq<Op>)
    requires r in rs && r.dropped && !q.closing && q.hand.None?
    ensures var a := Answers(Step(q, Callback(Items(root, recursive, rs), Dropped(rs))), ops);
      a != [] ==> a[0] == Overflow || (a[0] == Closed && Close in ops)
  {
    var t := Step(q, Callback(Items(root, recursive, rs), Dropped(rs)));
    assert t.overflow;
    OverflowFirst(t, ops);
  }

  lemma {:induction false} OverflowFirst(q: Queue, ops: seq<Op>)
    requires q.overflow && !q.closing && q.hand.None?
    ensures var a := Answers(q, ops); a != [] ==> a[0] == Overflow || (a[0] == Closed && Close in ops)
    decreases |ops|
  {
    if ops != [] && AnsweredBy(q, ops[0]) == [] {
      if ops[0] == Close {
        StaysClosed(Step(q, Close), ops[1..]);
        var a := Answers(Step(q, Close), ops[1..]);
        assert a != [] ==> a[0] in a;
      } else {
        OverflowFirst(Step(q, ops[0]), ops[1..]);
        assert forall op :: op in ops[1..] ==> op in ops;
      }
    }
  }
}
