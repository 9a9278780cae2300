/** The macOS producer/consumer queue as a value, and what holds over whole runs of it. */
module MacSpec {
  import opened Events
  import opened ComputeRels

  /** `parked`: the consumer waits on the condition variable. `hand`: the event it has
      popped and not returned yet. `scratch` is the size of the buffer that carries the
      path of the event last returned. */
  datatype Queue = Queue(
    items: seq<RawEvent>, overflow: bool, closing: bool, parked: bool, hand: Option<RawEvent>, scratch: nat)

  const OPENED := Queue([], false, false, false, None, 0)

  datatype Answer = Closed | Overflow | Event(ev: RawEvent) | NoMemory | Parked

  /** One FSEvents record: dropped-events flag, type, inode, and the absolute path, None
      when it is missing, not representable, or memory for the node ran out. */
  datatype Record = Record(dropped: bool, typ: int, inode: Id, abs: Option<Path>)

  // ---- steps -------------------------------------------------------------------

  function ItemOf(root: Path, recursive: bool, r: Record): seq<RawEvent> {
    if r.abs.None? then []
    else
      var rel := Relative(root, recursive, r.abs.value);
      if rel.None? then [] else [RawEvent(r.typ, rel.value, r.inode)]
  }

  function Items(root: Path, recursive: bool, rs: seq<Record>): seq<RawEvent> {
    if rs == [] then [] else Items(root, recursive, rs[..|rs| - 1]) + ItemOf(root, recursive, rs[|rs| - 1])
  }

  predicate Dropped(rs: seq<Record>) {
    exists r :: r in rs && r.dropped
  }

  /** The callback's critical section. */
  function Offer(q: Queue, batch: seq<RawEvent>, over: bool): Queue {
    if q.closing then q
    else q.(items := q.items + batch, overflow := q.overflow || over, parked := q.parked && batch == [] && !over)
  }

  /** The consumer's critical section: it answers at once, or parks, or pops an event. */
  function TakeAnswer(q: Queue): seq<Answer> {
    if q.closing then [Closed]
    else if q.overflow then [Overflow]
    else if q.items == [] then [Parked]
    else []
  }

  function Take(q: Queue): Queue {
    if q.closing then q
    else if q.overflow then q.(overflow := false)
    else if q.items == [] then q.(parked := true)
    else q.(items := q.items[1..], hand := Some(q.items[0]))
  }

  /** After unlocking it copies the path and frees the node. No room in the scratch
      buffer and none to be had: the event is lost. */
  predicate Starved(q: Queue, alloc: bool)
    requires q.hand.Some?
  {
    |q.hand.value.path| + 1 > q.scratch && !alloc
  }

  function FinishAnswer(q: Queue, alloc: bool): Answer
    requires q.hand.Some?
  {
    if Starved(q, alloc) then NoMemory else Event(q.hand.value)
  }

  function Finish(q: Queue, alloc: bool): Queue
    requires q.hand.Some?
  {
    if Starved(q, alloc) then q.(hand := None)
    else
      var need := |q.hand.value.path| + 1;
      q.(hand := None, scratch := if need > q.scratch then need else q.scratch)
  }

  function Shut(q: Queue): Queue {
    q.(closing := true, parked := false)
  }

  // ---- runs --------------------------------------------------------------------

  datatype Op = Callback(batch: seq<RawEvent>, over: bool) | Pop | Return(alloc: bool) | Wakeup | Close

  predicate Enabled(q: Queue, op: Op) {
    && (op.Pop? ==> !q.parked && q.hand.None?)
    && (op.Return? ==> q.hand.Some?)
  }

  /** An operation that is not enabled does nothing. */
  function Step(q: Queue, op: Op): Queue {
    if !Enabled(q, op) then q
    else match op
      case Callback(batch, over) => Offer(q, batch, over)
      case Pop => Take(q)
      case Return(alloc) => Finish(q, alloc)
      case Wakeup => q.(parked := false)
      case Close => Shut(q)
  }

  function After(q: Queue, ops: seq<Op>): Queue
    decreases |ops|
  {
    if ops == [] then q else After(Step(q, ops[0]), ops[1..])
  }

  function AnsweredBy(q: Queue, op: Op): seq<Answer> {
    if !Enabled(q, op) then []
    else if op.Pop? then TakeAnswer(q)
    else if op.Return? then [FinishAnswer(q, op.alloc)]
    else []
  }

  /** What the consumer was answered, in order. */
  function Answers(q: Queue, ops: seq<Op>): seq<Answer>
    decreases |ops|
  {
    if ops == [] then [] else AnsweredBy(q, ops[0]) + Answers(Step(q, ops[0]), ops[1..])
  }

  function AcceptedBy(q: Queue, op: Op): seq<RawEvent> {
    if op.Callback? && !q.closing then op.batch else []
  }

  /** Taken off the queue. */
  function PoppedBy(q: Queue, op: Op): seq<RawEvent> {
    if op.Pop? && Enabled(q, op) && !q.closing && !q.overflow && q.items != [] then [q.items[0]] else []
  }

  /** The batches offered before `closing`. */
  function Accepted(q: Queue, ops: seq<Op>): seq<RawEvent>
    decreases |ops|
  {
    if ops == [] then [] else AcceptedBy(q, ops[0]) + Accepted(Step(q, ops[0]), ops[1..])
  }

  function Popped(q: Queue, ops: seq<Op>): seq<RawEvent>
    decreases |ops|
  {
    if ops == [] then [] else PoppedBy(q, ops[0]) + Popped(Step(q, ops[0]), ops[1..])
  }

  lemma TakeFifo(q: Queue)
    requires !q.closing && !q.overflow && q.items != []
    ensures [q.items[0]] + Take(q).items == q.items
  {
  }

  lemma StepFifo(q: Queue, op: Op)
    ensures PoppedBy(q, op) + Step(q, op).items == q.items + AcceptedBy(q, op)
  {
    var popped, next, accepted := PoppedBy(q, op), Step(q, op).items, AcceptedBy(q, op);
    if popped != [] {
      TakeFifo(q);
      assert q.items + [] == q.items;
    } else {
      assert next == if accepted == [] then q.items else q.items + accepted;
      assert [] + next == next && q.items + [] == q.items;
    }
  }

  /** First in, first out, under any interleaving: what was popped, then what is still
      queued, is what was queued at first, then what was accepted. */
  lemma {:induction false} Fifo(q: Queue, ops: seq<Op>)
    ensures Popped(q, ops) + After(q, ops).items == q.items + Accepted(q, ops)
    decreases |ops|
  {
    if ops != [] {
      var r := Step(q, ops[0]);
      Fifo(r, ops[1..]);
      StepFifo(q, ops[0]);
      Regroup(PoppedBy(q, ops[0]), Popped(r, ops[1..]), After(q, ops).items,
        r.items, q.items, AcceptedBy(q, ops[0]), Accepted(r, ops[1..]));
    }
  }

  function EventsOf(answers: seq<Answer>): seq<RawEvent> {
    if answers == [] then []
    else (if answers[0].Event? then [answers[0].ev] else []) + EventsOf(answers[1..])
  }

  lemma EventsOfNext(first: seq<Answer>, rest: seq<Answer>)
    requires |first| <= 1
    ensures EventsOf(first + rest) == EventsOf(first) + EventsOf(rest)
  {
    if first == [] {
      assert first + rest == rest;
    } else {
      assert (first + rest)[1..] == rest && first[1..] == [];
    }
  }

  function InHand(q: Queue): seq<RawEvent> {
    if q.hand.Some? then [q.hand.value] else []
  }

  lemma StepAnswers(q: Queue, op: Op)
    requires NoMemory !in AnsweredBy(q, op)
    ensures EventsOf(AnsweredBy(q, op)) + InHand(Step(q, op)) == InHand(q) + PoppedBy(q, op)
  {
    var a := AnsweredBy(q, op);
    if a != [] {
      assert a[0] in a && a[1..] == [];
    }
  }

  /** Every popped event is answered, unless memory ran out; one may still be in hand. */
  lemma {:induction false} PoppedAreAnswered(q: Queue, ops: seq<Op>)
    requires NoMemory !in Answers(q, ops)
    ensures EventsOf(Answers(q, ops)) + InHand(After(q, ops)) == InHand(q) + Popped(q, ops)
    decreases |ops|
  {
    if ops != [] {
      var r := Step(q, ops[0]);
      var first, rest := AnsweredBy(q, ops[0]), Answers(r, ops[1..]);
      assert forall a :: a in first || a in rest ==> a in first + rest;
      PoppedAreAnswered(r, ops[1..]);
      StepAnswers(q, ops[0]);
      EventsOfNext(first, rest);
      Regroup(EventsOf(first), EventsOf(rest), InHand(After(q, ops)),
        InHand(r), InHand(q), PoppedBy(q, ops[0]), Popped(r, ops[1..]));
    }
  }

  /** From opening to closing the consumer gets exactly a prefix of what was accepted, and
      the rest is in its hand and still queued. */
  lemma ConsumerGetsWhatWasAccepted(ops: seq<Op>)
    requires NoMemory !in Answers(OPENED, ops)
    ensures var q := After(OPENED, ops);
      EventsOf(Answers(OPENED, ops)) + InHand(q) + q.items == Accepted(OPENED, ops)
  {
    Fifo(OPENED, ops);
    PoppedAreAnswered(OPENED, ops);
    var popped, accepted := Popped(OPENED, ops), Accepted(OPENED, ops);
    assert [] + popped == popped && [] + accepted == accepted;
  }

  /** An overflow is answered ahead of everything queued, and the consumer does not park
      on it. */
  lemma {:induction false} OverflowComesFirst(q: Queue, ops: seq<Op>)
    requires q.overflow && q.hand.None?
    ensures var a := Answers(q, ops); a != [] ==> a[0] == Overflow || a[0] == Closed
    decreases |ops|
  {
    if ops != [] && AnsweredBy(q, ops[0]) == [] {
      OverflowComesFirst(Step(q, ops[0]), ops[1..]);
    }
  }

  /** A parked consumer has nothing to be told. */
  predicate Fair(q: Queue) {
    q.parked ==> q.items == [] && !q.overflow && !q.closing
  }

  /** It is woken by whatever there is to tell, so it never misses a close, an overflow
      or an event; whatever comes after, its next answer is not lost. */
  lemma {:induction false} NothingIsMissed(q: Queue, ops: seq<Op>)
    requires Fair(q)
    ensures Fair(After(q, ops))
    decreases |ops|
  {
    if ops != [] {
      NothingIsMissed(Step(q, ops[0]), ops[1..]);
    }
  }

  /** After a close nothing is accepted, nothing parks, and every answer is Closed. */
  lemma {:induction false} ClosedForGood(q: Queue, ops: seq<Op>)
    requires q.closing && !q.parked && q.hand.None?
    ensures After(q, ops) == q && Enabled(q, Pop) && Accepted(q, ops) == [] && Popped(q, ops) == []
    ensures forall i :: 0 <= i < |Answers(q, ops)| ==> Answers(q, ops)[i] == Closed
    decreases |ops|
  {
    if ops != [] {
      ClosedForGood(Step(q, ops[0]), ops[1..]);
    }
  }

  /** A close closes, whatever state it finds: nothing is accepted or popped any more, and
      every answer is Closed - but for the event the consumer had in hand. */
  lemma CloseCloses(q: Queue, r: Queue, ops: seq<Op>)
    requires r == Step(q, Close)
    ensures Accepted(r, ops) == [] && Popped(r, ops) == []
    ensures forall a :: a in Answers(r, ops) ==>
      a == Closed || (q.hand.Some? && (a == NoMemory || a == Event(q.hand.value)))
  {
    StaysClosed(r, ops);
  }

  lemma {:induction false} StaysClosed(q: Queue, ops: seq<Op>)
    requires q.closing && !q.parked
    ensures After(q, ops).closing && Accepted(q, ops) == [] && Popped(q, ops) == []
    ensures forall a :: a in Answers(q, ops) ==> a == Closed || (q.hand.Some? && (a == NoMemory || a == Event(q.hand.value)))
    decreases |ops|
  {
    if ops != [] {
      StaysClosed(Step(q, ops[0]), ops[1..]);
    }
  }
}
