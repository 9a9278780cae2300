/** What the consumer gets: the loop refines coalescing one segment of the raw stream
    after the other. */
module PipelineStream {
  import opened Events
  import opened Batching
  import EmissionLog
  import opened Pipeline
  import opened PipelineSafety

  // ---- the specification -------------------------------------------------------

  ghost predicate WellDrained(cf: Config, g: Segment) {
    && g.raws != []
    && Enumerates(g.order, AbsorbAll(g.raws).pending.Keys)
    && (g.timed ==> g.flushedAt >= g.openedAt + cf.window)
  }

  /** Only the flush with which the loop ends is not the timer's. */
  predicate TimedBefore(gs: seq<Segment>, last: nat) {
    forall i :: 0 <= i < |gs| && i + last < |gs| ==> gs[i].timed
  }

  ghost predicate AllDrained(cf: Config, gs: seq<Segment>) {
    forall g :: g in gs ==> WellDrained(cf, g)
  }

  /** The raw events of consecutive segments. */
  function Raws(gs: seq<Segment>): seq<RawEvent> {
    if gs == [] then [] else Raws(gs[..|gs| - 1]) + gs[|gs| - 1].raws
  }

  /** Coalescing each segment on its own, one after the other. */
  ghost function Outputs(cf: Config, gs: seq<Segment>): seq<Entry>
    requires AllDrained(cf, gs)
  {
    if gs == [] then []
    else
      var g := gs[|gs| - 1];
      assert WellDrained(cf, g);
      Outputs(cf, gs[..|gs| - 1]) + Drain(AbsorbAll(g.raws), g.order).out
  }

  function Held(r: ReaderPc): seq<RawEvent> {
    if r.Holding? then [r.ev] else []
  }

  function Todo(l: LoopPc): seq<Entry> {
    if l.Flushing? then l.todo else []
  }

  // ---- the raw stream ----------------------------------------------------------

  /** Between the reader and the loop nothing is lost, doubled or reordered; one event
      in hand may be given up once `closed` is closed. */
  predicate RawKept(cf: Config, s: State) {
    && s.past.taken + s.raw.buf + Held(s.reader) <= s.past.read
    && (s.close.closed == 0 || MayCallNext(s.reader) ==>
          s.past.taken + s.raw.buf + Held(s.reader) == s.past.read)
    && |s.raw.buf| <= RAW_CAPACITY && |s.events.buf| <= cf.capacity
  }

  lemma Shift<T>(a: seq<T>, b: seq<T>, c: seq<T>)
    requires b != []
    ensures (a + [b[0]]) + b[1..] == a + b
    ensures (a + [b[0]]) + b[1..] + c == a + b + c
  {
  }

  lemma ReadStepRaw(cf: Config, s: State, t: ReadStep)
    requires Kept(cf, s) && RawKept(cf, s) && ReadEnabled(s, t)
    ensures RawKept(cf, ReadDo(s, t))
  {
    if t.Send? {
      assert s.past.taken + (s.raw.buf + [s.reader.ev]) + [] == s.past.taken + s.raw.buf + [s.reader.ev];
    } else if t.ReturnEvent? {
      assert s.past.taken + s.raw.buf + [] == s.past.taken + s.raw.buf;
    }
  }

  lemma LoopStepRaw(cf: Config, s: State, t: LoopStep)
    requires Kept(cf, s) && RawKept(cf, s) && LoopEnabled(cf, s, t)
    ensures RawKept(cf, LoopDo(cf, s, t))
  {
    if t.Take? {
      Shift(s.past.taken, s.raw.buf, Held(s.reader));
    }
  }

  // ---- the segments ------------------------------------------------------------

  /** The batch in hand is what absorbing `open` gives, and `open` is the rest of what
      was taken after the segments already drained. */
  ghost predicate SegmentsKept(cf: Config, s: State) {
    && AllDrained(cf, s.past.segments)
    && TimedBefore(s.past.segments, if Looping(s.loop) then 0 else 1)
    && Raws(s.past.segments) + s.work.open == s.past.taken
    && (if s.work.batch.None? || s.work.batch.value.drained then s.work.open == []
        else s.work.open != [] && s.work.batch.value == AbsorbAll(s.work.open))
  }

  lemma TakeSegments(cf: Config, s: State)
    requires Kept(cf, s) && SegmentsKept(cf, s) && s.loop.Select? && s.raw.buf != [] && !s.work.cut
    ensures SegmentsKept(cf, TakeOne(cf, s)) && !TakeOne(cf, s).work.cut
  {
    var ev := s.raw.buf[0];
    var w := Opened(cf, s.work, s.now);
    assert w.batch.value == AbsorbAll(s.work.open);
    EmissionLog.AbsorbLast(s.work.open, ev);
    var r := TakeOne(cf, s);
    assert r.work.open == s.work.open + [ev] && r.work.batch == Some(AbsorbAll(r.work.open));
    Assoc(Raws(s.past.segments), s.work.open, [ev]);
  }

  lemma AddSegment(cf: Config, gs: seq<Segment>, g: Segment)
    requires AllDrained(cf, gs) && WellDrained(cf, g)
    ensures AllDrained(cf, gs + [g])
    ensures Raws(gs + [g]) == Raws(gs) + g.raws
    ensures Outputs(cf, gs + [g]) == Outputs(cf, gs) + Drain(AbsorbAll(g.raws), g.order).out
  {
    assert (gs + [g])[..|gs|] == gs;
  }

  // ---- what is emitted ---------------------------------------------------------

  /** Emitted so far, with what is still to be sent of the batch being flushed. */
  ghost predicate OutputKept(cf: Config, s: State)
    requires AllDrained(cf, s.past.segments)
  {
    var sent := s.past.delivered + s.events.buf + Todo(s.loop);
    && sent <= Outputs(cf, s.past.segments)
    && (s.close.closed == 0 || Looping(s.loop) ==> sent == Outputs(cf, s.past.segments))
  }

  /** A loop that ended by itself has taken everything there was. */
  predicate EndKept(s: State) {
    s.close.closed == 0 && !Looping(s.loop) ==> s.raw.buf == [] && s.raw.closes == 1 && s.work.open == []
  }

  ghost predicate StreamKept(cf: Config, s: State) {
    && Kept(cf, s)
    && RawKept(cf, s)
    && EndKept(s)
    && (!s.work.cut ==> SegmentsKept(cf, s) && OutputKept(cf, s))
  }

  /** The segment that a flush begins with. */
  function Drained(s: State, order: seq<Id>, timed: bool): Segment {
    Segment(s.work.open, order, s.work.openedAt, s.now, timed)
  }

  /** A flush that has a batch to drain appends its segment. */
  lemma FlushAppends(cf: Config, s: State, order: seq<Id>, t: LoopStep)
    requires StreamKept(cf, s) && LoopEnabled(cf, s, t) && !s.work.cut && s.work.batch.Some?
    requires t == SeeEnd(order) || t == Tick(order) || t == SeeClosed(order)
    ensures var r, g := LoopDo(cf, s, t), Drained(s, order, t.Tick?);
      && WellDrained(cf, g)
      && r.past == s.past.(segments := s.past.segments + [g]) && r.events == s.events && r.close == s.close
      && r.work.open == [] && !r.work.cut
      && r.work.batch == Some(Drain(AbsorbAll(g.raws), order))
      && r.loop == Flushing(Drain(AbsorbAll(g.raws), order).out, !t.Tick?)
  {
  }

  lemma FlushSegments(cf: Config, s: State, order: seq<Id>, t: LoopStep)
    requires StreamKept(cf, s) && LoopEnabled(cf, s, t) && !s.work.cut && s.work.batch.Some?
    requires t == SeeEnd(order) || t == Tick(order) || t == SeeClosed(order)
    ensures SegmentsKept(cf, LoopDo(cf, s, t))
  {
    var g := Drained(s, order, t.Tick?);
    FlushAppends(cf, s, order, t);
    AddSegment(cf, s.past.segments, g);
    assert Raws(s.past.segments) + s.work.open + [] == Raws(s.past.segments) + s.work.open;
  }

  lemma FlushOutput(cf: Config, s: State, order: seq<Id>, t: LoopStep)
    requires StreamKept(cf, s) && LoopEnabled(cf, s, t) && !s.work.cut && s.work.batch.Some?
    requires t == SeeEnd(order) || t == Tick(order) || t == SeeClosed(order)
    ensures AllDrained(cf, LoopDo(cf, s, t).past.segments) && OutputKept(cf, LoopDo(cf, s, t))
  {
    FlushAppends(cf, s, order, t);
    AddSegment(cf, s.past.segments, Drained(s, order, t.Tick?));
    assert s.past.delivered + s.events.buf + [] == s.past.delivered + s.events.buf;
  }

  lemma FlushStream(cf: Config, s: State, order: seq<Id>, t: LoopStep)
    requires StreamKept(cf, s) && LoopEnabled(cf, s, t) && !s.work.cut
    requires t == SeeEnd(order) || t == Tick(order) || t == SeeClosed(order)
    ensures var r := LoopDo(cf, s, t); SegmentsKept(cf, r) && OutputKept(cf, r)
  {
    if s.work.batch.Some? {
      FlushSegments(cf, s, order, t);
      FlushOutput(cf, s, order, t);
    }
  }

  lemma EmitStream(cf: Config, s: State)
    requires StreamKept(cf, s) && LoopEnabled(cf, s, Emit) && !s.work.cut
    ensures var r := LoopDo(cf, s, Emit); SegmentsKept(cf, r) && OutputKept(cf, r)
  {
    Shift(s.past.delivered + s.events.buf, s.loop.todo, []);
    assert s.past.delivered + (s.events.buf + [s.loop.todo[0]]) == s.past.delivered + s.events.buf + [s.loop.todo[0]];
  }

  lemma StopStream(cf: Config, s: State, t: LoopStep)
    requires StreamKept(cf, s) && LoopEnabled(cf, s, t) && !s.work.cut && (t.Abandon? || t.FlushDone?)
    ensures var r := LoopDo(cf, s, t); !r.work.cut ==> SegmentsKept(cf, r) && OutputKept(cf, r)
  {
    var e := s.past.delivered + s.events.buf;
    assert e + [] == e && e <= e + s.loop.todo;
  }

  lemma LoopStepEnd(cf: Config, s: State, t: LoopStep)
    requires Kept(cf, s) && EndKept(s) && LoopEnabled(cf, s, t)
    requires !s.work.cut ==> SegmentsKept(cf, s)
    ensures EndKept(LoopDo(cf, s, t))
  {
  }

  lemma LoopStepSegments(cf: Config, s: State, t: LoopStep)
    requires StreamKept(cf, s) && LoopEnabled(cf, s, t) && !s.work.cut
    ensures var r := LoopDo(cf, s, t); !r.work.cut ==> SegmentsKept(cf, r) && OutputKept(cf, r)
  {
    if t.Take? {
      TakeSegments(cf, s);
    } else if t.SeeEnd? || t.Tick? || t.SeeClosed? {
      FlushStream(cf, s, t.order, t);
    } else if t.Emit? {
      EmitStream(cf, s);
    } else if t.Abandon? || t.FlushDone? {
      StopStream(cf, s, t);
    }
  }

  lemma CutStays(cf: Config, s: State, t: LoopStep)
    requires LoopEnabled(cf, s, t) && s.work.cut
    ensures LoopDo(cf, s, t).work.cut
  {
  }

  lemma LoopStepStream(cf: Config, s: State, t: LoopStep)
    requires StreamKept(cf, s) && LoopEnabled(cf, s, t)
    ensures StreamKept(cf, LoopDo(cf, s, t))
  {
    LoopStepKeeps(cf, s, t);
    LoopStepRaw(cf, s, t);
    LoopStepEnd(cf, s, t);
    if s.work.cut {
      CutStays(cf, s, t);
    } else {
      LoopStepSegments(cf, s, t);
    }
  }

  lemma ReadStepStream(cf: Config, s: State, t: ReadStep)
    requires StreamKept(cf, s) && ReadEnabled(s, t)
    ensures StreamKept(cf, ReadDo(s, t))
  {
    ReadStepKeeps(cf, s, t);
    ReadStepRaw(cf, s, t);
  }

  lemma StepStream(cf: Config, s: State, t: Step)
    requires StreamKept(cf, s) && Enabled(cf, s, t)
    ensures StreamKept(cf, Do(cf, s, t))
  {
    StepKeeps(cf, s, t);
    match t
    case Closer(k) =>
    case Reader(r) => ReadStepStream(cf, s, r);
    case Loop(l) => LoopStepStream(cf, s, l);
    case Receive =>
      var e := s.events.buf;
      Shift(s.past.delivered, e, Todo(s.loop));
    case _ =>
  }

  lemma {:induction false} RunStream(cf: Config, s: State, ts: seq<Step>)
    requires StreamKept(cf, s) && CanRun(cf, s, ts)
    ensures StreamKept(cf, Run(cf, s, ts))
    decreases |ts|
  {
    if ts != [] {
      StepStream(cf, s, ts[0]);
      RunStream(cf, Do(cf, s, ts[0]), ts[1..]);
    }
  }

  lemma ReachableStream(cf: Config, s: State)
    requires Reachable(cf, s)
    ensures StreamKept(cf, s)
  {
    var ts :| CanRun(cf, INIT, ts) && Run(cf, INIT, ts) == s;
    RunStream(cf, INIT, ts);
  }

  // ---- the theorems ------------------------------------------------------------

  /** Until a timer flush is cut short - so certainly until `closed` is closed - the
      consumer has received a prefix of the drains of consecutive segments of the raw
      stream; the segments are what next_event returned, in order, with nothing left
      out. All but the one the loop ends with were flushed by the timer, after being
      open for the whole window. The channels stay within their capacities. */
  lemma DeliveredIsBatchwise(cf: Config, s: State)
    requires Reachable(cf, s) && !s.work.cut
    ensures AllDrained(cf, s.past.segments)
    ensures TimedBefore(s.past.segments, if Looping(s.loop) then 0 else 1)
    ensures |s.raw.buf| <= RAW_CAPACITY && |s.events.buf| <= cf.capacity
    ensures Raws(s.past.segments) + s.work.open + s.raw.buf + Held(s.reader) <= s.past.read
    ensures s.past.delivered + s.events.buf <= Outputs(cf, s.past.segments)
    ensures s.close.closed == 0 ==>
      && Raws(s.past.segments) + s.work.open + s.raw.buf + Held(s.reader) == s.past.read
      && s.past.delivered + s.events.buf + Todo(s.loop) == Outputs(cf, s.past.segments)
  {
    ReachableStream(cf, s);
  }

  /** A loop that ends without a Close (next_event failed) has emitted everything. */
  lemma NothingIsLostWithoutClose(cf: Config, s: State)
    requires Reachable(cf, s) && s.close.closed == 0 && (s.loop.Joining? || s.loop.ClosingEvents? || s.loop.ClosingDone? || s.loop.Exited?)
    ensures AllDrained(cf, s.past.segments)
    ensures Raws(s.past.segments) == s.past.read
    ensures s.past.delivered + s.events.buf == Outputs(cf, s.past.segments)
  {
    ReachableStream(cf, s);
    assert s.past.delivered + s.events.buf + [] == s.past.delivered + s.events.buf;
    assert Raws(s.past.segments) + [] + [] + [] == Raws(s.past.segments);
  }
}
