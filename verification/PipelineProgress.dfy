/** Teardown progress: once Close has begun, nothing can keep it from finishing, whatever
    the consumer and the kernel do or do not do. */
module PipelineProgress {
  import opened Events
  import opened Batching
  import opened Pipeline
  import opened PipelineSafety

  // ---- how much a batch can still emit -----------------------------------------

  function Size(b: Batch): nat {
    |b.out| + |b.pending.Keys|
  }

  lemma {:induction false} CommitKeysSize(b: Batch, order: seq<Id>)
    requires forall k :: k in order ==> k in b.pending
    ensures |CommitKeys(b, order).out| <= |b.out| + |order|
  {
    if order != [] {
      CommitKeysSize(b, order[..|order| - 1]);
    }
  }

  lemma DrainSize(b: Batch, order: seq<Id>)
    requires Enumerates(order, b.pending.Keys)
    ensures Size(Drain(b, order)) == |Drain(b, order).out| <= Size(b)
  {
    CommitKeysSize(b, order);
    EnumerationLength(order, b.pending.Keys);
  }

  lemma AbsorbSize(b: Batch, ev: RawEvent)
    requires !Panics(b, ev)
    ensures Size(Absorb(b, ev)) <= Size(b) + 1
  {
    var r := Absorb(b, ev);
    if Pairable(ev) {
      if ev.id !in b.pending {
        assert r.pending.Keys == b.pending.Keys + {ev.id};
      } else {
        assert r.pending.Keys <= b.pending.Keys;
        assert r.pending.Keys == b.pending.Keys || r.pending.Keys == b.pending.Keys - {ev.id};
      }
    }
  }

  // ---- the measure -------------------------------------------------------------

  /** What one buffered raw event may still cause. */
  const PER_EVENT := 8

  function ReaderWork(r: ReaderPc): nat {
    match r
    case Unborn => 6
    case AtCall => 5
    case Top => 3
    case Filling => 3
    case Polling => 8 + PER_EVENT
    case Record => 7 + PER_EVENT
    case Holding(_) => 6 + PER_EVENT
    case ClosingRaw => 2
    case ClosingRlDone => 1
    case Gone => 0
  }

  function TimerWork(t: Timer): nat {
    if t.Armed? then 4 else if t.Ticked? then 3 else 0
  }

  function BatchWork(w: Work): nat {
    if w.batch.None? then 0
    else if w.timer.Armed? || w.timer.Ticked? then 2 * Size(w.batch.value)
    else Size(w.batch.value)
  }

  function LoopWork(l: LoopPc, w: Work): nat {
    match l
    case Unstarted => 6
    case Select => 5 + BatchWork(w)
    case Flushing(todo, final) =>
      if final then 4 + |todo| else 7 + |todo| + (if w.batch.Some? then |w.batch.value.out| else 0)
    case Joining => 3
    case ClosingEvents => 2
    case ClosingDone => 1
    case Exited => 0
    case Panicked => 0
  }

  /** Close's own position, the reader's position, the buffered raw events, the loop's
      position with the batch it has not sent, and the timer. */
  function Remaining(s: State): nat {
    (6 - Stage(s.close.once)) + ReaderWork(s.reader) + PER_EVENT * |s.raw.buf|
      + LoopWork(s.loop, s.work) + TimerWork(s.work.timer)
  }

  /** Poll returns because of the kernel: records, a signal, or a failure. What is not
      here is its return because Close has written the eventfd. */
  predicate ByKernel(t: ReadStep) {
    t.PollRead? || t.PollAgain? || t.PollFails?
  }

  /** Done by the consumer, the kernel or the clock, or by a Close caller that is not the
      first. */
  predicate Outside(t: Step) {
    || t.Advance? || t.Receive? || t.Fire?
    || (t.Reader? && ByKernel(t.r))
    || (t.Closer? && (t.k.Call? || t.k.Enter? || t.k.Skip?))
  }

  lemma CloseStepWork(cf: Config, s: State, t: CloseStep)
    requires Kept(cf, s) && CloseEnabled(s.close, s.done, t) && Stage(s.close.once) >= 2
    ensures var r := CloseDo(s.close, s.done, t);
      if t.Call? || t.Skip? then Stage(r.once) == Stage(s.close.once) else Stage(r.once) > Stage(s.close.once)
  {
  }

  lemma ReadStepWork(cf: Config, s: State, t: ReadStep)
    requires Kept(cf, s) && ReadEnabled(s, t) && Stage(s.close.once) >= 2
    ensures Remaining(ReadDo(s, t)) < Remaining(s)
  {
  }

  lemma TakeWork(cf: Config, s: State)
    requires Kept(cf, s) && s.loop.Select? && s.raw.buf != []
    ensures Remaining(TakeOne(cf, s)) < Remaining(s)
  {
    var w := Opened(cf, s.work, s.now);
    var ev := s.raw.buf[0];
    assert |s.raw.buf[1..]| == |s.raw.buf| - 1;
    if !Panics(w.batch.value, ev) {
      AbsorbSize(w.batch.value, ev);
    }
  }

  lemma FlushWork(cf: Config, s: State, order: seq<Id>, t: LoopStep)
    requires Kept(cf, s) && LoopEnabled(cf, s, t) && (t == SeeEnd(order) || t == Tick(order) || t == SeeClosed(order))
    ensures Remaining(LoopDo(cf, s, t)) < Remaining(s)
  {
    if s.work.batch.Some? {
      DrainSize(s.work.batch.value, order);
    }
  }

  lemma LoopStepWork(cf: Config, s: State, t: LoopStep)
    requires Kept(cf, s) && LoopEnabled(cf, s, t)
    ensures Remaining(LoopDo(cf, s, t)) < Remaining(s)
  {
    if t.Take? {
      TakeWork(cf, s);
    } else if t.SeeEnd? || t.Tick? || t.SeeClosed? {
      FlushWork(cf, s, t.order, t);
    }
  }

  /** From the moment the latch is set every step of the watcher uses some of what
      remains, and no step of the surroundings gives any back. */
  lemma StepWork(cf: Config, s: State, t: Step)
    requires Kept(cf, s) && Enabled(cf, s, t) && Stage(s.close.once) >= 2
    ensures if Outside(t) then Remaining(Do(cf, s, t)) <= Remaining(s) else Remaining(Do(cf, s, t)) < Remaining(s)
    ensures Stage(Do(cf, s, t).close.once) >= 2
  {
    match t
    case Closer(k) => CloseStepWork(cf, s, k);
    case Reader(r) => ReadStepWork(cf, s, r);
    case Loop(l) => LoopStepWork(cf, s, l);
    case _ =>
  }

  function OwnSteps(ts: seq<Step>): nat {
    if ts == [] then 0 else (if Outside(ts[0]) then 0 else 1) + OwnSteps(ts[1..])
  }

  lemma {:induction false} RunWork(cf: Config, s: State, ts: seq<Step>)
    requires Kept(cf, s) && Stage(s.close.once) >= 2 && CanRun(cf, s, ts)
    ensures OwnSteps(ts) + Remaining(Run(cf, s, ts)) <= Remaining(s)
    decreases |ts|
  {
    if ts != [] {
      StepKeeps(cf, s, ts[0]);
      StepWork(cf, s, ts[0]);
      RunWork(cf, Do(cf, s, ts[0]), ts[1..]);
    }
  }

  // ---- nothing is stuck --------------------------------------------------------

  lemma ReaderMoves(cf: Config, s: State) returns (t: ReadStep)
    requires Kept(cf, s) && s.close.closed == 1 && !s.reader.Gone? && !s.reader.Unborn?
    ensures ReadEnabled(s, t) && !ByKernel(t)
  {
    match s.reader
    case AtCall => t := CallNext;
    case Top => t := CheckTop;
    case Filling => t := CheckFill;
    case Polling => t := PollWoken;
    case Record => t := SkipRecord;
    case Holding(_) => t := GiveUp;
    case ClosingRaw => t := CloseRaw;
    case ClosingRlDone => t := CloseRlDone;
  }

  lemma LoopMoves(cf: Config, s: State) returns (t: LoopStep)
    requires Kept(cf, s) && s.close.closed == 1 && !s.loop.Exited? && !s.loop.Panicked?
    requires s.loop.Joining? ==> s.reader.Gone?
    ensures LoopEnabled(cf, s, t) && !t.Take?
  {
    match s.loop
    case Unstarted => t := Spawn;
    case Select =>
      var order := [];
      if s.work.batch.Some? {
        order := SomeEnumeration(s.work.batch.value.pending.Keys);
      }
      t := SeeClosed(order);
    case Flushing(todo, _) =>
      if todo != [] {
        t := Abandon;
      } else {
        t := FlushDone;
      }
    case Joining => t := Join;
    case ClosingEvents => t := CloseEvents;
    case ClosingDone => t := CloseDone;
  }

  /** While a Close is running some step of the watcher can be taken, with no help from
      the consumer, the kernel or the clock. */
  lemma Moves(cf: Config, s: State) returns (t: Step)
    requires Kept(cf, s) && s.close.once.Running? && !s.loop.Panicked?
    ensures Enabled(cf, s, t) && !Outside(t) && t != Loop(Take)
    ensures s.close.once.at.AtLatch? ==> t == Closer(Latch)
  {
    match s.close.once.at
    case AtLatch => t := Closer(Latch);
    case AtWake => t := Closer(Wake);
    case AtCloseClosed => t := Closer(CloseClosed);
    case AtDestroy => t := Closer(Destroy);
    case AtAwaitDone =>
      if s.loop.Exited? {
        t := Closer(SeeDone);
      } else if s.loop.Joining? && !s.reader.Gone? {
        var r := ReaderMoves(cf, s);
        t := Reader(r);
      } else {
        var l := LoopMoves(cf, s);
        t := Loop(l);
      }
  }

  /** No deadlock: a Close that has begun always has a step to take that needs neither the
      consumer nor the kernel nor the clock - in particular a parked poll is woken - and when it is over every
      other caller can return, with everything shut down. */
  lemma CloseIsNeverStuck(cf: Config, s: State)
    requires Reachable(cf, s) && !s.close.once.Free? && !s.loop.Panicked?
    ensures s.close.once.Finished? || exists t :: Enabled(cf, s, t) && !Outside(t)
    ensures s.close.once.Finished? ==>
      && s.loop.Exited? && s.reader.Gone? && s.events.closes == 1 && s.close.destroys == 1
      && forall c :: c in s.close.waiting ==> Enabled(cf, s, Closer(Skip(c)))
  {
    ReachableKept(cf, s);
    if !s.close.once.Finished? {
      var t := Moves(cf, s);
    }
  }

  /** No livelock: once the latch is set, a run takes at most `Remaining` steps of the
      watcher's own, however the surroundings act in between. */
  lemma CloseIsBounded(cf: Config, s: State, ts: seq<Step>)
    requires Reachable(cf, s) && s.close.latched && CanRun(cf, s, ts)
    ensures OwnSteps(ts) <= Remaining(s)
    ensures OwnSteps(ts) == Remaining(s) ==>
      Run(cf, s, ts).close.once.Finished? || Run(cf, s, ts).loop.Panicked?
  {
    ReachableKept(cf, s);
    RunWork(cf, s, ts);
    RunKeeps(cf, s, ts);
    var r := Run(cf, s, ts);
    if r.close.once.Running? && !r.loop.Panicked? && Remaining(r) == 0 {
      var t := Moves(cf, r);
      StepWork(cf, r, t);
    }
  }

  /** Only absorbing an event can panic. */
  lemma OnlyTakePanics(cf: Config, s: State, t: Step)
    requires Enabled(cf, s, t) && t != Loop(Take) && !s.loop.Panicked?
    ensures !Do(cf, s, t).loop.Panicked?
  {
  }

  lemma {:induction false} Completes(cf: Config, s: State) returns (ts: seq<Step>)
    requires Kept(cf, s) && s.close.once.Running? && !s.loop.Panicked?
    ensures CanRun(cf, s, ts) && OwnSteps(ts) == |ts|
    ensures Run(cf, s, ts).close.once.Finished? && !Run(cf, s, ts).loop.Panicked?
    decreases !s.close.latched, Remaining(s)
  {
    var t := Moves(cf, s);
    StepKeeps(cf, s, t);
    OnlyTakePanics(cf, s, t);
    if s.close.latched {
      StepWork(cf, s, t);
    }
    var rest := [];
    if !Do(cf, s, t).close.once.Finished? {
      rest := Completes(cf, Do(cf, s, t));
    }
    ts := [t] + rest;
    assert ts[1..] == rest;
  }

  /** So a Close that has begun can always be finished by the watcher alone, and without a
      panic: the consumer never receives, nothing comes from the kernel and no time passes. */
  lemma CloseCompletes(cf: Config, s: State)
    requires Reachable(cf, s) && s.close.once.Running? && !s.loop.Panicked?
    ensures exists ts :: CanRun(cf, s, ts) && OwnSteps(ts) == |ts| &&
              Run(cf, s, ts).close.once.Finished? && !Run(cf, s, ts).loop.Panicked?
  {
    ReachableKept(cf, s);
    var ts := Completes(cf, s);
  }
}
