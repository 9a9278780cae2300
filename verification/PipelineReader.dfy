/** What keeps the reader reading, what ends it, and that no record gets lost on the way. */
module PipelineReader {
  import opened Events
  import opened Batching
  import opened Pipeline
  import opened PipelineSafety

  // ---- going on ------------------------------------------------------------------------

  /** Sets the latch, or makes next_event fail. */
  predicate EndsReading(t: Step) {
    t == Closer(Latch) || t == Reader(PollFails) || t == Reader(ReturnError)
  }

  /** The reader is at work, and so is the coalescer. */
  predicate AtWork(s: State) {
    && !s.close.latched && s.close.closed == 0
    && MayCallNext(s.reader) && s.raw.closes == 0
    && Looping(s.loop) && s.events.closes == 0
  }

  lemma WorkGoesOn(cf: Config, s: State, t: Step)
    requires Kept(cf, s) && AtWork(s) && Enabled(cf, s, t) && !EndsReading(t)
    ensures AtWork(Do(cf, s, t))
  {
  }

  /** As long as nobody closes and next_event does not fail, the watcher goes on, over every
      run: the reader calls next_event again - also after an overflow, an interrupted poll or a
      record that is not reported - no channel is closed, and the coalescer keeps its loop. */
  lemma {:induction false} KeepsReading(cf: Config, s: State, ts: seq<Step>)
    requires Kept(cf, s) && AtWork(s) && CanRun(cf, s, ts)
    requires forall t :: t in ts ==> !EndsReading(t)
    ensures AtWork(Run(cf, s, ts))
    decreases |ts|
  {
    if ts != [] {
      assert ts[0] in ts && forall t :: t in ts[1..] ==> t in ts;
      StepKeeps(cf, s, ts[0]);
      WorkGoesOn(cf, s, ts[0]);
      KeepsReading(cf, Do(cf, s, ts[0]), ts[1..]);
    }
  }

  /** From NewWatcher on. */
  lemma OpenedKeepsReading(cf: Config, ts: seq<Step>)
    requires CanRun(cf, INIT, ts) && forall t :: t in ts ==> !EndsReading(t)
    ensures AtWork(Run(cf, INIT, ts))
  {
    KeepsReading(cf, INIT, ts);
  }

  /** How far the reader is from looking at the next record, when one is there. */
  function StepsToRecord(r: ReaderPc): nat {
    match r
    case Holding(_) => 5
    case AtCall => 4
    case Top => 3
    case Filling => 2
    case Polling => 1
    case _ => 0
  }

  /** And it gets to the next record, whatever it was doing, in a few of its own steps, once the
      kernel has some and the coalescer takes what the reader holds. */
  lemma {:induction false} GetsNext(cf: Config, s: State) returns (ts: seq<Step>)
    requires Kept(cf, s) && AtWork(s) && !s.reader.Unborn? && |s.raw.buf| < RAW_CAPACITY
    ensures CanRun(cf, s, ts) && |ts| <= StepsToRecord(s.reader) && Run(cf, s, ts).reader.Record?
    ensures forall t :: t in ts ==> t.Reader? && !EndsReading(t)
    decreases StepsToRecord(s.reader)
  {
    if s.reader.Record? {
      ts := [];
    } else {
      var poll: ReadStep := PollRead(1);
      var t := Reader(
        if s.reader.Holding? then Send else if s.reader.AtCall? then CallNext else if s.reader.Top? then CheckTop
        else if s.reader.Filling? then CheckFill else poll);
      StepKeeps(cf, s, t);
      WorkGoesOn(cf, s, t);
      var rest := [];
      if s.reader.Holding? {
        rest := FromCall(cf, Do(cf, s, t));
      } else {
        rest := GetsNext(cf, Do(cf, s, t));
      }
      ts := [t] + rest;
      assert ts[1..] == rest;
    }
  }

  lemma FromCall(cf: Config, s: State) returns (ts: seq<Step>)
    requires Kept(cf, s) && AtWork(s) && s.reader.AtCall?
    ensures CanRun(cf, s, ts) && |ts| <= 4 && Run(cf, s, ts).reader.Record?
    ensures forall t :: t in ts ==> t.Reader? && !EndsReading(t)
  {
    var a := Do(cf, s, Reader(CallNext));
    var b := Do(cf, a, Reader(CheckTop));
    if b.reader.Record? {
      ts := [Reader(CallNext), Reader(CheckTop)];
    } else {
      ts := [Reader(CallNext), Reader(CheckTop), Reader(CheckFill), Reader(PollRead(1))];
    }
  }

  // ---- the end ---------------------------------------------------------------------------

  /** After an error, a wake-up by Close or a latch that was seen. */
  lemma FailureStops(cf: Config, s: State, t: ReadStep)
    requires ReadEnabled(s, t) && (t.PollFails? || t.ReturnError? || t.PollWoken? || t.GiveUp?)
    ensures ReadDo(s, t).reader.ClosingRaw? && ReadDo(s, t).past == s.past
  {
  }

  /** Then next_event is never called again, nothing more is read, and rawCh is closed once. */
  lemma {:induction false} StoppedForGood(cf: Config, s: State, ts: seq<Step>)
    requires Kept(cf, s) && !MayCallNext(s.reader) && CanRun(cf, s, ts)
    ensures var r := Run(cf, s, ts);
      !MayCallNext(r.reader) && r.past.read == s.past.read && s.raw.closes <= r.raw.closes <= 1
    decreases |ts|
  {
    if ts != [] {
      StepKeeps(cf, s, ts[0]);
      StoppedForGood(cf, Do(cf, s, ts[0]), ts[1..]);
    }
  }

  // ---- records ------------------------------------------------------------------------------

  /** Records that a step gets from the kernel. */
  function Received(t: Step): nat {
    if t.Reader? && t.r.PollRead? then t.r.records else 0
  }

  /** Records that a step is done with: not reported, reported, an overflow, or an error. */
  function Handled(t: Step): nat {
    if t.Reader? && (t.r.SkipRecord? || t.r.ReturnEvent? || t.r.ReturnOverflow? || t.r.ReturnError?) then 1 else 0
  }

  function AllReceived(ts: seq<Step>): nat {
    if ts == [] then 0 else Received(ts[0]) + AllReceived(ts[1..])
  }

  function AllHandled(ts: seq<Step>): nat {
    if ts == [] then 0 else Handled(ts[0]) + AllHandled(ts[1..])
  }

  /** In the native buffer, or in next_event's hand. */
  function InHand(s: State): nat {
    s.buffered + if s.reader.Record? then 1 else 0
  }

  /** The buffer is only filled when it is empty. */
  predicate BufferKept(s: State) {
    s.reader.Filling? || s.reader.Polling? ==> s.buffered == 0
  }

  lemma StepRecords(cf: Config, s: State, t: Step)
    requires Kept(cf, s) && BufferKept(s) && Enabled(cf, s, t)
    ensures BufferKept(Do(cf, s, t)) && InHand(s) + Received(t) == Handled(t) + InHand(Do(cf, s, t))
  {
  }

  /** Over every run, each record that poll announced is handled once or still in hand. */
  lemma {:induction false} RecordsAreHandled(cf: Config, s: State, ts: seq<Step>)
    requires Kept(cf, s) && BufferKept(s) && CanRun(cf, s, ts)
    ensures InHand(s) + AllReceived(ts) == AllHandled(ts) + InHand(Run(cf, s, ts))
    decreases |ts|
  {
    if ts != [] {
      StepKeeps(cf, s, ts[0]);
      StepRecords(cf, s, ts[0]);
      RecordsAreHandled(cf, Do(cf, s, ts[0]), ts[1..]);
    }
  }
}
