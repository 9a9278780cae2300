/** Teardown safety over every run. */
module PipelineSafety {
  import opened Events
  import opened Batching
  import opened Pipeline

  // ---- what every step keeps ---------------------------------------------------

  /** How far Close has come, over all callers. */
  function Stage(o: Once): nat {
    match o
    case Free => 0
    case Running(_, at) => (
      match at
      case AtLatch => 1
      case AtWake => 2
      case AtCloseClosed => 3
      case AtAwaitDone => 4
      case AtDestroy => 5)
    case Finished => 6
  }

  predicate CloseKept(k: Closing, exited: bool) {
    && k.latched == (Stage(k.once) >= 2)
    && k.woken == (Stage(k.once) >= 3)
    && k.closed == B2N(Stage(k.once) >= 4)
    && (Stage(k.once) >= 5 ==> exited)
    && k.destroys == B2N(Stage(k.once) >= 6)
    && (k.returned != {} ==> k.once.Finished?)
  }

  predicate ReaderKept(s: State) {
    && s.raw.closes == B2N(s.reader.ClosingRlDone? || s.reader.Gone?)
    && s.rlDone == B2N(s.reader.Gone?)
    && (s.loop.Unstarted? <==> s.reader.Unborn?)
  }

  predicate LoopKept(s: State) {
    && s.events.closes == B2N(s.loop.ClosingDone? || s.loop.Exited?)
    && s.done == B2N(s.loop.Exited?)
    && (s.loop.ClosingEvents? || s.loop.ClosingDone? || s.loop.Exited? ==> s.reader.Gone?)
  }

  /** The loop has not begun its last flush. */
  predicate Looping(l: LoopPc) {
    l.Unstarted? || l.Select? || (l.Flushing? && !l.final)
  }

  /** coalesceLoop has returned. */
  predicate Ended(l: LoopPc) {
    l.Joining? || l.ClosingEvents? || l.ClosingDone? || l.Exited?
  }

  /** A batch that still absorbs and has not been drained. */
  predicate Filling(l: LoopPc, w: Work) {
    l.Select? && w.batch.Some? && !w.batch.value.drained
  }

  /** The timer runs exactly for a batch being filled; its deadline is set once, by
      the batch's first event. */
  predicate TimerKept(cf: Config, l: LoopPc, w: Work, now: int) {
    if Filling(l, w) then
      w.timer == Armed(w.openedAt + cf.window) || (w.timer.Ticked? && now >= w.openedAt + cf.window)
    else
      w.timer.Unset? || w.timer.Idle?
  }

  predicate WorkKept(cf: Config, l: LoopPc, w: Work, now: int, closed: nat) {
    && w.timerC == w.batch.Some?
    && (w.batch.Some? && w.batch.value.drained ==> w.batch.value.pending == map[])
    && (w.cut ==> closed == 1)
    && (l.Panicked? ==> w.cut)
    && (l.Flushing? ==> w.batch.Some? && w.batch.value.drained)
    && (l.Select? && w.batch.Some? ==> w.batch.value.drained == w.cut)
    && (l.Unstarted? ==> w.batch.None?)
    && (Looping(l) && w.cut ==> l.Select? && w.batch.Some?)
    && (Looping(l) ==> TimerKept(cf, l, w, now))
    && (Ended(l) ==> w.timer.Unset? || w.timer.Idle?)
  }

  predicate Kept(cf: Config, s: State) {
    && CloseKept(s.close, s.loop.Exited?)
    && ReaderKept(s)
    && LoopKept(s)
    && WorkKept(cf, s.loop, s.work, s.now, s.close.closed)
  }

  lemma CloseStepKeeps(cf: Config, s: State, t: CloseStep)
    requires Kept(cf, s) && CloseEnabled(s.close, s.done, t)
    ensures Kept(cf, s.(close := CloseDo(s.close, s.done, t)))
  {
  }

  lemma ReadStepKeeps(cf: Config, s: State, t: ReadStep)
    requires Kept(cf, s) && ReadEnabled(s, t)
    ensures Kept(cf, ReadDo(s, t))
  {
  }

  lemma TakeKeeps(cf: Config, s: State)
    requires Kept(cf, s) && s.loop.Select? && s.raw.buf != []
    ensures Kept(cf, TakeOne(cf, s))
  {
    var w := Opened(cf, s.work, s.now);
    var ev := s.raw.buf[0];
    if !Panics(w.batch.value, ev) {
      assert Absorb(w.batch.value, ev).drained == w.batch.value.drained;
      assert w.batch.value.drained ==> Absorb(w.batch.value, ev).pending == w.batch.value.pending;
    }
  }

  lemma LoopStepKeeps(cf: Config, s: State, t: LoopStep)
    requires Kept(cf, s) && LoopEnabled(cf, s, t)
    ensures Kept(cf, LoopDo(cf, s, t))
  {
    if t.Take? {
      TakeKeeps(cf, s);
    }
  }

  lemma StepKeeps(cf: Config, s: State, t: Step)
    requires Kept(cf, s) && Enabled(cf, s, t)
    ensures Kept(cf, Do(cf, s, t))
  {
    match t
    case Closer(k) => CloseStepKeeps(cf, s, k);
    case Reader(r) => ReadStepKeeps(cf, s, r);
    case Loop(l) => LoopStepKeeps(cf, s, l);
    case _ =>
  }

  lemma {:induction false} RunKeeps(cf: Config, s: State, ts: seq<Step>)
    requires Kept(cf, s) && CanRun(cf, s, ts)
    ensures Kept(cf, Run(cf, s, ts))
    decreases |ts|
  {
    if ts != [] {
      StepKeeps(cf, s, ts[0]);
      RunKeeps(cf, Do(cf, s, ts[0]), ts[1..]);
    }
  }

  lemma ReachableKept(cf: Config, s: State)
    requires Reachable(cf, s)
    ensures Kept(cf, s)
  {
    var ts :| CanRun(cf, INIT, ts) && Run(cf, INIT, ts) == s;
    RunKeeps(cf, INIT, ts);
  }

  // ---- the theorems ------------------------------------------------------------

  predicate IsNext(t: ReadStep) {
    !(t.Send? || t.GiveUp? || t.CloseRaw? || t.CloseRlDone?)
  }

  /** Uses the native watcher: next_event, close or destroy. */
  predicate TouchesNative(t: Step) {
    (t.Closer? && (t.k.Latch? || t.k.Wake? || t.k.Destroy?)) || (t.Reader? && IsNext(t.r))
  }

  /** In or can still enter next_event. */
  predicate MayCallNext(r: ReaderPc) {
    !r.ClosingRaw? && !r.ClosingRlDone? && !r.Gone?
  }

  /** The step closes no channel a second time and sends on none that is closed. */
  predicate ChannelsSafe(s: State, t: Step) {
    match t
    case Closer(k) => k.CloseClosed? ==> s.close.closed == 0
    case Reader(r) =>
      (r.Send? || r.CloseRaw? ==> s.raw.closes == 0) && (r.CloseRlDone? ==> s.rlDone == 0)
    case Loop(l) =>
      (l.Emit? || l.CloseEvents? ==> s.events.closes == 0) && (l.CloseDone? ==> s.done == 0)
    case _ => true
  }

  lemma LoopStepSafe(cf: Config, s: State, t: LoopStep)
    requires Kept(cf, s) && LoopEnabled(cf, s, t)
    ensures (t.Emit? || t.CloseEvents? ==> s.events.closes == 0) && (t.CloseDone? ==> s.done == 0)
  {
  }

  /** The native watcher is destroyed at most once, only after the reader is gone, and
      nothing uses it afterwards; no channel is closed twice or sent on after its close;
      when any Close returns, Events is closed and the watcher destroyed. */
  lemma TeardownIsSafe(cf: Config, s: State, t: Step)
    requires Reachable(cf, s) && Enabled(cf, s, t)
    ensures s.close.destroys <= 1
    ensures t == Closer(Destroy) ==> s.close.destroys == 0 && s.close.latched && s.reader.Gone?
    ensures s.close.destroys == 1 ==> !TouchesNative(t) && !MayCallNext(s.reader)
    ensures ChannelsSafe(s, t)
    ensures s.close.returned != {} ==> s.events.closes == 1 && s.done == 1 && s.close.destroys == 1
  {
    ReachableKept(cf, s);
    if t.Loop? {
      LoopStepSafe(cf, s, t.l);
    }
  }

  /** Once the latch is set, a next_event that is at its first check can only report
      that the watcher is closed; one parked in poll is woken as soon as Close has
      written the eventfd. */
  lemma NoMissedClose(cf: Config, s: State, t: ReadStep)
    requires Reachable(cf, s) && ReadEnabled(s, t) && Stage(s.close.once) >= 2
    ensures s.reader.Top? || s.reader.Filling? ==> ReadDo(s, t).reader.ClosingRaw?
    ensures s.reader.Polling? && Stage(s.close.once) >= 3 ==> ReadEnabled(s, PollWoken) && !ReadDo(s, t).reader.Record?
  {
    ReachableKept(cf, s);
  }

  lemma TimerStep(cf: Config, s: State, t: LoopStep)
    requires Kept(cf, s) && LoopEnabled(cf, s, t)
    ensures var r := LoopDo(cf, s, t).work;
      && (r.timer.Armed? && r.timer != s.work.timer ==>
            t.Take? && s.work.batch.None? && (s.work.timer.Unset? || s.work.timer.Idle?) && r.openedAt == s.now)
      && (s.work.batch.Some? && r.batch.Some? ==> r.openedAt == s.work.openedAt)
      && (t.Tick? ==> s.now >= s.work.openedAt + cf.window)
  {
  }

  /** timerC is non-nil exactly while a batch is open; the deadline is the time of the
      first event plus the window and does not move; the timer is armed only by the
      first event of a batch, when no tick is left unconsumed; no tick comes early, and none
      comes once the loop has returned. */
  lemma TimerFollowsBatch(cf: Config, s: State, t: LoopStep)
    requires Reachable(cf, s) && LoopEnabled(cf, s, t)
    ensures s.work.timerC == s.work.batch.Some?
    ensures Looping(s.loop) && s.work.timer.Armed? ==>
      s.work.timer.deadline == s.work.openedAt + cf.window && Filling(s.loop, s.work)
    ensures Filling(s.loop, s.work) ==> s.work.timer.Armed? || s.work.timer.Ticked?
    ensures Ended(s.loop) ==> !s.work.timer.Armed? && !s.work.timer.Ticked?
    ensures var r := LoopDo(cf, s, t).work;
      && (r.timer.Armed? && r.timer != s.work.timer ==>
            t.Take? && s.work.batch.None? && (s.work.timer.Unset? || s.work.timer.Idle?) && r.openedAt == s.now)
      && (s.work.batch.Some? && r.batch.Some? ==> r.openedAt == s.work.openedAt)
      && (t.Tick? ==> s.now >= s.work.openedAt + cf.window)
  {
    ReachableKept(cf, s);
    TimerStep(cf, s, t);
  }

  /** Taking an event panics exactly when a timer flush was cut short before, and the
      event takes part in pairing; a flush is only cut short once `closed` is closed. */
  lemma PanicNeedsCutFlush(cf: Config, s: State)
    requires Reachable(cf, s)
    ensures s.work.cut ==> s.close.closed == 1
    ensures s.loop.Panicked? ==> s.work.cut
    ensures s.loop.Select? && s.raw.buf != [] ==>
      (TakeOne(cf, s).loop.Panicked? <==> s.work.cut && Pairable(s.raw.buf[0]))
  {
    ReachableKept(cf, s);
  }
}
