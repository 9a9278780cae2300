/** The watcher's goroutines, any number of Close callers, the native handshake and an
    arbitrary consumer, as one step relation. A step is one channel operation, one
    atomic access of the native watcher, or one iteration of local work. */
module Pipeline {
  import opened Events
  import opened Batching

  type Caller = nat

  // ---- state -------------------------------------------------------------------

  /** Where the caller that sync.Once let in stands inside its function. */
  datatype OwnerPc = AtLatch | AtWake | AtCloseClosed | AtAwaitDone | AtDestroy

  /** sync.Once: the first caller runs, the others wait until it has finished. */
  datatype Once = Free | Running(owner: Caller, at: OwnerPc) | Finished

  /** Close, with the native latch and eventfd it sets, the number of times it closed
      `closed`, and the number of times it destroyed the native watcher. */
  datatype Closing = Closing(
    once: Once, waiting: set<Caller>, returned: set<Caller>,
    latched: bool, woken: bool, closed: nat, destroys: nat)

  /** readLoop, with the native next_event call opened up: Top, Filling, Polling and
      Record are inside the call. */
  datatype ReaderPc =
    | Unborn | AtCall
    | Top | Filling | Polling | Record
    | Holding(ev: RawEvent)
    | ClosingRaw | ClosingRlDone | Gone

  /** run and coalesceLoop. `final` says that the loop returns after this flush. */
  datatype LoopPc =
    | Unstarted | Select
    | Flushing(todo: seq<Entry>, final: bool)
    | Joining | ClosingEvents | ClosingDone | Exited
    | Panicked

  /** Idle: the tick was consumed, or the timer was stopped. */
  datatype Timer = Unset | Armed(deadline: int) | Ticked | Idle

  /** A buffered channel and the number of times it was closed. */
  datatype Chan<T> = Chan(buf: seq<T>, closes: nat)

  /** coalesceLoop's variables, with the raw events absorbed since the last drain, the
      time the batch was opened, whether a timer flush was ever cut short, and how many
      entries had been emitted by then. */
  datatype Work = Work(
    batch: Option<Batch>, timer: Timer, timerC: bool,
    open: seq<RawEvent>, openedAt: int, cut: bool, sentAtCut: nat)

  /** One drained batch: its raw events and the order its map was enumerated in. */
  datatype Segment = Segment(raws: seq<RawEvent>, order: seq<Id>, openedAt: int, flushedAt: int, timed: bool)

  /** What next_event returned, what the loop took of it, the batches drained so far,
      and what the consumer got. */
  datatype History = History(
    read: seq<RawEvent>, taken: seq<RawEvent>, segments: seq<Segment>, delivered: seq<Entry>)

  /** `buffered`: whole records left in the native buffer. */
  datatype State = State(
    close: Closing,
    reader: ReaderPc, buffered: nat,
    raw: Chan<RawEvent>, rlDone: nat,
    loop: LoopPc, work: Work, now: int,
    events: Chan<Entry>, done: nat,
    past: History)

  datatype Config = Config(capacity: nat, window: int)

  const RAW_CAPACITY := 256

  const INIT := State(
    Closing(Free, {}, {}, false, false, 0, 0),
    Unborn, 0, Chan([], 0), 0,
    Unstarted, Work(None, Unset, false, [], 0, false, 0), 0,
    Chan([], 0), 0, History([], [], [], []))

  // ---- Close -------------------------------------------------------------------

  datatype CloseStep =
    Call(c: Caller) | Enter(c: Caller) | Latch | Wake | CloseClosed | SeeDone | Destroy | Skip(c: Caller)

  predicate OwnerAt(k: Closing, at: OwnerPc) {
    k.once.Running? && k.once.at == at
  }

  predicate CloseEnabled(k: Closing, done: nat, t: CloseStep) {
    match t
    case Call(c) => c !in k.waiting && c !in k.returned && !(k.once.Running? && k.once.owner == c)
    case Enter(c) => c in k.waiting && k.once.Free?
    case Latch => OwnerAt(k, AtLatch)
    case Wake => OwnerAt(k, AtWake)
    case CloseClosed => OwnerAt(k, AtCloseClosed)
    case SeeDone => OwnerAt(k, AtAwaitDone) && done > 0
    case Destroy => OwnerAt(k, AtDestroy)
    case Skip(c) => c in k.waiting && k.once.Finished?
  }

  function CloseDo(k: Closing, done: nat, t: CloseStep): Closing
    requires CloseEnabled(k, done, t)
  {
    match t
    case Call(c) => k.(waiting := k.waiting + {c})
    case Enter(c) => k.(once := Running(c, AtLatch), waiting := k.waiting - {c})
    case Latch => k.(latched := true, once := Running(k.once.owner, AtWake))
    case Wake => k.(woken := true, once := Running(k.once.owner, AtCloseClosed))
    case CloseClosed => k.(closed := k.closed + 1, once := Running(k.once.owner, AtAwaitDone))
    case SeeDone => k.(once := Running(k.once.owner, AtDestroy))
    case Destroy => k.(destroys := k.destroys + 1, once := Finished, returned := k.returned + {k.once.owner})
    case Skip(c) => k.(waiting := k.waiting - {c}, returned := k.returned + {c})
  }

  // ---- the reader --------------------------------------------------------------

  datatype ReadStep =
    | CallNext | CheckTop | CheckFill
    | PollWoken | PollRead(records: nat) | PollAgain | PollFails
    | SkipRecord | ReturnEvent(ev: RawEvent) | ReturnOverflow | ReturnError
    | Send | GiveUp | CloseRaw | CloseRlDone

  predicate ReadEnabled(s: State, t: ReadStep) {
    match t
    case CallNext => s.reader.AtCall?
    case CheckTop => s.reader.Top?
    case CheckFill => s.reader.Filling?
    case PollWoken => s.reader.Polling? && s.close.woken
    case PollRead(n) => s.reader.Polling? && !s.close.woken && n > 0
    case PollAgain => s.reader.Polling?
    case PollFails => s.reader.Polling?
    case SkipRecord => s.reader.Record?
    case ReturnEvent(_) => s.reader.Record?
    case ReturnOverflow => s.reader.Record?
    case ReturnError => s.reader.Record?
    case Send => s.reader.Holding? && |s.raw.buf| < RAW_CAPACITY
    case GiveUp => s.reader.Holding? && s.close.closed > 0
    case CloseRaw => s.reader.ClosingRaw?
    case CloseRlDone => s.reader.ClosingRlDone?
  }

  function ReadDo(s: State, t: ReadStep): State
    requires ReadEnabled(s, t)
  {
    match t
    case CallNext => s.(reader := Top)
    case CheckTop =>
      if s.close.latched then s.(reader := ClosingRaw)
      else if s.buffered == 0 then s.(reader := Filling)
      else s.(reader := Record, buffered := s.buffered - 1)
    case CheckFill => s.(reader := if s.close.latched then ClosingRaw else Polling)
    case PollWoken => s.(reader := ClosingRaw)
    case PollRead(n) => s.(reader := Record, buffered := n - 1)
    case PollAgain => s.(reader := Filling)
    case PollFails => s.(reader := ClosingRaw)
    case SkipRecord => s.(reader := Top)
    case ReturnEvent(ev) => s.(reader := Holding(ev), past := s.past.(read := s.past.read + [ev]))
    case ReturnOverflow => s.(reader := AtCall)
    case ReturnError => s.(reader := ClosingRaw)
    case Send => s.(reader := AtCall, raw := s.raw.(buf := s.raw.buf + [s.reader.ev]))
    case GiveUp => s.(reader := ClosingRaw)
    case CloseRaw => s.(reader := ClosingRlDone, raw := s.raw.(closes := s.raw.closes + 1))
    case CloseRlDone => s.(reader := Gone, rlDone := s.rlDone + 1)
  }

  // ---- the coalescer -----------------------------------------------------------

  datatype LoopStep =
    | Spawn | Take
    | SeeEnd(order: seq<Id>) | Tick(order: seq<Id>) | SeeClosed(order: seq<Id>)
    | Emit | Abandon | FlushDone
    | Join | CloseEvents | CloseDone

  ghost predicate CanFlush(w: Work, order: seq<Id>) {
    if w.batch.None? then order == [] else Enumerates(order, w.batch.value.pending.Keys)
  }

  ghost predicate LoopEnabled(cf: Config, s: State, t: LoopStep) {
    match t
    case Spawn => s.loop.Unstarted?
    case Take => s.loop.Select? && s.raw.buf != []
    case SeeEnd(order) => s.loop.Select? && s.raw.buf == [] && s.raw.closes > 0 && CanFlush(s.work, order)
    case Tick(order) => s.loop.Select? && s.work.timerC && s.work.timer.Ticked? && CanFlush(s.work, order)
    case SeeClosed(order) => s.loop.Select? && s.close.closed > 0 && CanFlush(s.work, order)
    case Emit => s.loop.Flushing? && s.loop.todo != [] && |s.events.buf| < cf.capacity
    case Abandon => s.loop.Flushing? && s.loop.todo != [] && s.close.closed > 0
    case FlushDone => s.loop.Flushing? && s.loop.todo == []
    case Join => s.loop.Joining? && s.rlDone > 0
    case CloseEvents => s.loop.ClosingEvents?
    case CloseDone => s.loop.ClosingDone?
  }

  /** The first event of a batch opens it and arms the timer. */
  function Opened(cf: Config, w: Work, now: int): Work {
    if w.batch.Some? then w
    else w.(batch := Some(EMPTY), timer := Armed(now + cf.window), timerC := true, openedAt := now)
  }

  function TakeOne(cf: Config, s: State): State
    requires s.raw.buf != []
  {
    var ev := s.raw.buf[0];
    var w := Opened(cf, s.work, s.now);
    var s1 := s.(raw := s.raw.(buf := s.raw.buf[1..]), past := s.past.(taken := s.past.taken + [ev]));
    if Panics(w.batch.value, ev) then s1.(work := w, loop := Panicked)
    else s1.(work := w.(batch := Some(Absorb(w.batch.value, ev)), open := w.open + [ev]))
  }

  /** coalesceLoop returns: its deferred function stops the timer. */
  function Leave(s: State): State {
    s.(loop := Joining, work := s.work.(timer := if s.work.timer.Unset? then Unset else Idle))
  }

  /** The start of flush: nothing to do without a batch, otherwise drain it. */
  ghost function StartFlush(s: State, order: seq<Id>, final: bool): State
    requires CanFlush(s.work, order)
  {
    if s.work.batch.None? then (if final then Leave(s) else s)
    else
      var b := s.work.batch.value;
      var d := Drain(b, order);
      var s1 := s.(loop := Flushing(d.out, final), work := s.work.(batch := Some(d)));
      if b.drained then s1
      else
        var seg := Segment(s.work.open, order, s.work.openedAt, s.now, !final);
        s1.(work := s1.work.(open := []), past := s.past.(segments := s.past.segments + [seg]))
  }

  ghost function LoopDo(cf: Config, s: State, t: LoopStep): State
    requires LoopEnabled(cf, s, t)
  {
    match t
    case Spawn => s.(loop := Select, reader := AtCall)
    case Take => TakeOne(cf, s)
    case SeeEnd(order) => StartFlush(s, order, true)
    case Tick(order) => StartFlush(s.(work := s.work.(timer := Idle)), order, false)
    case SeeClosed(order) => StartFlush(s, order, true)
    case Emit =>
      s.(loop := Flushing(s.loop.todo[1..], s.loop.final),
         events := s.events.(buf := s.events.buf + [s.loop.todo[0]]))
    case Abandon =>
      if s.loop.final then Leave(s) else s.(loop := Select, work := s.work.(cut := true, sentAtCut := |s.past.delivered| + |s.events.buf|))
    case FlushDone =>
      var s1 := s.(loop := Select, work := s.work.(batch := None, timerC := false));
      if s.loop.final then Leave(s1) else s1
    case Join => s.(loop := ClosingEvents)
    case CloseEvents => s.(loop := ClosingDone, events := s.events.(closes := s.events.closes + 1))
    case CloseDone => s.(loop := Exited, done := s.done + 1)
  }

  // ---- all together ------------------------------------------------------------

  datatype Step =
    | Closer(k: CloseStep)
    | Reader(r: ReadStep)
    | Loop(l: LoopStep)
    | Fire
    // the surroundings: time passes, the consumer receives
    | Advance(dt: nat)
    | Receive

  /** A panic ends the process: nothing is enabled after it. */
  ghost predicate Enabled(cf: Config, s: State, t: Step) {
    && !s.loop.Panicked?
    && match t
       case Closer(k) => CloseEnabled(s.close, s.done, k)
       case Reader(r) => ReadEnabled(s, r)
       case Loop(l) => LoopEnabled(cf, s, l)
       case Fire => s.work.timer.Armed? && s.now >= s.work.timer.deadline
       case Advance(_) => true
       case Receive => s.events.buf != []
  }

  ghost function Do(cf: Config, s: State, t: Step): State
    requires Enabled(cf, s, t)
  {
    match t
    case Closer(k) => s.(close := CloseDo(s.close, s.done, k))
    case Reader(r) => ReadDo(s, r)
    case Loop(l) => LoopDo(cf, s, l)
    case Fire => s.(work := s.work.(timer := Ticked))
    case Advance(dt) => s.(now := s.now + dt)
    case Receive =>
      s.(events := s.events.(buf := s.events.buf[1..]),
         past := s.past.(delivered := s.past.delivered + [s.events.buf[0]]))
  }

  ghost predicate CanRun(cf: Config, s: State, ts: seq<Step>)
    decreases |ts|
  {
    ts == [] || (Enabled(cf, s, ts[0]) && CanRun(cf, Do(cf, s, ts[0]), ts[1..]))
  }

  ghost function Run(cf: Config, s: State, ts: seq<Step>): State
    requires CanRun(cf, s, ts)
    decreases |ts|
  {
    if ts == [] then s else Run(cf, Do(cf, s, ts[0]), ts[1..])
  }

  /** Some run of the watcher, from NewWatcher on, leads to `s`. */
  ghost predicate Reachable(cf: Config, s: State) {
    exists ts :: CanRun(cf, INIT, ts) && Run(cf, INIT, ts) == s
  }
}
