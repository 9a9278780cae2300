/** The mutex and the condition variable of the macOS queue, step by step: the consumer tests
    and then waits, a callback or a Close writes and then signals. MacSpec takes each critical
    section as one step; here that is proved to be right, and no wake-up is lost. */
module MacHandshake {
  import opened Events
  import M = MacSpec

  /** What a producer does once it has the mutex. */
  datatype Job = Deliver(batch: seq<RawEvent>, over: bool) | Shut

  datatype Phase = Entered | Written | Leaving

  /** Who has the mutex; a consumer that `found` nothing is about to wait. */
  datatype Lock = Free | ByConsumer(found: bool) | ByProducer(job: Job, phase: Phase)

  /** `Relocking`: woken, but still without the mutex. */
  datatype Place = Outside | Locking | Inside | Waiting | Relocking

  /** `q` is the data under the mutex; who is parked is said by `at`, not by `q`. */
  datatype State = State(q: M.Queue, lock: Lock, at: Place)

  const START := State(M.OPENED, Free, Outside)

  datatype Step = Call | Acquire | Test | Wait | Spurious | Return(alloc: bool)
    | Enter(job: Job) | Write | Signal | Leave

  /** There is something to tell the consumer. */
  predicate News(q: M.Queue) {
    q.closing || q.overflow || q.items != []
  }

  predicate Can(s: State, t: Step) {
    match t
    case Call => s.at.Outside? && s.q.hand.None?
    case Acquire => (s.at.Locking? || s.at.Relocking?) && s.lock.Free?
    case Test => s.lock == ByConsumer(true)
    case Wait => s.lock == ByConsumer(false)
    case Spurious => s.at.Waiting?
    case Return(_) => s.at.Outside? && s.q.hand.Some?
    case Enter(_) => s.lock.Free?
    case Write => s.lock.ByProducer? && s.lock.phase.Entered?
    case Signal => s.lock.ByProducer? && s.lock.phase.Written?
    case Leave => s.lock.ByProducer? && s.lock.phase.Leaving?
  }

  /** The producer's writes. Nothing to tell, or too late: it does not signal. */
  function WriteNow(s: State, job: Job): State {
    match job
    case Shut => s.(q := M.Shut(s.q), lock := ByProducer(job, Written))
    case Deliver(batch, over) =>
      s.(q := M.Offer(s.q, batch, over),
         lock := ByProducer(job, if s.q.closing || (batch == [] && !over) then Leaving else Written))
  }

  function Do(s: State, t: Step): State
    requires Can(s, t)
  {
    match t
    case Call => s.(at := Locking)
    case Acquire => s.(at := Inside, lock := ByConsumer(true))
    case Test => if News(s.q) then s.(q := M.Take(s.q), at := Outside, lock := Free) else s.(lock := ByConsumer(false))
    case Wait => s.(at := Waiting, lock := Free)
    case Spurious => s.(at := Relocking)
    case Return(alloc) => s.(q := M.Finish(s.q, alloc))
    case Enter(job) => s.(lock := ByProducer(job, Entered))
    case Write => WriteNow(s, s.lock.job)
    case Signal => s.(at := if s.at.Waiting? then Relocking else s.at, lock := s.lock.(phase := Leaving))
    case Leave => s.(lock := Free)
  }

  predicate CanRun(s: State, ts: seq<Step>)
    decreases |ts|
  {
    ts == [] || (Can(s, ts[0]) && CanRun(Do(s, ts[0]), ts[1..]))
  }

  function Run(s: State, ts: seq<Step>): State
    requires CanRun(s, ts)
    decreases |ts|
  {
    if ts == [] then s else Run(Do(s, ts[0]), ts[1..])
  }

  /** What a step answers the consumer. */
  function AnsweredBy(s: State, t: Step): seq<M.Answer>
    requires Can(s, t)
  {
    match t
    case Test => if News(s.q) then M.TakeAnswer(s.q) else []
    case Wait => [M.Parked]
    case Return(alloc) => [M.FinishAnswer(s.q, alloc)]
    case _ => []
  }

  function Answers(s: State, ts: seq<Step>): seq<M.Answer>
    requires CanRun(s, ts)
    decreases |ts|
  {
    if ts == [] then [] else AnsweredBy(s, ts[0]) + Answers(Do(s, ts[0]), ts[1..])
  }

  // ---- what every step keeps ----------------------------------------------------------

  predicate AboutToSignal(l: Lock) {
    l.ByProducer? && l.phase.Written?
  }

  /** A consumer that waits, or is about to, has nothing to be told - or the one who wrote it
      still has the mutex and will signal. */
  predicate Kept(s: State) {
    && !s.q.parked
    && (s.at.Inside? <==> s.lock.ByConsumer?)
    && (!s.at.Outside? ==> s.q.hand.None?)
    && (s.lock == ByConsumer(false) ==> !News(s.q))
    && (s.at.Waiting? && News(s.q) ==> AboutToSignal(s.lock))
  }

  lemma StepKeeps(s: State, t: Step)
    requires Kept(s) && Can(s, t)
    ensures Kept(Do(s, t))
  {
  }

  lemma {:induction false} RunKeeps(s: State, ts: seq<Step>)
    requires Kept(s) && CanRun(s, ts)
    ensures Kept(Run(s, ts))
    decreases |ts|
  {
    if ts != [] {
      StepKeeps(s, ts[0]);
      RunKeeps(Do(s, ts[0]), ts[1..]);
    }
  }

  /** No wake-up is lost, over every run: what the consumer found when it tested still holds
      when it begins to wait, and while it waits there is nothing to tell it but what a
      producer is about to signal. */
  lemma NoLostWakeup(ts: seq<Step>)
    requires CanRun(START, ts)
    ensures var s := Run(START, ts);
      && (s.lock == ByConsumer(false) ==> !News(s.q))
      && (s.at.Waiting? && News(s.q) ==> Can(s, Signal) && Do(s, Signal).at.Relocking?)
  {
    RunKeeps(START, ts);
  }

  function StepsToAnswer(l: Lock): nat {
    match l
    case Free => 2
    case ByConsumer(_) => 1
    case ByProducer(_, phase) => if phase.Entered? then 5 else if phase.Written? then 4 else 3
  }

  /** Whenever there is something to tell and the consumer has called, it can be answered: by
      the steps of whoever has the mutex, and its own. */
  lemma Answered(s: State) returns (ts: seq<Step>)
    requires Kept(s) && !s.at.Outside? && News(s.q)
    ensures CanRun(s, ts) && |ts| <= StepsToAnswer(s.lock)
    ensures forall t :: t in ts ==> t.Write? || t.Signal? || t.Leave? || t.Acquire? || t.Test?
    ensures Run(s, ts).at.Outside?
    ensures s.q.closing ==> Answers(s, ts) == [M.Closed]
    decreases StepsToAnswer(s.lock)
  {
    var t := match s.lock
      case Free => Acquire
      case ByConsumer(_) => Test
      case ByProducer(_, phase) => if phase.Entered? then Write else if phase.Written? then Signal else Leave;
    var rest := [];
    StepKeeps(s, t);
    if t != Test {
      rest := Answered(Do(s, t));
    }
    ts := [t] + rest;
    assert ts[1..] == rest;
  }

  // ---- the critical sections as single steps ---------------------------------------------

  /** The queue as MacSpec sees it: parked, unless the signal is on its way. */
  function Abs(s: State): M.Queue {
    s.q.(parked := s.at.Waiting? && !AboutToSignal(s.lock))
  }

  function OpOf(s: State, t: Step): Option<M.Op> {
    match t
    case Test => if News(s.q) then Some(M.Pop) else None
    case Wait => Some(M.Pop)
    case Spurious => Some(M.Wakeup)
    case Return(alloc) => Some(M.Return(alloc))
    case Write =>
      if !s.lock.ByProducer? then None
      else if s.lock.job.Shut? then Some(M.Close)
      else Some(M.Callback(s.lock.job.batch, s.lock.job.over))
    case _ => None
  }

  /** Each step is an enabled step of MacSpec with the same answer, or changes nothing there. */
  lemma StepRefines(s: State, t: Step)
    requires Kept(s) && Can(s, t)
    ensures OpOf(s, t).None? ==> Abs(Do(s, t)) == Abs(s) && AnsweredBy(s, t) == []
    ensures OpOf(s, t).Some? ==>
      && M.Enabled(Abs(s), OpOf(s, t).value) && Abs(Do(s, t)) == M.Step(Abs(s), OpOf(s, t).value)
      && AnsweredBy(s, t) == M.AnsweredBy(Abs(s), OpOf(s, t).value)
  {
  }

  function Ops(s: State, ts: seq<Step>): seq<M.Op>
    requires CanRun(s, ts)
    decreases |ts|
  {
    if ts == [] then []
    else (if OpOf(s, ts[0]).Some? then [OpOf(s, ts[0]).value] else []) + Ops(Do(s, ts[0]), ts[1..])
  }

  /** So every run of the handshake is a run of MacSpec with the same answers, and its theorems hold of it. */
  lemma {:induction false} RunRefines(s: State, ts: seq<Step>)
    requires Kept(s) && CanRun(s, ts)
    ensures Abs(Run(s, ts)) == M.After(Abs(s), Ops(s, ts)) && Answers(s, ts) == M.Answers(Abs(s), Ops(s, ts))
    decreases |ts|
  {
    if ts != [] {
      var r := Do(s, ts[0]);
      StepKeeps(s, ts[0]);
      StepRefines(s, ts[0]);
      RunRefines(r, ts[1..]);
      if OpOf(s, ts[0]).Some? {
        assert ([OpOf(s, ts[0]).value] + Ops(r, ts[1..]))[1..] == Ops(r, ts[1..]);
      } else {
        assert [] + Ops(r, ts[1..]) == Ops(r, ts[1..]) && [] + Answers(r, ts[1..]) == Answers(r, ts[1..]);
      }
    }
  }

  // ---- a close ---------------------------------------------------------------------------

  lemma {:induction false} StaysClosing(s: State, ts: seq<Step>)
    requires s.q.closing && CanRun(s, ts)
    ensures Run(s, ts).q.closing
    decreases |ts|
  {
    if ts != [] {
      StaysClosing(Do(s, ts[0]), ts[1..]);
    }
  }

  /** From the moment a Close has written the latch, over every run: a consumer that tests is
      answered Closed, none begins to wait, one that waits is about to be woken, and one that
      has called can be answered - with Closed. */
  lemma CloseIsHeard(s: State, ts: seq<Step>)
    requires Kept(s) && s.lock.ByProducer? && s.lock.job.Shut? && Can(s, Write) && CanRun(Do(s, Write), ts)
    ensures var r := Run(Do(s, Write), ts);
      && (Can(r, Test) ==> AnsweredBy(r, Test) == [M.Closed] && Do(r, Test).at.Outside?)
      && !Can(r, Wait) && (r.at.Waiting? ==> Can(r, Signal))
      && (!r.at.Outside? ==> exists us :: CanRun(r, us) && Answers(r, us) == [M.Closed] && Run(r, us).at.Outside?)
  {
    var r := Run(Do(s, Write), ts);
    StepKeeps(s, Write);
    RunKeeps(Do(s, Write), ts);
    StaysClosing(Do(s, Write), ts);
    if !r.at.Outside? {
      var us := Answered(r);
    }
  }
}
