/** What the consumer gets once a timer flush was cut short. */
module PipelineAfterCut {
  import opened Events
  import opened Batching
  import opened Pipeline
  import opened PipelineSafety
  import opened PipelineStream

  // ---- the specification -------------------------------------------------------

  predicate NonePairs(evs: seq<RawEvent>) {
    forall ev :: ev in evs ==> !Pairable(ev)
  }

  /** A drained batch that goes on absorbing: what pairs would panic, the rest is
      appended to `out`. */
  function Resumed(b: Batch, more: seq<RawEvent>): (r: Batch)
    requires b.drained && NonePairs(more)
    ensures r.drained && r.pending == b.pending && b.out <= r.out
  {
    if more == [] then b
    else Absorb(Resumed(b, more[..|more| - 1]), more[|more| - 1])
  }

  ghost function DrainOf(cf: Config, g: Segment): (b: Batch)
    requires WellDrained(cf, g)
    ensures b.drained
  {
    Drain(AbsorbAll(g.raws), g.order)
  }

  ghost predicate SomeDrained(cf: Config, gs: seq<Segment>) {
    gs != [] && AllDrained(cf, gs)
  }

  /** The batch of the last segment. */
  ghost function LastBatch(cf: Config, gs: seq<Segment>): (b: Batch)
    requires SomeDrained(cf, gs)
    ensures b.drained
  {
    DrainOf(cf, gs[|gs| - 1])
  }

  lemma LastSplits(cf: Config, gs: seq<Segment>)
    requires SomeDrained(cf, gs)
    ensures Outputs(cf, gs) == Outputs(cf, gs[..|gs| - 1]) + LastBatch(cf, gs).out
  {
  }

  // ---- what every step keeps ---------------------------------------------------

  function Sent(s: State): seq<Entry> {
    s.past.delivered + s.events.buf
  }

  /** While a batch is being flushed it is the last segment's, and no more of it is left
      than there was. */
  ghost predicate FlushKept(cf: Config, s: State) {
    !s.work.cut && s.loop.Flushing? ==>
      && SomeDrained(cf, s.past.segments)
      && s.work.batch == Some(LastBatch(cf, s.past.segments))
      && |s.loop.todo| <= |LastBatch(cf, s.past.segments).out|
  }

  /** `head` was emitted before the cut, and of `again` what has been emitted since. */
  predicate SentAgain(l: LoopPc, sent: seq<Entry>, head: seq<Entry>, again: seq<Entry>) {
    && head <= sent
    && (if Looping(l) || l.Panicked? then sent == head
        else if l.Flushing? then sent + l.todo == head + again
        else sent <= head + again)
  }

  /** The cut fell inside the last segment's output. */
  ghost predicate CutInside(cf: Config, gs: seq<Segment>, k: nat)
    requires SomeDrained(cf, gs)
  {
    |Outputs(cf, gs[..|gs| - 1])| <= k < |Outputs(cf, gs)|
  }

  /** The kept batch and the account of the raw events. */
  ghost predicate BatchResumed(cf: Config, s: State)
    requires SomeDrained(cf, s.past.segments)
  {
    && NonePairs(s.work.open)
    && (s.work.batch.Some? ==> s.work.batch.value == Resumed(LastBatch(cf, s.past.segments), s.work.open))
    && Raws(s.past.segments) + s.work.open <= s.past.taken
    && (!s.loop.Panicked? ==> Raws(s.past.segments) + s.work.open == s.past.taken)
  }

  /** Everything the kept batch has to offer. */
  ghost function Again(cf: Config, s: State): seq<Entry>
    requires SomeDrained(cf, s.past.segments) && NonePairs(s.work.open)
  {
    Resumed(LastBatch(cf, s.past.segments), s.work.open).out
  }

  ghost predicate CutKept(cf: Config, s: State) {
    s.work.cut ==>
      && SomeDrained(cf, s.past.segments)
      && CutInside(cf, s.past.segments, s.work.sentAtCut)
      && BatchResumed(cf, s)
      && SentAgain(s.loop, Sent(s), Outputs(cf, s.past.segments)[..s.work.sentAtCut], Again(cf, s))
  }

  ghost predicate AllKept(cf: Config, s: State) {
    StreamKept(cf, s) && FlushKept(cf, s) && CutKept(cf, s)
  }

  // ---- before the cut ----------------------------------------------------------

  lemma FlushBegins(cf: Config, s: State, order: seq<Id>, t: LoopStep)
    requires AllKept(cf, s) && LoopEnabled(cf, s, t) && !s.work.cut
    requires t == SeeEnd(order) || t == Tick(order) || t == SeeClosed(order)
    ensures FlushKept(cf, LoopDo(cf, s, t)) && !LoopDo(cf, s, t).work.cut
  {
    if s.work.batch.Some? {
      FlushAppends(cf, s, order, t);
      FlushStream(cf, s, order, t);
      var gs, g := s.past.segments, Drained(s, order, t.Tick?);
      assert (gs + [g])[|gs|] == g;
    }
  }

  /** The flush is cut: the batch stays, and what it has left was not emitted. */
  lemma Cuts(cf: Config, s: State)
    requires AllKept(cf, s) && LoopEnabled(cf, s, Abandon) && !s.work.cut && !s.loop.final
    ensures CutKept(cf, LoopDo(cf, s, Abandon))
  {
    var gs := s.past.segments;
    LastSplits(cf, gs);
    assert Sent(s) + s.loop.todo == Outputs(cf, gs);
    assert Outputs(cf, gs)[..|Sent(s)|] == Sent(s);
    assert Raws(gs) + [] == Raws(gs);
  }

  // ---- after the cut -----------------------------------------------------------

  lemma TakesAfter(cf: Config, s: State)
    requires AllKept(cf, s) && s.work.cut && s.loop.Select? && s.raw.buf != []
    ensures CutKept(cf, TakeOne(cf, s))
  {
    var ev, open := s.raw.buf[0], s.work.open;
    assert Opened(cf, s.work, s.now) == s.work;
    assert s.past.taken <= s.past.taken + [ev];
    if !Pairable(ev) {
      assert (open + [ev])[..|open|] == open;
      assert forall e :: e in open + [ev] ==> e in open || e == ev;
      Assoc(Raws(s.past.segments), open, [ev]);
    }
  }

  lemma FlushesAfter(cf: Config, s: State, order: seq<Id>, t: LoopStep)
    requires AllKept(cf, s) && s.work.cut && LoopEnabled(cf, s, t)
    requires t == SeeEnd(order) || t == Tick(order) || t == SeeClosed(order)
    ensures CutKept(cf, LoopDo(cf, s, t))
  {
    var b := s.work.batch.value;
    EnumerationLength(order, b.pending.Keys);
    assert Drain(b, order) == b;
  }

  lemma EmitsAfter(cf: Config, s: State)
    requires AllKept(cf, s) && s.work.cut && LoopEnabled(cf, s, Emit)
    ensures CutKept(cf, LoopDo(cf, s, Emit))
  {
    Shift(Sent(s), s.loop.todo, []);
    assert s.past.delivered + (s.events.buf + [s.loop.todo[0]]) == Sent(s) + [s.loop.todo[0]];
  }

  lemma StopsAfter(cf: Config, s: State, t: LoopStep)
    requires AllKept(cf, s) && s.work.cut && LoopEnabled(cf, s, t) && (t.Abandon? || t.FlushDone?)
    ensures CutKept(cf, LoopDo(cf, s, t))
  {
    assert Sent(s) + [] == Sent(s) && Sent(s) <= Sent(s) + s.loop.todo;
  }

  // ---- runs --------------------------------------------------------------------

  lemma LoopStepBefore(cf: Config, s: State, t: LoopStep)
    requires AllKept(cf, s) && LoopEnabled(cf, s, t) && !s.work.cut
    ensures FlushKept(cf, LoopDo(cf, s, t)) && CutKept(cf, LoopDo(cf, s, t))
  {
    if t.SeeEnd? || t.Tick? || t.SeeClosed? {
      FlushBegins(cf, s, t.order, t);
    } else if t.Abandon? && !s.loop.final {
      Cuts(cf, s);
    }
  }

  lemma LoopStepAfter(cf: Config, s: State, t: LoopStep)
    requires AllKept(cf, s) && LoopEnabled(cf, s, t) && s.work.cut
    ensures FlushKept(cf, LoopDo(cf, s, t)) && CutKept(cf, LoopDo(cf, s, t))
  {
    if t.Take? {
      TakesAfter(cf, s);
    } else if t.SeeEnd? || t.Tick? || t.SeeClosed? {
      FlushesAfter(cf, s, t.order, t);
    } else if t.Emit? {
      EmitsAfter(cf, s);
    } else if t.Abandon? || t.FlushDone? {
      StopsAfter(cf, s, t);
    }
  }

  lemma ReadStepAll(cf: Config, s: State, t: ReadStep)
    requires AllKept(cf, s) && ReadEnabled(s, t)
    ensures FlushKept(cf, ReadDo(s, t)) && CutKept(cf, ReadDo(s, t))
  {
    Unaffected(cf, s, ReadDo(s, t));
  }

  lemma Unaffected(cf: Config, s: State, r: State)
    requires AllKept(cf, s) && r.work == s.work && r.loop == s.loop && r.events == s.events
    requires r.past == s.past.(read := r.past.read)
    ensures FlushKept(cf, r) && CutKept(cf, r)
  {
  }

  lemma ReceiveAll(cf: Config, s: State)
    requires AllKept(cf, s) && Enabled(cf, s, Receive)
    ensures FlushKept(cf, Do(cf, s, Receive)) && CutKept(cf, Do(cf, s, Receive))
  {
    Shift(s.past.delivered, s.events.buf, []);
  }

  lemma StepAll(cf: Config, s: State, t: Step)
    requires AllKept(cf, s) && Enabled(cf, s, t)
    ensures AllKept(cf, Do(cf, s, t))
  {
    StepStream(cf, s, t);
    match t
    case Loop(l) =>
      if s.work.cut {
        LoopStepAfter(cf, s, l);
      } else {
        LoopStepBefore(cf, s, l);
      }
    case Reader(r) => ReadStepAll(cf, s, r);
    case Receive => ReceiveAll(cf, s);
    case _ =>
  }

  lemma {:induction false} RunAll(cf: Config, s: State, ts: seq<Step>)
    requires AllKept(cf, s) && CanRun(cf, s, ts)
    ensures AllKept(cf, Run(cf, s, ts))
    decreases |ts|
  {
    if ts != [] {
      StepAll(cf, s, ts[0]);
      RunAll(cf, Do(cf, s, ts[0]), ts[1..]);
    }
  }

  lemma ReachableAll(cf: Config, s: State)
    requires Reachable(cf, s)
    ensures AllKept(cf, s)
  {
    var ts :| CanRun(cf, INIT, ts) && Run(cf, INIT, ts) == s;
    RunAll(cf, INIT, ts);
  }

  // ---- the theorem -------------------------------------------------------------

  /** After a cut the stream is determined: what had been emitted up to a point inside the
      last segment's output, and then the kept batch's output from its start again - the
      last segment's output, followed by what was absorbed since. The raw events are all
      accounted for, but for one that made the coalescer panic. */
  lemma CutFlushStartsOver(cf: Config, s: State)
    requires Reachable(cf, s) && s.work.cut
    ensures SomeDrained(cf, s.past.segments) && NonePairs(s.work.open)
    ensures CutInside(cf, s.past.segments, s.work.sentAtCut) && s.work.sentAtCut <= |Sent(s)|
    ensures var k := s.work.sentAtCut;
      && Sent(s) == Outputs(cf, s.past.segments)[..k] + Sent(s)[k..]
      && Sent(s)[k..] <= Again(cf, s)
      && (s.loop.Flushing? ==> Sent(s)[k..] + s.loop.todo == Again(cf, s))
    ensures LastBatch(cf, s.past.segments).out <= Again(cf, s)
    ensures s.work.batch.Some? ==> s.work.batch.value.out == Again(cf, s)
    ensures !s.loop.Panicked? ==> Raws(s.past.segments) + s.work.open == s.past.taken
  {
    ReachableAll(cf, s);
    var head := Outputs(cf, s.past.segments)[..s.work.sentAtCut];
    assert Sent(s) == head + Sent(s)[|head|..];
    if s.loop.Flushing? {
      assert Sent(s) + s.loop.todo == head + (Sent(s)[|head|..] + s.loop.todo);
      SameTail(head, Sent(s)[|head|..] + s.loop.todo, Again(cf, s));
    } else if !Looping(s.loop) && !s.loop.Panicked? {
      PrefixTail(head, Sent(s), Again(cf, s));
    }
  }

  lemma SameTail<T>(a: seq<T>, b: seq<T>, c: seq<T>)
    requires a + b == a + c
    ensures b == c
  {
    assert b == (a + b)[|a|..] && c == (a + c)[|a|..];
  }

  lemma PrefixTail<T>(a: seq<T>, b: seq<T>, c: seq<T>)
    requires a <= b <= a + c
    ensures b[|a|..] <= c
  {
    assert b == (a + c)[..|b|] == a + c[..|b| - |a|];
  }

  /** How much of the last segment had been emitted when its flush was cut. */
  ghost function Before(cf: Config, s: State): int
    requires SomeDrained(cf, s.past.segments)
  {
    s.work.sentAtCut - |Outputs(cf, s.past.segments[..|s.past.segments| - 1])|
  }

  /** So after a cut the stream is still a prefix of the drains exactly when what was
      emitted since is no longer than what was left, and looks the same although it starts
      over: always when nothing has been emitted since, and when the cut came before the
      segment's first entry. */
  lemma BatchwiseAfterCut(cf: Config, s: State)
    requires Reachable(cf, s) && s.work.cut
    ensures SomeDrained(cf, s.past.segments)
    ensures var out, j, n := LastBatch(cf, s.past.segments).out, Before(cf, s), |Sent(s)| - s.work.sentAtCut;
      && 0 <= j < |out| && 0 <= n
      && (Sent(s) <= Outputs(cf, s.past.segments) <==>
            j + n <= |out| && forall i :: 0 <= i < n ==> out[j + i] == out[i])
  {
    CutFlushStartsOver(cf, s);
    var gs, k, sent := s.past.segments, s.work.sentAtCut, Sent(s);
    var all, out, front := Outputs(cf, gs), LastBatch(cf, gs).out, Outputs(cf, gs[..|gs| - 1]);
    LastSplits(cf, gs);
    var extra, again := sent[k..], Again(cf, s);
    StartsOver(front, out, sent, k, again);
  }

  lemma StartsOver<T>(front: seq<T>, out: seq<T>, sent: seq<T>, k: nat, again: seq<T>)
    requires |front| <= k < |front| + |out| && k <= |sent|
    requires sent[..k] == (front + out)[..k] && sent[k..] <= again && out <= again
    ensures sent <= front + out <==>
      |sent| - |front| <= |out| && forall i :: 0 <= i < |sent| - k ==> out[k - |front| + i] == out[i]
  {
    var left, extra := out[k - |front|..], sent[k..];
    assert front + out == sent[..k] + left && sent == sent[..k] + extra;
    SameStart(sent[..k], extra, left);
    if |extra| <= |left| {
      assert forall i :: 0 <= i < |extra| ==> extra[i] == again[i] == out[i];
      assert forall i :: 0 <= i < |extra| ==> left[i] == out[k - |front| + i];
    }
  }

  lemma SameStart<T>(a: seq<T>, b: seq<T>, c: seq<T>)
    ensures a + b <= a + c <==> b <= c
  {
    if a + b <= a + c {
      PrefixTail(a, a + b, c);
      assert (a + b)[|a|..] == b;
    }
  }
}
