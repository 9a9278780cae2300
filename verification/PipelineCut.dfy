/** What does happen after a timer flush is cut short by Close: two runs. */
module PipelineCut {
  import opened Events
  import opened Batching
  import opened Pipeline

  lemma {:induction false} RunThen(cf: Config, s: State, ts: seq<Step>, t: Step)
    requires CanRun(cf, s, ts) && Enabled(cf, Run(cf, s, ts), t)
    ensures CanRun(cf, s, ts + [t]) && Run(cf, s, ts + [t]) == Do(cf, Run(cf, s, ts), t)
    decreases |ts|
  {
    if ts == [] {
      assert CanRun(cf, Do(cf, s, t), [t][1..]);
    } else {
      assert (ts + [t])[1..] == ts[1..] + [t];
      RunThen(cf, Do(cf, s, ts[0]), ts[1..], t);
    }
  }

  lemma Then(cf: Config, s: State, t: Step) returns (r: State)
    requires Reachable(cf, s) && Enabled(cf, s, t)
    ensures Reachable(cf, r) && r == Do(cf, s, t)
  {
    var ts :| CanRun(cf, INIT, ts) && Run(cf, INIT, ts) == s;
    RunThen(cf, INIT, ts, t);
    r := Do(cf, s, t);
  }

  /** The reader fetches one record and passes it on. */
  lemma Reads(cf: Config, s: State, ev: RawEvent) returns (r: State)
    requires Reachable(cf, s) && s.reader.AtCall? && s.buffered == 0 && !s.close.latched && !s.close.woken
    requires !s.loop.Panicked? && |s.raw.buf| < RAW_CAPACITY
    ensures Reachable(cf, r)
    ensures r == s.(raw := s.raw.(buf := s.raw.buf + [ev]), past := s.past.(read := s.past.read + [ev]))
  {
    r := Then(cf, s, Reader(CallNext));
    r := Then(cf, r, Reader(CheckTop));
    r := Then(cf, r, Reader(CheckFill));
    r := Then(cf, r, Reader(PollRead(1)));
    r := Then(cf, r, Reader(ReturnEvent(ev)));
    r := Then(cf, r, Reader(Send));
  }

  // As on Linux: only a rename half carries an id.
  const A := RawEvent(MODIFIED, "a", 0)
  const B := RawEvent(MODIFIED, "b", 0)
  const C := RawEvent(RENAMED_OLD, "c", 7)
  const BOTH := Batch(map[], false, [ModifiedEntry("a"), ModifiedEntry("b")], map["a" := 0, "b" := 1])

  lemma BothAbsorbed()
    ensures Absorb(Absorb(EMPTY, A), B) == BOTH
  {
    var one := Absorb(EMPTY, A);
    assert one == Batch(map[], false, [ModifiedEntry("a")], map["a" := 0]);
    assert "b" !in one.lastModifiedAt;
    assert one.out + [ModifiedEntry("b")] == BOTH.out;
    assert one.lastModifiedAt["b" := 1] == BOTH.lastModifiedAt;
  }

  const COLLECTED := INIT.(reader := AtCall, loop := Select,
    work := Work(Some(BOTH), Armed(50), true, [A, B], 0, false, 0),
    past := History([A, B], [A, B], [], []))

  /** Both modifications are in the batch. */
  lemma Collects(cf: Config)
    requires cf == Config(1, 50)
    ensures Reachable(cf, COLLECTED)
  {
    assert CanRun(cf, INIT, []) && Run(cf, INIT, []) == INIT;
    var s0 := Then(cf, INIT, Loop(Spawn));
    var s1 := Reads(cf, s0, A);
    var s2 := Then(cf, s1, Loop(Take));
    assert s2.work == Work(Some(Absorb(EMPTY, A)), Armed(50), true, [A], 0, false, 0);
    assert s2.past == History([A], [A], [], []) && s2.raw == Chan([], 0);
    var s3 := Reads(cf, s2, B);
    var s4 := Then(cf, s3, Loop(Take));
    BothAbsorbed();
    assert [A] + [B] == [A, B];
    assert s4.work == COLLECTED.work && s4.past == COLLECTED.past && s4.raw == COLLECTED.raw;
  }

  const HALFWAY := INIT.(
    close := Closing(Running(0, AtAwaitDone), {}, {}, true, true, 1, 0),
    reader := AtCall, raw := Chan([C], 0),
    loop := Select, now := 50,
    work := Work(Some(BOTH.(drained := true)), Idle, true, [], 0, true, 1),
    events := Chan([ModifiedEntry("a")], 0),
    past := History([A, B, C], [A, B], [Segment([A, B], [], 0, 50, true)], []))

  const FLUSHING := HALFWAY.(
    close := INIT.close,
    loop := Flushing([ModifiedEntry("b")], false),
    work := HALFWAY.work.(cut := false, sentAtCut := 0))

  const DRAINED := HALFWAY.(
    close := INIT.close,
    raw := Chan([], 0), loop := Flushing(BOTH.out, false), events := Chan([], 0),
    work := HALFWAY.work.(cut := false, sentAtCut := 0),
    past := HALFWAY.past.(read := [A, B]))

  /** The tick drains the batch. */
  lemma Ticks(cf: Config)
    requires cf == Config(1, 50)
    ensures Reachable(cf, DRAINED)
  {
    Collects(cf);
    var s0 := Then(cf, COLLECTED, Advance(50));
    var s1 := Then(cf, s0, Fire);
    assert Drain(BOTH, []) == BOTH.(drained := true);
    var s2 := Then(cf, s1, Loop(Tick([])));
    assert s2.past.segments == [Segment([A, B], [], 0, 50, true)];
    assert s2 == DRAINED;
  }

  /** One of its entries fits the channel. */
  lemma Flushes(cf: Config)
    requires cf == Config(1, 50)
    ensures Reachable(cf, FLUSHING)
  {
    Ticks(cf);
    var s3 := Then(cf, DRAINED, Loop(Emit));
    assert BOTH.out[1..] == [ModifiedEntry("b")];
    var s4 := Reads(cf, s3, C);
    assert [A, B] + [C] == [A, B, C];
    assert s4 == FLUSHING;
  }

  /** Close cuts the flush short. */
  lemma CutsShort(cf: Config)
    requires cf == Config(1, 50)
    ensures Reachable(cf, HALFWAY)
  {
    Flushes(cf);
    var s0 := Then(cf, FLUSHING, Closer(Call(0)));
    var s1 := Then(cf, s0, Closer(Enter(0)));
    var s2 := Then(cf, s1, Closer(Latch));
    var s3 := Then(cf, s2, Closer(Wake));
    var s4 := Then(cf, s3, Closer(CloseClosed));
    assert s4.close == HALFWAY.close;
    var s5 := Then(cf, s4, Loop(Abandon));
    assert s5 == HALFWAY;
  }

  /** The drained batch is drained again: the first event is emitted a second time. */
  lemma CutFlushRepeats()
    ensures exists s ::
      && Reachable(Config(1, 50), s)
      && s.past.taken == [A, B]
      && s.past.delivered + s.events.buf == [ModifiedEntry("a"), ModifiedEntry("a")]
  {
    var cf := Config(1, 50);
    CutsShort(cf);
    var s := Then(cf, HALFWAY, Loop(SeeClosed([])));
    s := Then(cf, s, Receive);
    s := Then(cf, s, Loop(Emit));
    assert s.past.delivered + s.events.buf == [ModifiedEntry("a"), ModifiedEntry("a")];
  }

  /** A pairable event is absorbed into the drained batch: the coalescer panics. */
  lemma CutFlushPanics()
    ensures exists s :: Reachable(Config(1, 50), s) && s.loop.Panicked?
  {
    var cf := Config(1, 50);
    CutsShort(cf);
    var s := Then(cf, HALFWAY, Loop(Take));
  }
}
