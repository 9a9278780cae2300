/** Replaying the whole stream the consumer gets against replaying all the raw events: the
    segments of the pipeline, one after the other, each with sharing of paths. */
module StreamNetEffect {
  import opened Events
  import opened Batching
  import opened EmissionLog
  import opened NetEffect
  import opened Sharing
  import opened Pipeline
  import opened PipelineStream

  // ---- both sides --------------------------------------------------------------------

  function ReplayEntries(present: set<Path>, out: seq<Entry>): set<Path> {
    if out == [] then present
    else NetEffect.Apply(ReplayEntries(present, out[..|out| - 1]), out[|out| - 1].fe)
  }

  lemma {:induction false} EntriesConcat(present: set<Path>, a: seq<Entry>, b: seq<Entry>)
    ensures ReplayEntries(present, a + b) == ReplayEntries(ReplayEntries(present, a), b)
  {
    if b == [] {
      assert a + b == a;
    } else {
      assert (a + b)[..|a + b| - 1] == a + b[..|b| - 1];
      EntriesConcat(present, a, b[..|b| - 1]);
    }
  }

  lemma {:induction false} EntriesAreLog(present: set<Path>, log: seq<Logged>)
    ensures ReplayEntries(present, Erase(log)) == Replay(present, log)
  {
    if log != [] {
      var front := log[..|log| - 1];
      assert Erase(log)[..|log| - 1] == Erase(front);
      EntriesAreLog(present, front);
    }
  }

  /** The raw events of the segments, read with mates within each segment, or literally. */
  function StreamTruth(present: set<Path>, gs: seq<Segment>, mates: bool): set<Path> {
    if gs == [] then present
    else Truth(StreamTruth(present, gs[..|gs| - 1], mates), gs[|gs| - 1].raws, mates)
  }

  lemma {:induction false} RawConcat(present: set<Path>, a: seq<RawEvent>, b: seq<RawEvent>)
    ensures ReplayRaw(present, a + b) == ReplayRaw(ReplayRaw(present, a), b)
  {
    if b == [] {
      assert a + b == a;
    } else {
      assert (a + b)[..|a + b| - 1] == a + b[..|b| - 1];
      RawConcat(present, a, b[..|b| - 1]);
    }
  }

  /** Read literally, how the stream was cut into segments makes no difference. */
  lemma {:induction false} LiteralTruth(present: set<Path>, gs: seq<Segment>)
    ensures StreamTruth(present, gs, false) == ReplayRaw(present, Raws(gs))
  {
    if gs != [] {
      var front, last := gs[..|gs| - 1], gs[|gs| - 1];
      LiteralTruth(present, front);
      RawConcat(present, Raws(front), last.raws);
    }
  }

  // ---- the condition -------------------------------------------------------------------

  predicate Mentions(g: Segment, path: Path) {
    LastAbout(g.raws, path) >= 0
  }

  /** The last segment with an event about `path` keeps the last word about it. */
  ghost predicate StreamKeepsAt(gs: seq<Segment>, mates: bool, path: Path) {
    gs != [] ==>
      if Mentions(gs[|gs| - 1], path) then LastWordKeptAt(gs[|gs| - 1].raws, mates, path)
      else StreamKeepsAt(gs[..|gs| - 1], mates, path)
  }

  ghost predicate StreamKeeps(gs: seq<Segment>, mates: bool) {
    forall path :: StreamKeepsAt(gs, mates, path)
  }

  /** In particular when every segment keeps its last words. */
  lemma {:induction false} SegmentsKeepAt(gs: seq<Segment>, mates: bool, path: Path)
    requires forall g :: g in gs ==> LastWordKept(g.raws, mates)
    ensures StreamKeepsAt(gs, mates, path)
  {
    if gs != [] {
      assert gs[|gs| - 1] in gs && forall g :: g in gs[..|gs| - 1] ==> g in gs;
      SegmentsKeepAt(gs[..|gs| - 1], mates, path);
    }
  }

  /** The same segments, but for the orders in which the final ranges went. */
  ghost predicate SameRaws(gs: seq<Segment>, hs: seq<Segment>) {
    |gs| == |hs| && forall i :: 0 <= i < |gs| ==> hs[i].raws == gs[i].raws
  }

  // ---- one segment more ------------------------------------------------------------------

  lemma LastOutputs(cf: Config, gs: seq<Segment>, present: set<Path>)
    requires AllDrained(cf, gs) && gs != []
    ensures var front, last := gs[..|gs| - 1], gs[|gs| - 1];
      && WellDrained(cf, last) && AllDrained(cf, front)
      && ReplayEntries(present, Outputs(cf, gs)) ==
           Replay(ReplayEntries(present, Outputs(cf, front)), FullLog(last.raws, last.order))
  {
    var front, g := gs[..|gs| - 1], gs[|gs| - 1];
    assert g in gs && WellDrained(cf, g);
    LogIsOutput(g.raws, g.order);
    EntriesConcat(present, Outputs(cf, front), Drain(AbsorbAll(g.raws), g.order).out);
    EntriesAreLog(ReplayEntries(present, Outputs(cf, front)), FullLog(g.raws, g.order));
  }

  /** What is there before matters only for paths the events do not mention. */
  lemma TruthForgets(s: seq<RawEvent>, p: set<Path>, q: set<Path>, mates: bool, path: Path)
    requires LastAbout(s, path) >= 0 || (path in p <==> path in q)
    ensures path in Truth(p, s, mates) <==> path in Truth(q, s, mates)
  {
    TruthAtPath(p, s, mates, path);
    TruthAtPath(q, s, mates, path);
  }

  lemma Unmentioned(s: seq<RawEvent>, mates: bool, path: Path)
    requires LastAbout(s, path) < 0
    ensures LastWordKeptAt(s, mates, path)
  {
    forall i: nat | MayComeLast(s, i, path)
      ensures false
    {
      LastAboutIs(s, i, path);
    }
  }

  // ---- the theorem -----------------------------------------------------------------------

  lemma {:induction false} StreamAgreesAt(cf: Config, gs: seq<Segment>, present: set<Path>, mates: bool, path: Path)
    requires AllDrained(cf, gs) && StreamKeepsAt(gs, mates, path)
    ensures path in ReplayEntries(present, Outputs(cf, gs)) <==> path in StreamTruth(present, gs, mates)
  {
    if gs != [] {
      var front, g := gs[..|gs| - 1], gs[|gs| - 1];
      LastOutputs(cf, gs, present);
      var p, q := ReplayEntries(present, Outputs(cf, front)), StreamTruth(present, front, mates);
      if !Mentions(g, path) {
        StreamAgreesAt(cf, front, present, mates, path);
        Unmentioned(g.raws, mates, path);
      }
      AgreesAtPath(g.raws, g.order, p, mates, path);
      TruthForgets(g.raws, p, q, mates, path);
    }
  }

  lemma Reordered(cf: Config, gs: seq<Segment>, front: seq<Segment>, g: Segment)
    requires gs != [] && AllDrained(cf, front) && WellDrained(cf, g)
    requires SameRaws(gs[..|gs| - 1], front) && g.raws == gs[|gs| - 1].raws
    ensures AllDrained(cf, front + [g]) && SameRaws(gs, front + [g])
    ensures (front + [g])[..|front|] == front
  {
  }

  lemma LastDisagrees(cf: Config, gs: seq<Segment>, present: set<Path>, mates: bool, path: Path)
    returns (hs: seq<Segment>)
    requires AllDrained(cf, gs) && gs != []
    requires var g := gs[|gs| - 1]; Mentions(g, path) && !LastWordKeptAt(g.raws, mates, path)
    ensures SameRaws(gs, hs) && AllDrained(cf, hs)
    ensures path in ReplayEntries(present, Outputs(cf, hs)) <==> path !in StreamTruth(present, gs, mates)
  {
    var front, g := gs[..|gs| - 1], gs[|gs| - 1];
    LastOutputs(cf, gs, present);
    var p := ReplayEntries(present, Outputs(cf, front));
    var i: nat :| MayComeLast(g.raws, i, path) && Adds(g.raws, i, true) != LastArrivalAdds(g.raws, path, mates);
    var order := DisagreesAtPath(g.raws, p, mates, i, path);
    Reordered(cf, gs, front, g.(order := order));
    hs := front + [g.(order := order)];
    LastOutputs(cf, hs, present);
    TruthForgets(g.raws, p, StreamTruth(present, front, mates), mates, path);
  }

  lemma DisagreesOn(cf: Config, gs: seq<Segment>, rest: seq<Segment>, present: set<Path>, mates: bool, path: Path)
    returns (hs: seq<Segment>)
    requires AllDrained(cf, gs) && gs != [] && !Mentions(gs[|gs| - 1], path)
    requires AllDrained(cf, rest) && SameRaws(gs[..|gs| - 1], rest)
    requires path in ReplayEntries(present, Outputs(cf, rest)) <==> path !in StreamTruth(present, gs[..|gs| - 1], mates)
    ensures SameRaws(gs, hs) && AllDrained(cf, hs)
    ensures path in ReplayEntries(present, Outputs(cf, hs)) <==> path !in StreamTruth(present, gs, mates)
  {
    var g := gs[|gs| - 1];
    LastOutputs(cf, gs, present);
    Reordered(cf, gs, rest, g);
    hs := rest + [g];
    LastOutputs(cf, hs, present);
    var p := ReplayEntries(present, Outputs(cf, rest));
    Unmentioned(g.raws, mates, path);
    AgreesAtPath(g.raws, g.order, p, mates, path);
    TruthAtPath(p, g.raws, mates, path);
    TruthAtPath(StreamTruth(present, gs[..|gs| - 1], mates), g.raws, mates, path);
  }

  /** Where the condition fails, some order of a final range shows it. */
  lemma {:induction false} StreamDisagreesAt(cf: Config, gs: seq<Segment>, present: set<Path>, mates: bool, path: Path)
    returns (hs: seq<Segment>)
    requires AllDrained(cf, gs) && !StreamKeepsAt(gs, mates, path)
    ensures SameRaws(gs, hs) && AllDrained(cf, hs)
    ensures path in ReplayEntries(present, Outputs(cf, hs)) <==> path !in StreamTruth(present, gs, mates)
  {
    if Mentions(gs[|gs| - 1], path) {
      hs := LastDisagrees(cf, gs, present, mates, path);
    } else {
      LastOutputs(cf, gs, present);
      var rest := StreamDisagreesAt(cf, gs[..|gs| - 1], present, mates, path);
      hs := DisagreesOn(cf, gs, rest, present, mates, path);
    }
  }

  /** The net effect of everything the segments emit is that of all their raw events, for
      every order of the final ranges, if and only if about every path the last segment that
      mentions it keeps the last word. */
  lemma NetEffectOfStream(cf: Config, gs: seq<Segment>, present: set<Path>, mates: bool)
    requires AllDrained(cf, gs)
    ensures
      (forall hs :: SameRaws(gs, hs) && AllDrained(cf, hs) ==>
        ReplayEntries(present, Outputs(cf, hs)) == StreamTruth(present, gs, mates))
      <==> StreamKeeps(gs, mates)
  {
    if StreamKeeps(gs, mates) {
      forall hs | SameRaws(gs, hs) && AllDrained(cf, hs)
        ensures ReplayEntries(present, Outputs(cf, hs)) == StreamTruth(present, gs, mates)
      {
        forall path
          ensures path in ReplayEntries(present, Outputs(cf, hs)) <==> path in StreamTruth(present, gs, mates)
        {
          SameRawsAt(gs, hs, present, mates, path);
          StreamAgreesAt(cf, hs, present, mates, path);
        }
      }
    } else {
      var path :| !StreamKeepsAt(gs, mates, path);
      var hs := StreamDisagreesAt(cf, gs, present, mates, path);
    }
  }

  lemma {:induction false} SameRawsAt(gs: seq<Segment>, hs: seq<Segment>, present: set<Path>, mates: bool, path: Path)
    requires SameRaws(gs, hs)
    ensures StreamKeepsAt(gs, mates, path) <==> StreamKeepsAt(hs, mates, path)
    ensures StreamTruth(present, gs, mates) == StreamTruth(present, hs, mates)
  {
    if gs != [] {
      SameRawsAt(gs[..|gs| - 1], hs[..|hs| - 1], present, mates, path);
    }
  }

  /** So when the loop has ended by itself, replaying what was sent gives the paths that the
      raw events leave, where the last word is kept. */
  lemma DeliveredNetEffect(cf: Config, s: State, present: set<Path>)
    requires Reachable(cf, s) && s.close.closed == 0
    requires s.loop.Joining? || s.loop.ClosingEvents? || s.loop.ClosingDone? || s.loop.Exited?
    requires StreamKeeps(s.past.segments, false)
    ensures ReplayEntries(present, s.past.delivered + s.events.buf) == ReplayRaw(present, s.past.read)
  {
    NothingIsLostWithoutClose(cf, s);
    NetEffectOfStream(cf, s.past.segments, present, false);
    assert SameRaws(s.past.segments, s.past.segments);
    LiteralTruth(present, s.past.segments);
  }
}
