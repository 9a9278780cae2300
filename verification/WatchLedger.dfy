/** Watch descriptors accounted for at the grain of single system calls, with the
    kernel acting between any two of them: nothing drained, nothing assumed. */
module WatchLedger {
  import opened Events
  import opened RelPaths
  import opened Inotify
  import opened WalkSpec

  /** Where the single consumer stands: idle, holding a descriptor inotify_add_watch
      returned that is not in the table yet, or about to remove one it could not store. */
  datatype Position = Idle | Holding(wd: Wd) | Dropping(wd: Wd)

  /** `orphans` never got into the table for lack of memory; `lost` are dead
      descriptors whose IN_IGNORED fell to a queue overflow. */
  datatype Ledger = Ledger(
    watches: map<Ino, Wd>,
    nextWd: Wd,
    queue: seq<KEvent>,
    table: map<Wd, Dir>,
    at: Position,
    orphans: set<Wd>,
    lost: set<Wd>)

  datatype Step =
    // the kernel, at any time; `fits` says the queue did not overflow
    | Dies(ino: Ino, fits: bool)
    | Reports(ev: KEvent)
    // the consumer
    | AddWatch(ino: Ino)
    | Store(d: Dir)
    | StoreFails
    | RmWatch(wd: Wd, fits: bool)
    | Next

  predicate Enabled(l: Ledger, s: Step) {
    match s
    case Dies(ino, _) => ino in l.watches
    case Reports(ev) => !ev.Ignored?
    case AddWatch(_) => l.at.Idle?
    case Store(_) => l.at.Holding?
    case StoreFails => l.at.Holding?
    case RmWatch(wd, _) => (l.at.Idle? && wd in l.table) || l.at == Dropping(wd)
    case Next => l.at.Idle? && l.queue != []
  }

  /** The watch dies, and its IN_IGNORED is queued or lost. */
  function Kill(l: Ledger, wd: Wd, fits: bool): Ledger {
    l.(watches := map i | i in l.watches && l.watches[i] != wd :: l.watches[i],
       queue := if fits then l.queue + [Ignored(wd)] else l.queue + [Overflow],
       lost := if fits then l.lost else l.lost + {wd})
  }

  function Do(l: Ledger, s: Step): Ledger
    requires Enabled(l, s)
  {
    match s
    case Dies(ino, fits) => Kill(l.(queue := l.queue + [Self(l.watches[ino])]), l.watches[ino], fits)
    case Reports(ev) => l.(queue := l.queue + [ev])
    case AddWatch(ino) =>
      if ino in l.watches then l.(at := Holding(l.watches[ino]))
      else l.(watches := l.watches[ino := l.nextWd], nextWd := l.nextWd + 1, at := Holding(l.nextWd))
    case Store(d) => l.(table := l.table[l.at.wd := d], at := Idle)
    case StoreFails =>
      l.(at := Dropping(l.at.wd), orphans := if l.at.wd in l.table then l.orphans else l.orphans + {l.at.wd})
    case RmWatch(wd, fits) =>
      (if wd in l.watches.Values then Kill(l, wd, fits) else l).(at := Idle)
    case Next =>
      var rest := l.(queue := l.queue[1..]);
      if l.queue[0].Ignored? then
        rest.(table := l.table - {l.queue[0].wd}, orphans := l.orphans - {l.queue[0].wd})
      else rest
  }

  // ---- the account -----------------------------------------------------------

  predicate Live(l: Ledger, wd: Wd) {
    wd in l.watches.Values
  }

  predicate Doomed(l: Ledger, wd: Wd) {
    Ignored(wd) in l.queue
  }

  /** In the table, or about to be. */
  predicate Held(l: Ledger, wd: Wd) {
    wd in l.table || l.at == Holding(wd)
  }

  /** Position `k` of the queue is the IN_IGNORED of `wd`. */
  predicate IgnoredAt(q: seq<KEvent>, k: nat, wd: Wd) {
    k < |q| && q[k] == Ignored(wd)
  }

  /** Table keys (and the one in hand) are the disjoint union of live watches,
      queued IN_IGNOREDs and lost ones, less the orphans. */
  ghost predicate Balanced(l: Ledger) {
    && (forall i, j :: SameWatch(l.watches, i, j) ==> i == j)
    && (forall wd: Wd :: Live(l, wd) ==> wd < l.nextWd && !Doomed(l, wd) && wd !in l.lost)
    && (forall wd: Wd :: Doomed(l, wd) ==> wd < l.nextWd && wd !in l.lost)
    && (forall wd: Wd, j: nat, k: nat :: IgnoredAt(l.queue, j, wd) && IgnoredAt(l.queue, k, wd) ==> j == k)
    && (forall wd: Wd :: wd in l.lost ==> wd < l.nextWd)
    && (forall wd: Wd :: wd in l.orphans ==> wd < l.nextWd && (Live(l, wd) ==> l.at == Dropping(wd)))
    && (forall wd: Wd :: Held(l, wd) <==> (Live(l, wd) || Doomed(l, wd) || wd in l.lost) && wd !in l.orphans)
  }

  lemma KillBalanced(l: Ledger, wd: Wd, fits: bool)
    requires Balanced(l) && Live(l, wd)
    ensures Balanced(Kill(l, wd, fits))
    ensures forall w: Wd :: Live(Kill(l, wd, fits), w) <==> Live(l, w) && w != wd
  {
    var m := Kill(l, wd, fits);
    KillLive(l, wd, fits);
    assert forall w: Wd :: Doomed(m, w) <==> Doomed(l, w) || (fits && w == wd);
    forall i, j | SameWatch(m.watches, i, j)
      ensures i == j
    {
      assert SameWatch(l.watches, i, j);
    }
    assert !Doomed(l, wd);
    assert forall w: Wd, j: nat :: IgnoredAt(m.queue, j, w) ==>
      if w == wd then j == |l.queue| else IgnoredAt(l.queue, j, w);
    assert forall w: Wd :: Held(m, w) <==> Held(l, w);
  }

  lemma KillLive(l: Ledger, wd: Wd, fits: bool)
    ensures forall w: Wd :: Live(Kill(l, wd, fits), w) <==> Live(l, w) && w != wd
  {
    var m := Kill(l, wd, fits);
    forall w | Live(l, w) && w != wd
      ensures Live(m, w)
    {
      var i :| i in l.watches && l.watches[i] == w;
      assert m.watches[i] == w;
    }
  }

  lemma ReportBalanced(l: Ledger, ev: KEvent)
    requires Balanced(l) && !ev.Ignored?
    ensures Balanced(l.(queue := l.queue + [ev]))
  {
    var m := l.(queue := l.queue + [ev]);
    assert forall w: Wd :: Doomed(m, w) <==> Doomed(l, w);
    assert forall w: Wd, j: nat :: IgnoredAt(m.queue, j, w) ==> IgnoredAt(l.queue, j, w);
    assert forall w: Wd :: Live(m, w) <==> Live(l, w);
    assert forall w: Wd :: Held(m, w) <==> Held(l, w);
  }

  lemma AddBalanced(l: Ledger, ino: Ino)
    requires Balanced(l) && l.at.Idle?
    ensures Balanced(Do(l, AddWatch(ino)))
  {
    var m := Do(l, AddWatch(ino));
    assert forall w: Wd :: Doomed(m, w) <==> Doomed(l, w);
    if ino in l.watches {
      assert Live(l, l.watches[ino]);
      assert forall w: Wd :: Live(m, w) <==> Live(l, w);
      assert forall w: Wd :: Held(m, w) <==> Held(l, w);
    } else {
      forall i, j | SameWatch(m.watches, i, j)
        ensures i == j
      {
        assert i in l.watches ==> Live(l, l.watches[i]);
        assert j in l.watches ==> Live(l, l.watches[j]);
        assert i in l.watches && j in l.watches ==> SameWatch(l.watches, i, j);
      }
      forall w
        ensures Live(m, w) <==> Live(l, w) || w == l.nextWd
      {
        if Live(l, w) {
          var i :| i in l.watches && l.watches[i] == w;
          assert m.watches[i] == w;
        }
        assert m.watches[ino] == l.nextWd;
      }
      assert forall w: Wd :: Held(m, w) <==> Held(l, w) || w == l.nextWd;
    }
  }

  /** Taking the first record shifts the rest, and an IN_IGNORED occurs only once. */
  lemma NextDoomed(l: Ledger)
    requires Balanced(l) && l.at.Idle? && l.queue != []
    ensures var m := Do(l, Next);
      && (forall w: Wd, j: nat :: IgnoredAt(m.queue, j, w) ==> IgnoredAt(l.queue, j + 1, w))
      && (forall w: Wd :: Doomed(m, w) <==> Doomed(l, w) && l.queue[0] != Ignored(w))
  {
    var m, head := Do(l, Next), l.queue[0];
    assert l.queue == [head] + m.queue;
    assert forall w: Wd, j: nat :: IgnoredAt(m.queue, j, w) ==> IgnoredAt(l.queue, j + 1, w);
    forall w: Wd
      ensures Doomed(m, w) <==> Doomed(l, w) && head != Ignored(w)
    {
      if Doomed(m, w) {
        var j :| 0 <= j < |m.queue| && m.queue[j] == Ignored(w);
        assert IgnoredAt(l.queue, j + 1, w);
        assert IgnoredAt(l.queue, 0, w) ==> j + 1 == 0;
      }
    }
  }

  lemma NextBalanced(l: Ledger)
    requires Balanced(l) && l.at.Idle? && l.queue != []
    ensures Balanced(Do(l, Next))
  {
    var m, head := Do(l, Next), l.queue[0];
    NextDoomed(l);
    assert forall w: Wd :: Live(m, w) <==> Live(l, w);
    if head.Ignored? {
      assert Doomed(l, head.wd);
      assert forall w: Wd :: Held(m, w) <==> Held(l, w) && w != head.wd;
    } else {
      assert forall w: Wd :: Held(m, w) <==> Held(l, w);
    }
  }

  lemma PositionBalanced(l: Ledger, s: Step)
    requires Balanced(l) && Enabled(l, s) && (s.Store? || s.StoreFails?)
    ensures Balanced(Do(l, s))
  {
    var m := Do(l, s);
    assert forall w: Wd :: Live(m, w) <==> Live(l, w);
    assert forall w: Wd :: Doomed(m, w) <==> Doomed(l, w);
    assert Held(l, l.at.wd);
    assert forall w: Wd :: Held(m, w) <==> if s.Store? then Held(l, w) else Held(l, w) && w !in m.orphans;
  }

  lemma RmBalanced(l: Ledger, wd: Wd, fits: bool)
    requires Balanced(l) && Enabled(l, RmWatch(wd, fits))
    ensures Balanced(Do(l, RmWatch(wd, fits)))
  {
    var m := Do(l, RmWatch(wd, fits));
    var k := if Live(l, wd) then Kill(l, wd, fits) else l;
    if Live(l, wd) {
      KillBalanced(l, wd, fits);
    }
    assert m == k.(at := Idle);
    assert forall w: Wd :: Live(m, w) <==> Live(k, w);
    assert forall w: Wd :: Doomed(m, w) <==> Doomed(k, w);
    assert forall w: Wd :: Held(m, w) <==> Held(k, w);
  }

  /** Every step of the kernel or of the consumer keeps the account balanced. */
  lemma StepBalanced(l: Ledger, s: Step)
    requires Balanced(l) && Enabled(l, s)
    ensures Balanced(Do(l, s))
  {
    match s
    case Dies(ino, fits) =>
      var m := l.(queue := l.queue + [Self(l.watches[ino])]);
      ReportBalanced(l, Self(l.watches[ino]));
      assert Live(m, l.watches[ino]);
      KillBalanced(m, l.watches[ino], fits);
    case Reports(ev) => ReportBalanced(l, ev);
    case AddWatch(ino) => AddBalanced(l, ino);
    case Store(_) => PositionBalanced(l, s);
    case StoreFails => PositionBalanced(l, s);
    case RmWatch(wd, fits) => RmBalanced(l, wd, fits);
    case Next => NextBalanced(l);
  }

  // ---- runs --------------------------------------------------------------------

  ghost predicate CanRun(l: Ledger, ss: seq<Step>)
    decreases |ss|
  {
    ss == [] || (Enabled(l, ss[0]) && CanRun(Do(l, ss[0]), ss[1..]))
  }

  ghost function Run(l: Ledger, ss: seq<Step>): Ledger
    requires CanRun(l, ss)
    decreases |ss|
  {
    if ss == [] then l else Run(Do(l, ss[0]), ss[1..])
  }

  function Start(firstWd: Wd): Ledger {
    Ledger(map[], firstWd, [], map[], Idle, {}, {})
  }

  /** No allocation failed and no record was dropped. */
  predicate Clean(ss: seq<Step>) {
    forall s :: s in ss ==> !s.StoreFails? && (s.Dies? || s.RmWatch? ==> s.fits)
  }

  lemma {:induction false} RunBalanced(l: Ledger, ss: seq<Step>)
    requires Balanced(l) && CanRun(l, ss)
    ensures Balanced(Run(l, ss))
    decreases |ss|
  {
    if ss != [] {
      StepBalanced(l, ss[0]);
      RunBalanced(Do(l, ss[0]), ss[1..]);
    }
  }

  lemma {:induction false} CleanRun(l: Ledger, ss: seq<Step>)
    requires CanRun(l, ss) && Clean(ss) && l.orphans == {} && l.lost == {}
    ensures Run(l, ss).orphans == {} && Run(l, ss).lost == {}
    decreases |ss|
  {
    if ss != [] {
      assert ss[0] in ss;
      assert forall s :: s in ss[1..] ==> s in ss;
      CleanRun(Do(l, ss[0]), ss[1..]);
    }
  }

  /** No leaked and no lost entries: after any interleaving without overflow or
      allocation failure, the table keys (and the descriptor in hand) are exactly
      the live watches and the queued IN_IGNOREDs, and no descriptor is both. */
  lemma NoLeaksNoLosses(firstWd: Wd, ss: seq<Step>)
    requires CanRun(Start(firstWd), ss) && Clean(ss)
    ensures var l := Run(Start(firstWd), ss);
      forall wd: Wd :: (Held(l, wd) <==> Live(l, wd) || Doomed(l, wd)) && !(Live(l, wd) && Doomed(l, wd))
  {
    RunBalanced(Start(firstWd), ss);
    CleanRun(Start(firstWd), ss);
  }

  /** With failures too: only orphans and lost descriptors are off the books, and
      every live watch whose entry was stored still has it. */
  lemma FailuresAreConfined(firstWd: Wd, ss: seq<Step>)
    requires CanRun(Start(firstWd), ss)
    ensures var l := Run(Start(firstWd), ss);
      && (forall wd: Wd :: Live(l, wd) && l.at != Dropping(wd) ==> Held(l, wd))
      && (forall wd: Wd :: Held(l, wd) ==> Live(l, wd) || Doomed(l, wd) || wd in l.lost)
  {
    RunBalanced(Start(firstWd), ss);
  }

  /** A late IN_IGNORED never drops a live watch, not even a fresh one of the same
      directory. */
  lemma LateIgnoredIsHarmless(firstWd: Wd, ss: seq<Step>)
    requires CanRun(Start(firstWd), ss) && Enabled(Run(Start(firstWd), ss), Next)
    ensures var l := Run(Start(firstWd), ss);
      var m := Do(l, Next);
      forall wd: Wd :: Live(l, wd) && wd in l.table ==> Live(m, wd) && wd in m.table && m.table[wd] == l.table[wd]
  {
    var l := Run(Start(firstWd), ss);
    RunBalanced(Start(firstWd), ss);
    assert l.queue[0] in l.queue;
    assert l.queue[0].Ignored? ==> Doomed(l, l.queue[0].wd);
  }
}
