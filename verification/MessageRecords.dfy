/** What an operation's records do, and what is reported for them, by the paths they are
    read by. */
module MessageRecords {
  import opened Events
  import opened RelPaths
  import opened Inotify
  import opened WalkSpec
  import opened FileOps
  import opened TreeAgreement
  import opened TreeRuns
  import opened Unread
  import opened Operations

  // ---- what a sequence of records touches ----------------------------------------------

  lemma {:induction false} TouchConcat(tab: map<Wd, Dir>, a: seq<KEvent>, b: seq<KEvent>, c: Dir)
    ensures LastTouch(tab, a + b, c) ==
      if LastTouch(tab, b, c) != LeftAlone then LastTouch(tab, b, c) else LastTouch(tab, a, c)
  {
    if a == [] {
      assert a + b == b;
    } else {
      TailOf(a, b);
      TouchConcat(tab, a[1..], b, c);
    }
  }

  lemma {:induction false} QuietTouch(tab: map<Wd, Dir>, q: seq<KEvent>, c: Dir)
    requires Quiet(q)
    ensures LastTouch(tab, q, c) == LeftAlone
  {
    if q != [] {
      assert q[0] in q && forall ev :: ev in q[1..] ==> ev in q;
      QuietTouch(tab, q[1..], c);
    }
  }

  lemma {:induction false} NotSwept(tab: map<Wd, Dir>, q: seq<KEvent>, c: Dir)
    requires forall ev :: ev in q ==> !SweepsAt(tab, ev, c)
    ensures LastTouch(tab, q, c) != SweptLast
  {
    if q != [] {
      assert q[0] in q && forall ev :: ev in q[1..] ==> ev in q;
      NotSwept(tab, q[1..], c);
    }
  }

  lemma {:induction false} NoWalkBefore(tab: map<Wd, Dir>, q: seq<KEvent>, o: Dir)
    requires forall ev :: ev in q ==> !Starts(ev)
    ensures SweptFirst(tab, q, o)
  {
    if q != [] {
      assert q[0] in q && forall ev :: ev in q[1..] ==> ev in q;
      NoWalkBefore(tab, q[1..], o);
    }
  }

  lemma CoveredConcat(tab: map<Wd, Dir>, a: seq<KEvent>, b: seq<KEvent>, o: Dir)
    requires Covered(tab, a, o) || Covered(tab, b, o)
    ensures Covered(tab, a + b, o)
  {
    var ev :| (ev in a || ev in b) && SweepsAt(tab, ev, o);
    assert ev in a + b;
  }

  // ---- what an operation's messages stand for --------------------------------------------

  predicate Departs(m: Message) {
    m.isDir && m.change == MovedFrom
  }

  predicate Appears(m: Message) {
    m.isDir && (m.change == Create || m.change == MovedTo)
  }

  lemma MessagePath(op: Op, m: Message, c: Dir)
    requires BelowRoot(op) && m in Messages(op)
    ensures Departs(m) ==> (LeavesFrom(op, c) <==> m.dir + [m.name] <= c) && (op.Rename? || op.MoveOut?)
    ensures Appears(m) ==> (ArrivesAt(op, c) <==> m.dir + [m.name] <= c)
  {
  }

  /** A departure is said by a message, but for a removal. */
  lemma SaysDeparture(op: Op, c: Dir) returns (m: Message)
    requires BelowRoot(op) && LeavesFrom(op, c) && !op.Rmdir?
    ensures m in Messages(op) && Departs(m) && m.dir + [m.name] <= c
  {
    m := Messages(op)[0];
    ParentAndLast(op.d);
  }

  /** An arrival is what the last message says. */
  lemma SaysArrival(op: Op, c: Dir) returns (front: seq<Message>, m: Message)
    requires BelowRoot(op) && ArrivesAt(op, c)
    ensures Messages(op) == front + [m] && Appears(m) && m.dir + [m.name] <= c && !op.Rmdir?
  {
    var ms := Messages(op);
    front, m := ms[..|ms| - 1], ms[|ms| - 1];
    MessagePath(op, m, c);
  }

  lemma {:induction false} HeardConcat(s: State, a: seq<Message>, b: seq<Message>)
    ensures Heard(s, a + b) == Heard(s, a) + Heard(s, b)
  {
    if a == [] {
      assert a + b == b;
    } else {
      assert (a + b)[0] == a[0] && (a + b)[1..] == a[1..] + b;
      HeardConcat(s, a[1..], b);
    }
  }

  /** The record is read as if it were about `path`. */
  predicate ReadAs(s: State, tab: map<Wd, Dir>, m: Message, path: Dir) {
    Hears(s, m.dir) && PathOf(tab, RecordOf(s, m)) == path
  }

  /** What arrived and is announced by its right path is walked. */
  lemma WalkedBy(s: State, tab: map<Wd, Dir>, op: Op, c: Dir)
    requires BelowRoot(op) && ArrivesAt(op, c)
    requires forall m :: m in Messages(op) && Appears(m) ==> ReadAs(s, tab, m, m.dir + [m.name])
    ensures LastTouch(tab, Records(s, op), c) == WalkedLast
  {
    var front, m := SaysArrival(op, c);
    assert m in front + [m];
    HeardConcat(s, front, [m]);
    HeardTwo(s, m, m);
    NamelessQuiet(s, op);
    QuietTouch(tab, Nameless(s, op), c);
    TouchConcat(tab, Heard(s, front + [m]), Nameless(s, op), c);
    TouchConcat(tab, Heard(s, front), Say(s, m), c);
    assert Say(s, m) == [RecordOf(s, m)];
  }

  lemma NotSweptBy(s: State, tab: map<Wd, Dir>, op: Op, c: Dir)
    requires BelowRoot(op)
    requires forall m :: m in Messages(op) && Departs(m) && Hears(s, m.dir) ==> !(PathOf(tab, RecordOf(s, m)) <= c)
    ensures LastTouch(tab, Records(s, op), c) != SweptLast
  {
    forall ev | ev in Records(s, op)
      ensures !SweepsAt(tab, ev, c)
    {
      if Sweeps(ev) {
        var m := NamedRecord(s, op, ev);
      }
    }
    NotSwept(tab, Records(s, op), c);
  }

  /** A record that starts a walk is the last with a name. */
  lemma WalkIsLast(s: State, op: Op, k: nat, j: nat)
    requires BelowRoot(op) && k < j < |Records(s, op)| && Records(s, op)[j].Named?
    ensures !Starts(Records(s, op)[k])
  {
    var ms := Messages(op);
    NamelessQuiet(s, op);
    if |ms| == 1 {
      HeardTwo(s, ms[0], ms[0]);
    } else if |ms| == 2 {
      HeardTwo(s, ms[0], ms[1]);
    }
  }

  /** A record that sweeps is the first. */
  lemma SweepIsFirst(s: State, op: Op, j: nat)
    requires BelowRoot(op) && 0 < j < |Records(s, op)|
    ensures !Sweeps(Records(s, op)[j])
  {
    var ms := Messages(op);
    NamelessQuiet(s, op);
    if |ms| == 1 {
      HeardTwo(s, ms[0], ms[0]);
    } else if |ms| == 2 {
      HeardTwo(s, ms[0], ms[1]);
    }
  }

  lemma {:induction false} HeardFew(s: State, ms: seq<Message>)
    ensures |Heard(s, ms)| <= |ms|
  {
    if ms != [] {
      HeardFew(s, ms[1..]);
    }
  }

  lemma RecordsFew(s: State, op: Op)
    requires BelowRoot(op)
    ensures |Records(s, op)| <= 5
  {
    HeardFew(s, Messages(op));
    assert |Messages(op)| <= 2 && |Nameless(s, op)| <= 3;
  }

  // ---- how long draining takes -------------------------------------------------------------

  lemma {:induction false} BudgetUnswept(q: seq<KEvent>, k: nat, n: nat)
    requires forall j :: 0 <= j < |q| ==> !Sweeps(q[j])
    ensures Budget(q, k, n) == |q|
  {
    if q != [] {
      BudgetUnswept(q[1..], if Starts(q[0]) then k + n else k, n);
    }
  }

  lemma BudgetSweptFirst(q: seq<KEvent>, k: nat, n: nat)
    requires forall j :: 0 < j < |q| ==> !Sweeps(q[j])
    ensures Budget(q, k, n) <= k + |q|
  {
    if q != [] {
      BudgetUnswept(q[1..], if Starts(q[0]) then k + n else k, n);
    }
  }

  /** How large the table can be once `q` is processed. */
  function GrownBy(q: seq<KEvent>, k: nat, n: nat): nat {
    if q == [] then k else GrownBy(q[1..], if Starts(q[0]) then k + n else k, n)
  }

  lemma {:induction false} BudgetConcat(a: seq<KEvent>, b: seq<KEvent>, k: nat, n: nat)
    ensures Budget(a + b, k, n) == Budget(a, k, n) + Budget(b, GrownBy(a, k, n), n)
  {
    if a == [] {
      assert a + b == b;
    } else {
      TailOf(a, b);
      BudgetConcat(a[1..], b, if Starts(a[0]) then k + n else k, n);
    }
  }

  lemma {:induction false} GrownUnstarted(q: seq<KEvent>, k: nat, n: nat)
    requires forall j :: 0 <= j < |q| ==> !Starts(q[j])
    ensures GrownBy(q, k, n) == k
  {
    if q != [] {
      GrownUnstarted(q[1..], k, n);
    }
  }

  lemma {:induction false} GrownOnce(q: seq<KEvent>, k: nat, n: nat)
    requires forall i, j :: 0 <= i < j < |q| && Starts(q[i]) ==> !Starts(q[j])
    ensures GrownBy(q, k, n) <= k + n
  {
    if q != [] {
      if Starts(q[0]) {
        GrownUnstarted(q[1..], k + n, n);
      } else {
        GrownOnce(q[1..], k, n);
      }
    }
  }

  lemma RecordsGrow(s: State, op: Op, k: nat, n: nat)
    requires BelowRoot(op)
    ensures GrownBy(Records(s, op), k, n) <= k + n
  {
    var q := Records(s, op);
    forall i, j | 0 <= i < j < |q| && Starts(q[i])
      ensures !Starts(q[j])
    {
      if Starts(q[j]) {
        WalkIsLast(s, op, i, j);
      }
    }
    GrownOnce(q, k, n);
  }

  /** With a table of `k` entries, one operation's records take so many calls at most. */
  function Bound(k: nat): nat { k + 5 }

  lemma RecordsBudget(s: State, op: Op, k: nat, n: nat)
    requires BelowRoot(op)
    ensures Budget(Records(s, op), k, n) <= Bound(k)
  {
    var q := Records(s, op);
    forall j | 0 < j < |q|
      ensures !Sweeps(q[j])
    {
      SweepIsFirst(s, op, j);
    }
    BudgetSweptFirst(q, k, n);
    RecordsFew(s, op);
  }

  // ---- who stays, and who speaks -----------------------------------------------------------

  /** Who stays where it was keeps its watch. */
  lemma StaysWatched(s: State, op: Op, c: Dir)
    requires OnePath(s.tree) && c in s.tree && !DiesAt(op, c)
    ensures s.tree[c] !in Dying(s, op)
  {
    forall d | d in s.tree && DiesAt(op, d)
      ensures s.tree[d] != s.tree[c]
    {
      assert SameIno(s.tree, d, c) ==> d == c;
    }
  }

  lemma LiveNotIgnored(s: State, d: Dir)
    requires Bookkeeping(s) && Hears(s, d)
    ensures Ignored(s.watches[s.tree[d]]) !in s.queue
  {
    assert s.watches[s.tree[d]] in s.watches.Values;
  }

  /** Who speaks is still watched afterwards. */
  lemma SpeakerLives(s: State, op: Op, f: State, m: Message)
    requires Bookkeeping(s) && Enabled(s, op) && f == Outcome(s, op) && m in Messages(op) && Hears(s, m.dir)
    ensures Hears(f, m.dir) && f.watches[f.tree[m.dir]] == s.watches[s.tree[m.dir]]
    ensures Ignored(s.watches[s.tree[m.dir]]) !in f.queue
  {
    SpeakersStay(s, op);
    ApplyBookkeeping(s, op);
    LiveNotIgnored(f, m.dir);
  }

  // ---- what is reported ----------------------------------------------------------------------

  lemma {:induction false} ToldConcat(tab: map<Wd, Dir>, a: seq<KEvent>, b: seq<KEvent>)
    ensures Told(tab, a + b) == Told(tab, a) + Told(tab, b)
  {
    if a == [] {
      assert a + b == b;
    } else {
      TailOf(a, b);
      ToldConcat(tab, a[1..], b);
    }
  }

  lemma {:induction false} ToldQuiet(tab: map<Wd, Dir>, q: seq<KEvent>)
    requires Quiet(q)
    ensures Told(tab, q) == []
  {
    if q != [] {
      assert q[0] in q && forall ev :: ev in q[1..] ==> ev in q;
      ToldQuiet(tab, q[1..]);
    }
  }

  lemma ToldRecords(tab: map<Wd, Dir>, s: State, op: Op)
    requires BelowRoot(op)
    ensures Told(tab, Records(s, op)) == Told(tab, Heard(s, Messages(op)))
  {
    NamelessQuiet(s, op);
    ToldQuiet(tab, Nameless(s, op));
    ToldConcat(tab, Heard(s, Messages(op)), Nameless(s, op));
    ToldConcat(tab, Nameless(s, op), Heard(s, Messages(op)));
    assert [] + Told(tab, Heard(s, Messages(op))) == Told(tab, Heard(s, Messages(op)));
  }

  lemma ToldSay(tab: map<Wd, Dir>, s: State, m: Message, rest: seq<Message>)
    ensures Told(tab, Heard(s, [m] + rest)) ==
      (if Hears(s, m.dir) then ToldOf(tab, RecordOf(s, m)) else []) + Told(tab, Heard(s, rest))
  {
    assert ([m] + rest)[1..] == rest;
    ToldConcat(tab, Say(s, m), Heard(s, rest));
    if Hears(s, m.dir) {
      assert Say(s, m)[1..] == [];
      assert Told(tab, Say(s, m)) == ToldOf(tab, RecordOf(s, m)) + [];
    }
  }

  /** Messages that are all heard, by their right paths, are reported as they should be. */
  lemma {:induction false} ToldRight(tab: map<Wd, Dir>, s: State, ms: seq<Message>)
    requires forall m :: m in ms ==> ReadAs(s, tab, m, m.dir + [m.name])
    ensures Told(tab, Heard(s, ms)) == EventsOf(ms)
  {
    if ms != [] {
      assert ms == [ms[0]] + ms[1..] && ms[0] in ms;
      ToldSay(tab, s, ms[0], ms[1..]);
      ToldRight(tab, s, ms[1..]);
    }
  }
}
