/** Draining a queue that holds the records of more than one operation: what the records
    and the table must be like for everything to agree again. */
module Unread {
  import opened Events
  import opened RelPaths
  import opened Inotify
  import opened WalkSpec
  import opened FileOps
  import opened TreeAgreement
  import opened TreeRuns

  // ---- what a record asks for --------------------------------------------------------

  /** The watcher will drop the watches of a subtree. */
  predicate Sweeps(ev: KEvent) {
    ev.Named? && ev.isDir && ev.change == MovedFrom
  }

  /** The watcher will walk a subtree. */
  predicate Starts(ev: KEvent) {
    ev.Named? && ev.isDir && (ev.change == Create || ev.change == MovedTo)
  }

  /** The path a record is about, by the table `tab`. */
  function PathOf(tab: map<Wd, Dir>, ev: KEvent): Dir {
    if ev.Named? && ev.wd in tab then tab[ev.wd] + [ev.name] else []
  }

  predicate SweepsAt(tab: map<Wd, Dir>, ev: KEvent, c: Dir) {
    Sweeps(ev) && PathOf(tab, ev) <= c
  }

  predicate StartsAt(tab: map<Wd, Dir>, ev: KEvent, c: Dir) {
    Starts(ev) && PathOf(tab, ev) <= c
  }

  datatype Touch = LeftAlone | SweptLast | WalkedLast

  /** What the last record of `q` that concerns `c` does to it. */
  function LastTouch(tab: map<Wd, Dir>, q: seq<KEvent>, c: Dir): Touch {
    if q == [] then LeftAlone
    else if LastTouch(tab, q[1..], c) != LeftAlone then LastTouch(tab, q[1..], c)
    else if SweepsAt(tab, q[0], c) then SweptLast
    else if StartsAt(tab, q[0], c) then WalkedLast
    else LeftAlone
  }

  /** No walk comes before a sweep of what was at `o`. */
  predicate SweptFirst(tab: map<Wd, Dir>, q: seq<KEvent>, o: Dir) {
    q != [] ==> SweepsAt(tab, q[0], o) || (!Starts(q[0]) && SweptFirst(tab, q[1..], o))
  }

  ghost predicate Covered(tab: map<Wd, Dir>, q: seq<KEvent>, o: Dir) {
    exists ev :: ev in q && SweepsAt(tab, ev, o)
  }

  /** What is reported for the records, read by the table `tab`. */
  function Told(tab: map<Wd, Dir>, q: seq<KEvent>): seq<RawEvent> {
    if q == [] then [] else ToldOf(tab, q[0]) + Told(tab, q[1..])
  }

  function ToldOf(tab: map<Wd, Dir>, ev: KEvent): seq<RawEvent> {
    if ev.Named? then [RawEvent(TypeOf(ev.change), Render(PathOf(tab, ev)), ev.cookie)] else []
  }

  // ---- the invariant of draining ---------------------------------------------------------

  predicate Placed(s: State, d: Dir, wd: Wd) {
    d in s.tree && s.tree[d] in s.watches && s.watches[s.tree[d]] == wd
  }

  /** A record for `wd` behind `before` will be read by the path that `tab` has for it: no
      IN_IGNORED clears the entry first, and no walk gives it another path. */
  predicate Steady(s: State, tab: map<Wd, Dir>, before: seq<KEvent>, wd: Wd) {
    && wd in tab && wd in s.table && s.table[wd] == tab[wd] && Ignored(wd) !in before
    && (wd !in s.watches.Values || Placed(s, tab[wd], wd) || SweptFirst(tab, before, tab[wd]))
  }

  /** `c` will be right: walked last, or right already and left alone. */
  predicate Kept(s: State, tab: map<Wd, Dir>, q: seq<KEvent>, c: Dir) {
    match LastTouch(tab, q, c)
    case LeftAlone => Right(s, c)
    case SweptLast => false
    case WalkedLast => true
  }

  /** A live watch belongs to a directory of the tree, or will be swept. */
  ghost predicate Rooted(s: State, tab: map<Wd, Dir>, q: seq<KEvent>, i: Ino)
    requires i in s.watches
  {
    s.watches[i] in s.table && (i in s.tree.Values || Covered(tab, q, s.table[s.watches[i]]))
  }

  /** `q` are the records that matter, `rest` only clears entries. */
  ghost predicate Draining(s: State, tab: map<Wd, Dir>, q: seq<KEvent>, rest: seq<KEvent>) {
    && s.queue == q + rest && Quiet(rest) && Bookkeeping(s)
    && AllKept(s, tab, q) && AllRooted(s, tab, q) && AllSteady(s, tab, q)
  }

  ghost predicate AllKept(s: State, tab: map<Wd, Dir>, q: seq<KEvent>) {
    forall c :: c in s.tree ==> Kept(s, tab, q, c)
  }

  ghost predicate AllRooted(s: State, tab: map<Wd, Dir>, q: seq<KEvent>) {
    forall i :: i in s.watches ==> Rooted(s, tab, q, i)
  }

  ghost predicate AllSteady(s: State, tab: map<Wd, Dir>, q: seq<KEvent>) {
    forall j :: 0 <= j < |q| && q[j].Named? ==> Steady(s, tab, q[..j], q[j].wd)
  }

  /** What the table may still grow by, and the IN_IGNOREDs to come: `k` bounds the table,
      `n` is the size of the tree. */
  function Budget(q: seq<KEvent>, k: nat, n: nat): nat {
    if q == [] then 0
    else if Starts(q[0]) then 1 + Budget(q[1..], k + n, n)
    else if Sweeps(q[0]) then 1 + k + Budget(q[1..], k, n)
    else 1 + Budget(q[1..], k, n)
  }

  lemma DrainingWhole(s: State, tab: map<Wd, Dir>, q: seq<KEvent>)
    requires s.queue == q && Bookkeeping(s) && AllKept(s, tab, q) && AllRooted(s, tab, q) && AllSteady(s, tab, q)
    ensures Draining(s, tab, q, [])
  {
    assert q + [] == q;
  }

  // ---- steps ---------------------------------------------------------------------------------

  lemma TailOf(q: seq<KEvent>, rest: seq<KEvent>)
    requires q != []
    ensures (q + rest)[0] == q[0] && (q + rest)[1..] == q[1..] + rest
  {
  }

  lemma PrefixTail(q: seq<KEvent>, j: nat)
    requires j < |q| - 1
    ensures q[..j + 1][0] == q[0] && q[..j + 1][1..] == q[1..][..j] && q[1..][j] == q[j + 1]
    ensures forall ev :: ev in q[1..][..j] ==> ev in q[..j + 1]
  {
    assert q[..j + 1] == [q[0]] + q[1..][..j];
  }

  /** A record that is behind the first is not about the descriptor that first's
      IN_IGNORED clears, and what waits for it has one record less in front of it. */
  lemma SteadyBehind(s: State, tab: map<Wd, Dir>, q: seq<KEvent>, j: nat)
    requires j < |q| - 1 && q[j + 1].Named? && Steady(s, tab, q[..j + 1], q[j + 1].wd)
    ensures var wd := q[1..][j].wd;
      && q[1..][j] == q[j + 1] && q[0] != Ignored(wd) && Ignored(wd) !in q[1..][..j]
      && (SweptFirst(tab, q[..j + 1], tab[wd]) ==>
            SweepsAt(tab, q[0], tab[wd]) || (!Starts(q[0]) && SweptFirst(tab, q[1..][..j], tab[wd])))
  {
    PrefixTail(q, j);
    assert q[..j + 1][0] in q[..j + 1];
  }

  /** A record that neither sweeps nor walks nor clears an entry. */
  lemma PassStep(s: State, tab: map<Wd, Dir>, q: seq<KEvent>, rest: seq<KEvent>, t: State)
    requires Draining(s, tab, q, rest) && q != [] && t == s.(queue := q[1..] + rest)
    requires !q[0].Ignored? && !Sweeps(q[0]) && !Starts(q[0])
    ensures Draining(t, tab, q[1..], rest)
  {
    TailOf(q, rest);
    PopBookkeeping(s);
    forall c | c in t.tree
      ensures Kept(t, tab, q[1..], c)
    {
      assert Kept(s, tab, q, c);
    }
    forall i | i in t.watches
      ensures Rooted(t, tab, q[1..], i)
    {
      assert Rooted(s, tab, q, i);
      if i !in s.tree.Values {
        StillCovered(tab, q, s.table[s.watches[i]]);
      }
    }
    forall j: nat | 0 <= j < |q[1..]| && q[1..][j].Named?
      ensures Steady(t, tab, q[1..][..j], q[1..][j].wd)
    {
      SteadyBehind(s, tab, q, j);
    }
  }

  lemma StillCovered(tab: map<Wd, Dir>, q: seq<KEvent>, o: Dir)
    requires q != [] && Covered(tab, q, o) && !SweepsAt(tab, q[0], o)
    ensures Covered(tab, q[1..], o)
  {
    var k :| 0 <= k < |q| && SweepsAt(tab, q[k], o);
    assert q[1..][k - 1] == q[k];
  }

  /** An IN_IGNORED clears its entry. */
  lemma ClearStep(s: State, tab: map<Wd, Dir>, q: seq<KEvent>, rest: seq<KEvent>, wd: Wd, t: State)
    requires Draining(s, tab, q, rest) && q != [] && q[0] == Ignored(wd)
    requires t == s.(queue := q[1..] + rest, table := s.table - {wd})
    ensures Draining(t, tab, q[1..], rest)
  {
    TailOf(q, rest);
    ClearBookkeeping(s, wd, t);
    forall c | c in t.tree
      ensures Kept(t, tab, q[1..], c)
    {
      assert Kept(s, tab, q, c);
      assert Right(s, c) ==> s.watches[s.tree[c]] in s.watches.Values;
    }
    forall i | i in t.watches
      ensures Rooted(t, tab, q[1..], i)
    {
      assert Rooted(s, tab, q, i) && s.watches[i] in s.watches.Values;
      if i !in s.tree.Values {
        StillCovered(tab, q, s.table[s.watches[i]]);
      }
    }
    forall j: nat | 0 <= j < |q[1..]| && q[1..][j].Named?
      ensures Steady(t, tab, q[1..][..j], q[1..][j].wd)
    {
      SteadyBehind(s, tab, q, j);
    }
  }

  // A sweep.

  lemma SweptQueue(s: State, tail: seq<KEvent>, order: seq<Wd>, t: State) returns (extra: seq<KEvent>)
    requires WdsOk(s) && s.queue == tail && t == RmAll(s, order)
    ensures t.queue == tail + extra && Quiet(extra) && |extra| <= |order|
  {
    RmAllQueue(s, order);
    extra := t.queue[|tail|..];
    assert t.queue == t.queue[..|tail|] + extra;
    forall ev | ev in extra
      ensures !ev.Named?
    {
      assert ev in t.queue[|s.queue|..];
    }
  }

  /** `t` is `s` without the watches tabled at or below `p`. */
  ghost predicate SweptOff(s: State, t: State, p: Dir) {
    && t.tree == s.tree && t.table == s.table
    && (forall i :: i in t.watches ==> i in s.watches && t.watches[i] == s.watches[i])
    && (forall i :: i in s.watches && s.watches[i] in s.table ==>
          (i in t.watches <==> !(p <= s.table[s.watches[i]])))
  }

  lemma SweepEffect(s: State, q: seq<KEvent>, p: Dir, order: seq<Wd>)
    requires WdsOk(s) && Enumerates(order, Stale(s.table, p))
    ensures SweptOff(s, RmAll(s.(queue := q), order), p)
  {
    var t := RmAll(s.(queue := q), order);
    RmAllEffect(s.(queue := q), order);
    forall i | i in s.watches && s.watches[i] in s.table
      ensures i in t.watches <==> !(p <= s.table[s.watches[i]])
    {
      assert s.watches[i] in order <==> s.watches[i] in Stale(s.table, p);
    }
  }

  lemma SweepKeeps(s: State, tab: map<Wd, Dir>, q: seq<KEvent>, p: Dir, t: State)
    requires SweptOff(s, t, p) && q != [] && Sweeps(q[0]) && PathOf(tab, q[0]) == p && AllKept(s, tab, q)
    ensures AllKept(t, tab, q[1..])
  {
    forall c | c in t.tree
      ensures Kept(t, tab, q[1..], c)
    {
      assert Kept(s, tab, q, c);
    }
  }

  lemma SweepRoots(s: State, tab: map<Wd, Dir>, q: seq<KEvent>, p: Dir, t: State)
    requires SweptOff(s, t, p) && q != [] && Sweeps(q[0]) && PathOf(tab, q[0]) == p && AllRooted(s, tab, q)
    ensures AllRooted(t, tab, q[1..])
  {
    forall i | i in t.watches
      ensures Rooted(t, tab, q[1..], i)
    {
      assert Rooted(s, tab, q, i);
      if i !in s.tree.Values {
        StillCovered(tab, q, s.table[s.watches[i]]);
      }
    }
  }

  lemma SweepSteadies(s: State, tab: map<Wd, Dir>, q: seq<KEvent>, p: Dir, t: State)
    requires SweptOff(s, t, p) && q != [] && Sweeps(q[0]) && PathOf(tab, q[0]) == p && AllSteady(s, tab, q)
    ensures AllSteady(t, tab, q[1..])
  {
    forall j: nat | j < |q[1..]| && q[1..][j].Named?
      ensures Steady(t, tab, q[1..][..j], q[1..][j].wd)
    {
      var wd := q[j + 1].wd;
      SteadyBehind(s, tab, q, j);
      if wd in t.watches.Values {
        var i :| i in t.watches && t.watches[i] == wd;
        assert s.watches[i] == wd && wd in s.watches.Values;
        assert !(p <= tab[wd]);
      }
    }
  }

  lemma SweepStep(s: State, tab: map<Wd, Dir>, q: seq<KEvent>, rest: seq<KEvent>, order: seq<Wd>, t: State)
    returns (more: seq<KEvent>)
    requires Draining(s, tab, q, rest) && q != [] && Sweeps(q[0])
    requires Enumerates(order, Stale(s.table, PathOf(tab, q[0]))) && t == RmAll(s.(queue := q[1..] + rest), order)
    ensures Draining(t, tab, q[1..], more) && |more| <= |rest| + |s.table|
    ensures t.tree == s.tree && t.table == s.table
  {
    var p, s1 := PathOf(tab, q[0]), s.(queue := q[1..] + rest);
    TailOf(q, rest);
    PopBookkeeping(s);
    SweepEffect(s, q[1..] + rest, p, order);
    DropAccounts(s1, t, order);
    var extra := SweptQueue(s1, q[1..] + rest, order, t);
    more := rest + extra;
    assert (q[1..] + rest) + extra == q[1..] + more;
    EnumerationLength(order, Stale(s.table, p));
    StaleSize(s.table, p);
    SweepKeeps(s, tab, q, p, t);
    SweepRoots(s, tab, q, p, t);
    SweepSteadies(s, tab, q, p, t);
  }

  // A walk.

  /** A walk that nothing went wrong with, from `p`. */
  ghost predicate WalkedAt(s: State, t: State, p: Dir) {
    WdsOk(t) && Walked(s.(queue := t.queue), t, AtOrUnder(s.tree, p))
  }

  lemma WalkKeeps(s: State, tab: map<Wd, Dir>, q: seq<KEvent>, p: Dir, t: State)
    requires OnePath(s.tree) && WalkedAt(s, t, p)
    requires q != [] && Starts(q[0]) && PathOf(tab, q[0]) == p && AllKept(s, tab, q)
    ensures AllKept(t, tab, q[1..])
  {
    forall c | c in t.tree
      ensures Kept(t, tab, q[1..], c)
    {
      assert Kept(s, tab, q, c);
      if LastTouch(tab, q[1..], c).LeftAlone? {
        WalkRight(s, p, t, c);
      }
    }
  }

  lemma WalkRight(s: State, p: Dir, t: State, c: Dir)
    requires OnePath(s.tree) && WalkedAt(s, t, p)
    requires c in s.tree && (p <= c || Right(s, c))
    ensures Right(t, c)
  {
    if !(p <= c) {
      WalkTable(s, p, t, s.tree[c]);
      if t.table[t.watches[s.tree[c]]] != c {
        assert SameIno(s.tree, c, t.table[t.watches[s.tree[c]]]);
      }
    }
  }

  /** A watch there was keeps its entry, or its directory is where it now says. */
  lemma WalkTable(s: State, p: Dir, t: State, i: Ino)
    requires WalkedAt(s, t, p)
    requires i in s.watches && s.watches[i] in s.table
    ensures i in t.watches && t.watches[i] == s.watches[i] && t.watches[i] in t.table
    ensures var d := t.table[t.watches[i]];
      d == s.table[s.watches[i]] || (d in s.tree && s.tree[d] == i)
  {
    var d := t.table[s.watches[i]];
    if d != s.table[s.watches[i]] {
      assert SameWatch(t.watches, i, s.tree[d]);
    }
  }

  lemma WalkRoots(s: State, tab: map<Wd, Dir>, q: seq<KEvent>, p: Dir, t: State)
    requires WalkedAt(s, t, p)
    requires q != [] && Starts(q[0]) && AllRooted(s, tab, q)
    ensures AllRooted(t, tab, q[1..])
  {
    forall i | i in t.watches
      ensures Rooted(t, tab, q[1..], i)
    {
      if i in s.watches {
        assert Rooted(s, tab, q, i);
        WalkTable(s, p, t, i);
        if i !in s.tree.Values {
          StillCovered(tab, q, s.table[s.watches[i]]);
        }
      }
    }
  }

  lemma WalkSteadies(s: State, tab: map<Wd, Dir>, q: seq<KEvent>, p: Dir, t: State)
    requires Bookkeeping(s) && WalkedAt(s, t, p)
    requires q != [] && Starts(q[0]) && AllSteady(s, tab, q)
    ensures AllSteady(t, tab, q[1..])
  {
    forall j: nat | j < |q[1..]| && q[1..][j].Named?
      ensures Steady(t, tab, q[1..][..j], q[1..][j].wd)
    {
      SteadyBehind(s, tab, q, j);
      WalkEntry(s, p, t, q[j + 1].wd, tab[q[j + 1].wd]);
    }
  }

  /** The entry of a dead watch, or of one that is where its entry says, stays. */
  lemma WalkEntry(s: State, p: Dir, t: State, wd: Wd, d: Dir)
    requires Bookkeeping(s) && WalkedAt(s, t, p)
    requires wd in s.table && s.table[wd] == d && (wd !in s.watches.Values || Placed(s, d, wd))
    ensures wd in t.table && t.table[wd] == d && (wd !in t.watches.Values || Placed(t, d, wd))
  {
    assert Accounted(s, wd);
    if Placed(s, d, wd) {
      WalkTable(s, p, t, s.tree[d]);
      if t.table[wd] != d {
        assert SameIno(s.tree, d, t.table[wd]);
      }
    } else {
      assert forall i :: i in t.watches && i in s.watches ==> t.watches[i] in s.watches.Values;
      assert wd < s.nextWd;
    }
  }

  lemma {:induction false} SetImage(dirs: set<Dir>, m: map<Dir, Wd>) returns (wds: set<Wd>)
    requires dirs <= m.Keys
    ensures |wds| <= |dirs| && forall c :: c in dirs ==> m[c] in wds
  {
    if dirs == {} {
      wds := {};
    } else {
      var c :| c in dirs;
      var rest := SetImage(dirs - {c}, m);
      wds := rest + {m[c]};
    }
  }

  lemma WalkGrowth(s: State, p: Dir, t: State)
    requires WalkedAt(s, t, p)
    ensures |t.table| <= |s.table| + |s.tree|
  {
    var reached := AtOrUnder(s.tree, p);
    var m := map c | c in reached :: t.watches[s.tree[c]];
    var wds := SetImage(reached, m);
    assert t.table.Keys <= s.table.Keys + wds;
    SizeLe(t.table.Keys, s.table.Keys + wds);
    SizeLe(reached, s.tree.Keys);
    assert |t.table.Keys| == |t.table| && |s.table.Keys| == |s.table| && |s.tree.Keys| == |s.tree|;
  }

  lemma SizeLe<T>(a: set<T>, b: set<T>)
    requires a <= b
    ensures |a| <= |b|
  {
    assert b == a + (b - a);
  }

  lemma WalkIs(s: State, p: Dir, w: Walk, t: State)
    requires IsTree(s.tree) && WdsOk(s) && Lists(w, s.tree) && Smooth(w) && t == WatchSubtree(s, p, w)
    ensures WalkedAt(s, t, p) && t.tree == s.tree && t.queue == s.queue
  {
    WalkWatches(s, p, w);
    if p in s.tree {
      ReachShape(s.tree, w, p);
      assert Reach(s.tree, w, p) == AtOrUnder(s.tree, p);
    } else {
      assert forall c :: c in s.tree && p <= c ==> c[..|p|] == p;
      assert AtOrUnder(s.tree, p) == {};
    }
    assert s == s.(queue := t.queue);
  }

  lemma WalkStep(s: State, tab: map<Wd, Dir>, q: seq<KEvent>, rest: seq<KEvent>, w: Walk, t: State)
    requires Draining(s, tab, q, rest) && q != [] && Starts(q[0]) && Lists(w, s.tree) && Smooth(w)
    requires t == WatchSubtree(s.(queue := q[1..] + rest), PathOf(tab, q[0]), w)
    ensures Draining(t, tab, q[1..], rest)
    ensures t.tree == s.tree && |t.table| <= |s.table| + |s.tree|
  {
    var p, s1 := PathOf(tab, q[0]), s.(queue := q[1..] + rest);
    TailOf(q, rest);
    PopBookkeeping(s);
    WalkIs(s1, p, w, t);
    assert s1.(queue := t.queue) == s.(queue := t.queue);
    WalkAccounts(s1, t, p);
    WalkKeeps(s, tab, q, p, t);
    WalkRoots(s, tab, q, p, t);
    WalkSteadies(s, tab, q, p, t);
    WalkGrowth(s, p, t);
  }

  // ---- one record -----------------------------------------------------------------------------

  lemma HeadSteady(s: State, tab: map<Wd, Dir>, q: seq<KEvent>)
    requires AllSteady(s, tab, q) && q != [] && q[0].Named?
    ensures q[0].wd in s.table && s.table[q[0].wd] + [q[0].name] == PathOf(tab, q[0])
  {
    assert Steady(s, tab, q[..0], q[0].wd);
  }

  /** The record is read by the path it has in `tab`, and draining goes on. */
  lemma DrainStep(s: State, tab: map<Wd, Dir>, q: seq<KEvent>, rest: seq<KEvent>, c: Choice, t: State, o: Option<RawEvent>)
    returns (more: seq<KEvent>)
    requires Draining(s, tab, q, rest) && q != [] && Possible(s, c) && Smooth(c.walk) && Consume(s, c) == (t, o)
    ensures Draining(t, tab, q[1..], more) && t.tree == s.tree && OptSeq(o) == ToldOf(tab, q[0])
    ensures |t.table| <= |s.table| + (if Starts(q[0]) then |s.tree| else 0)
    ensures |more| <= |rest| + (if Sweeps(q[0]) then |s.table| else 0)
  {
    TailOf(q, rest);
    more := rest;
    if q[0].Named? {
      HeadSteady(s, tab, q);
    }
    if q[0].Ignored? {
      ClearStep(s, tab, q, rest, q[0].wd, t);
      SizeLe(t.table.Keys, s.table.Keys);
    } else if Sweeps(q[0]) {
      more := SweepStep(s, tab, q, rest, c.order, t);
    } else if Starts(q[0]) {
      WalkStep(s, tab, q, rest, c.walk, t);
    } else {
      PassStep(s, tab, q, rest, t);
    }
  }

  lemma DrainedIsSynced(s: State, tab: map<Wd, Dir>, rest: seq<KEvent>)
    requires Draining(s, tab, [], rest)
    ensures Synced(s) && Quiet(s.queue) && s.queue == rest
  {
    assert [] + rest == rest;
    forall d | d in s.tree
      ensures Right(s, d)
    {
      assert Kept(s, tab, [], d);
    }
    forall i | i in s.watches
      ensures i in s.tree.Values
    {
      assert Rooted(s, tab, [], i);
    }
  }

  /** One record, and what follows it. */
  lemma SettlesAfter(s: State, cs: seq<Choice>, t: State, o: Option<RawEvent>, outs: seq<RawEvent>, n: nat, m: nat)
    requires s.queue != [] && cs != [] && Consume(s, cs[0]) == (t, o) && Settles(t, cs[1..], outs, n) && n + 1 <= m
    ensures Settles(s, cs, OptSeq(o) + outs, m)
  {
    SettlesStep(s, cs, outs, n);
    SettlesMono(s, cs, OptSeq(o) + outs, n + 1, m);
  }

  lemma BudgetStep(q: seq<KEvent>, k: nat, n: nat, rest: nat, more: nat)
    requires q != [] && more <= rest + (if Sweeps(q[0]) then k else 0)
    ensures Budget(q[1..], if Starts(q[0]) then k + n else k, n) + more + 1 <= Budget(q, k, n) + rest
  {
  }

  /** However it is drained: everything agrees again, and each record is reported by the
      path the table had for its descriptor at the beginning. */
  lemma {:induction false} DrainingSettles(s: State, tab: map<Wd, Dir>, q: seq<KEvent>, rest: seq<KEvent>, cs: seq<Choice>, k: nat)
    requires Draining(s, tab, q, rest) && ValidRun(s, cs) && |s.table| <= k
    ensures Settles(s, cs, Told(tab, q), Budget(q, k, |s.tree|) + |rest|)
    decreases |q|
  {
    var n := |s.tree|;
    if q == [] {
      DrainedIsSynced(s, tab, rest);
      TailSettles(s, cs);
    } else if cs == [] {
      SettlesLater(s, cs, Told(tab, q), Budget(q, k, n) + |rest|);
    } else {
      TailOf(q, rest);
      var (t, o) := Consume(s, cs[0]);
      var more := DrainStep(s, tab, q, rest, cs[0], t, o);
      var m := if Starts(q[0]) then k + n else k;
      var left := Budget(q[1..], m, |t.tree|) + |more|;
      DrainingSettles(t, tab, q[1..], more, cs[1..], m);
      BudgetStep(q, k, n, |rest|, |more|);
      SettlesAfter(s, cs, t, o, Told(tab, q[1..]), left, Budget(q, k, n) + |rest|);
    }
  }

  lemma DrainsTo(s: State, tab: map<Wd, Dir>, q: seq<KEvent>, cs: seq<Choice>, outs: seq<RawEvent>, k: nat, bound: nat)
    requires Draining(s, tab, q, []) && ValidRun(s, cs) && |s.table| <= k
    requires Told(tab, q) == outs && Budget(q, k, |s.tree|) <= bound
    ensures Settles(s, cs, outs, bound)
  {
    DrainingSettles(s, tab, q, [], cs, k);
    SettlesMono(s, cs, outs, Budget(q, k, |s.tree|), bound);
  }

  // ---- some run ------------------------------------------------------------------------------

  /** `names` are the subdirectories of `d`. */
  ghost predicate IsListing(tree: map<Dir, Ino>, d: Dir, names: seq<Name>) {
    forall n :: n in names <==> d + [n] in tree
  }

  lemma SomeListing(tree: map<Dir, Ino>, d: Dir) returns (names: seq<Name>)
    ensures IsListing(tree, d, names)
  {
    var children := set c | c in tree && c != [] && Parent(c) == d :: Last(c);
    names := SomeEnumeration(children);
    forall n
      ensures n in names <==> d + [n] in tree
    {
      if d + [n] in tree {
        assert Last(d + [n]) == n && Parent(d + [n]) == d;
      }
      if n in children {
        var c :| c in tree && c != [] && Parent(c) == d && Last(c) == n;
        assert c == d + [n];
      }
    }
  }

  ghost function Listing(tree: map<Dir, Ino>, d: Dir): (names: seq<Name>)
    ensures IsListing(tree, d, names)
  {
    assert exists names :: IsListing(tree, d, names) by {
      var names := SomeListing(tree, d);
    }
    var names :| IsListing(tree, d, names);
    names
  }

  /** The system can always answer. */
  lemma SomeChoice(s: State) returns (c: Choice)
    requires s.queue != []
    ensures Possible(s, c) && Smooth(c.walk)
  {
    var walk := Walk(true, (d: Dir) => true, (d: Dir) => true, (d: Dir) => Listing(s.tree, d));
    var order := [];
    if s.queue[0].Named? && s.queue[0].wd in s.table {
      order := SomeEnumeration(Stale(s.table, s.table[s.queue[0].wd] + [s.queue[0].name]));
    }
    c := Choice(walk, order);
  }

  /** So there are runs of any length. */
  lemma {:induction false} SomeRun(s: State, n: nat) returns (cs: seq<Choice>)
    ensures |cs| == n && ValidRun(s, cs)
    decreases n
  {
    if n == 0 {
      cs := [];
    } else if s.queue == [] {
      cs := seq(n, i => Choice(Walk(true, (d: Dir) => true, (d: Dir) => true, (d: Dir) => []), []));
    } else {
      var c := SomeChoice(s);
      var rest := SomeRun(Consume(s, c).0, n - 1);
      cs := [c] + rest;
      assert cs[1..] == rest;
    }
  }
}
