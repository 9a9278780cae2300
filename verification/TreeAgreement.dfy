/** What it means that the watch table agrees with the directory tree, and what the steps
    of the watcher do to it. */
module TreeAgreement {
  import opened Events
  import opened RelPaths
  import opened Inotify
  import opened WalkSpec
  import opened FileOps

  // ---- invariants -----------------------------------------------------------

  /** The table is exactly {wd(d) -> d} for every directory d of the tree. */
  ghost predicate Agreement(st: State) {
    && IsTree(st.tree) && WdsOk(st) && st.queue == []
    && st.watches.Keys == st.tree.Values && st.table.Keys == st.watches.Values
    && forall d :: d in st.tree ==> st.table[st.watches[st.tree[d]]] == d
  }

  /** A watch is live, or its IN_IGNORED is still queued. */
  predicate Accounted(st: State, wd: Wd) {
    wd in st.watches.Values || Ignored(wd) in st.queue
  }

  /** Directory `d` is watched and tabled under its own path. */
  predicate Right(st: State, d: Dir) {
    && d in st.tree && st.tree[d] in st.watches
    && st.watches[st.tree[d]] in st.table && st.table[st.watches[st.tree[d]]] == d
  }

  ghost predicate Bookkeeping(st: State) {
    && IsTree(st.tree) && WdsOk(st)
    && (forall wd :: wd in st.table ==> Accounted(st, wd))
    && (forall wd: Wd :: Ignored(wd) in st.queue ==> wd !in st.watches.Values && wd < st.nextWd)
  }

  /** Everything agrees, but for entries whose IN_IGNORED is queued. */
  ghost predicate Synced(st: State) {
    && Bookkeeping(st)
    && (forall d :: d in st.tree ==> Right(st, d))
    && (forall i :: i in st.watches ==> i in st.tree.Values)
  }

  lemma SyncedAgrees(st: State)
    requires Synced(st) && st.queue == []
    ensures Agreement(st)
  {
    forall i | i in st.tree.Values
      ensures i in st.watches
    {
      var d :| d in st.tree && st.tree[d] == i;
      assert Right(st, d);
    }
    forall wd | wd in st.watches.Values
      ensures wd in st.table
    {
      var i :| i in st.watches && st.watches[i] == wd;
      var d :| d in st.tree && st.tree[d] == i;
      assert Right(st, d);
    }
    forall wd | wd in st.table
      ensures wd in st.watches.Values
    {
      assert Accounted(st, wd);
    }
    forall d | d in st.tree
      ensures st.table[st.watches[st.tree[d]]] == d
    {
      assert Right(st, d);
    }
  }

  lemma AgreementIsSynced(st: State)
    requires Agreement(st)
    ensures Synced(st)
  {
    forall d | d in st.tree
      ensures Right(st, d)
    {
      assert st.tree[d] in st.tree.Values;
      assert st.watches[st.tree[d]] in st.watches.Values;
    }
  }

  // ---- consumer steps ---------------------------------------------------------

  lemma PopBookkeeping(s: State)
    requires Bookkeeping(s) && s.queue != [] && !s.queue[0].Ignored?
    ensures Bookkeeping(s.(queue := s.queue[1..]))
  {
    var t := s.(queue := s.queue[1..]);
    assert forall ev :: ev in t.queue ==> ev in s.queue;
    assert s.queue == [s.queue[0]] + t.queue;
    forall w | w in t.table
      ensures Accounted(t, w)
    {
      assert Accounted(s, w);
    }
  }

  lemma ClearBookkeeping(s: State, wd: Wd, t: State)
    requires Bookkeeping(s) && s.queue != [] && s.queue[0] == Ignored(wd)
    requires t == s.(queue := s.queue[1..], table := s.table - {wd})
    ensures Bookkeeping(t) && wd !in s.watches.Values
  {
    assert s.queue[0] in s.queue;
    assert forall ev :: ev in t.queue ==> ev in s.queue;
    assert s.queue == [s.queue[0]] + t.queue;
    forall w | w in t.table
      ensures Accounted(t, w)
    {
      assert Accounted(s, w);
    }
  }

  /** A record without a name keeps what agrees, and shortens the queue. */
  lemma ConsumeNameless(st: State, c: Choice)
    requires Synced(st) && st.queue != [] && !st.queue[0].Named?
    ensures Synced(Consume(st, c).0) && Consume(st, c).0.queue == st.queue[1..] && Consume(st, c).1 == None
  {
    var t := Consume(st, c).0;
    if st.queue[0].Ignored? {
      ClearBookkeeping(st, st.queue[0].wd, t);
    } else {
      PopBookkeeping(st);
    }
    forall d | d in t.tree
      ensures Right(t, d)
    {
      assert Right(st, d) && st.watches[st.tree[d]] in st.watches.Values;
    }
  }

  function AtOrUnder(tree: map<Dir, Ino>, e: Dir): set<Dir> {
    set c | c in tree && e <= c
  }

  lemma WalkAccounts(s: State, t: State, e: Dir)
    requires Bookkeeping(s) && WdsOk(t) && Walked(s, t, AtOrUnder(s.tree, e))
    ensures Bookkeeping(t)
  {
    forall wd | wd in t.table
      ensures Accounted(t, wd)
    {
      if wd in s.table && t.table[wd] == s.table[wd] {
        assert Accounted(s, wd);
        if wd in s.watches.Values {
          var i :| i in s.watches && s.watches[i] == wd;
          assert t.watches[i] == wd;
        }
      } else {
        assert t.watches[s.tree[t.table[wd]]] == wd;
      }
    }
    forall wd: Wd, i | Ignored(wd) in t.queue && i in t.watches
      ensures t.watches[i] != wd
    {
      assert Ignored(wd) in s.queue;
      if i in s.watches {
        assert s.watches[i] in s.watches.Values;
      }
    }
  }

  // ---- dropping a subtree -------------------------------------------------------

  /** What removing the watches of `order` leaves. */
  lemma {:induction false} RmAllEffect(st: State, order: seq<Wd>)
    requires WdsOk(st)
    ensures var t := RmAll(st, order);
      && t.tree == st.tree && t.nextWd == st.nextWd && t.table == st.table && WdsOk(t)
      && (forall i :: i in t.watches <==> i in st.watches && st.watches[i] !in order)
      && (forall i :: i in t.watches ==> t.watches[i] == st.watches[i])
  {
    if order != [] {
      var front, last := order[..|order| - 1], order[|order| - 1];
      assert order == front + [last];
      RmAllEffect(st, front);
      var s, t := RmAll(st, front), RmAll(st, order);
      forall i, j | SameWatch(t.watches, i, j)
        ensures i == j
      {
        assert SameWatch(s.watches, i, j);
      }
    }
  }

  lemma {:induction false} RmAllQueue(st: State, order: seq<Wd>)
    requires WdsOk(st)
    ensures var t := RmAll(st, order);
      && |st.queue| <= |t.queue| <= |st.queue| + |order| && t.queue[..|st.queue|] == st.queue
      && (forall ev :: ev in t.queue[|st.queue|..] ==> ev.Ignored? && ev.wd in order && ev.wd in st.watches.Values)
      && (forall wd :: wd in order && wd in st.watches.Values ==> Ignored(wd) in t.queue)
  {
    if order != [] {
      var front, last := order[..|order| - 1], order[|order| - 1];
      assert order == front + [last];
      var s, t := RmAll(st, front), RmAll(st, order);
      RmAllQueue(st, front);
      RmAllEffect(st, front);
      if last in s.watches.Values {
        assert t.queue[|st.queue|..] == s.queue[|st.queue|..] + [Ignored(last)];
        var i :| i in s.watches && s.watches[i] == last;
        assert st.watches[i] == last;
      } else if last in st.watches.Values {
        var i :| i in st.watches && st.watches[i] == last;
        assert i !in s.watches;
      }
    }
  }

  lemma DropAccounts(s: State, t: State, order: seq<Wd>)
    requires Bookkeeping(s) && t == RmAll(s, order)
    ensures Bookkeeping(t)
  {
    RmAllEffect(s, order);
    RmAllQueue(s, order);
    var q := t.queue[|s.queue|..];
    assert t.queue == s.queue + q;
    forall wd | wd in t.table
      ensures Accounted(t, wd)
    {
      assert Accounted(s, wd);
      if wd in s.watches.Values && wd !in order {
        var i :| i in s.watches && s.watches[i] == wd;
        assert i in t.watches;
      }
    }
    forall wd: Wd, i | Ignored(wd) in t.queue && i in t.watches
      ensures t.watches[i] != wd && wd < t.nextWd
    {
      assert s.watches[i] in s.watches.Values;
      assert Ignored(wd) in s.queue || Ignored(wd) in q;
    }
    forall wd: Wd | Ignored(wd) in t.queue
      ensures wd < t.nextWd
    {
      if Ignored(wd) !in s.queue {
        assert Ignored(wd) in q;
        var i :| i in s.watches && s.watches[i] == wd;
      }
    }
  }

  lemma StaleSize(table: map<Wd, Dir>, d: Dir)
    ensures |Stale(table, d)| <= |table|
  {
    assert table.Keys == Stale(table, d) + (table.Keys - Stale(table, d));
    assert |table.Keys| == |table|;
  }

  // ---- trees ----------------------------------------------------------------------

  lemma PruneTree(tree: map<Dir, Ino>, d: Dir)
    requires IsTree(tree) && d != []
    ensures IsTree(Prune(tree, d))
  {
    var t := Prune(tree, d);
    forall c, k | c in t && 0 <= k <= |c|
      ensures c[..k] in t
    {
      assert c[..k] <= c;
    }
    forall c, e | SameIno(t, c, e)
      ensures c == e
    {
      assert SameIno(tree, c, e);
    }
  }

  lemma SubShape(tree: map<Dir, Ino>, d: Dir)
    ensures forall x :: x in Sub(tree, d) <==> d + x in tree
    ensures forall x :: x in Sub(tree, d) ==> Sub(tree, d)[x] == tree[d + x]
  {
    var s := Sub(tree, d);
    forall x: Dir | d + x in tree
      ensures x in s
    {
      assert (d + x)[|d|..] == x;
    }
    forall x | x in s
      ensures d + x in tree
    {
      var c :| c in tree && d <= c && x == c[|d|..];
      assert d + x == c;
    }
  }

  lemma SubTree(tree: map<Dir, Ino>, d: Dir)
    requires IsTree(tree) && d in tree
    ensures IsTree(Sub(tree, d))
  {
    var s := Sub(tree, d);
    SubShape(tree, d);
    assert d + [] == d;
    forall x, k | x in s && 0 <= k <= |x|
      ensures x[..k] in s
    {
      assert (d + x)[..|d| + k] == d + x[..k];
    }
    forall x, y | SameIno(s, x, y)
      ensures x == y
    {
      assert SameIno(tree, d + x, d + y);
      assert (d + x)[|d|..] == x && (d + y)[|d|..] == y;
    }
  }

  lemma GraftShape(tree: map<Dir, Ino>, e: Dir, sub: map<Dir, Ino>)
    ensures var t := Graft(tree, e, sub);
      && (forall c :: c in t <==> c in tree || (e <= c && c[|e|..] in sub))
      && (forall c :: c in t && e <= c && c[|e|..] in sub ==> t[c] == sub[c[|e|..]])
      && (forall c :: c in tree && !(e <= c) ==> t[c] == tree[c])
  {
    var keys := set x | x in sub :: e + x;
    forall c | e <= c && c[|e|..] in sub
      ensures c in keys
    {
      assert c == e + c[|e|..];
    }
    assert forall x: Dir :: (e + x)[|e|..] == x;
  }

  /** No directory of `sub` is an inode of `tree`. */
  ghost predicate NewInos(tree: map<Dir, Ino>, sub: map<Dir, Ino>) {
    forall x :: x in sub ==> sub[x] !in tree.Values
  }

  /** `sub` may be hung at `e`: the place is free and its inodes are new. */
  ghost predicate Graftable(tree: map<Dir, Ino>, e: Dir, sub: map<Dir, Ino>) {
    && IsTree(tree) && IsTree(sub) && e != [] && Parent(e) in tree
    && (forall c :: c in tree ==> !(e <= c))
    && NewInos(tree, sub)
  }

  lemma GraftTree(tree: map<Dir, Ino>, e: Dir, sub: map<Dir, Ino>)
    requires Graftable(tree, e, sub)
    ensures IsTree(Graft(tree, e, sub))
  {
    var t := Graft(tree, e, sub);
    GraftShape(tree, e, sub);
    forall c, k | c in t && 0 <= k <= |c|
      ensures c[..k] in t
    {
      if c !in tree {
        if k < |e| {
          assert c[..k] == Parent(e)[..k];
        } else {
          assert c[..k][|e|..] == c[|e|..][..k - |e|];
        }
      }
    }
    forall c, d | SameIno(t, c, d)
      ensures c == d
    {
      if c in tree && d in tree {
        assert SameIno(tree, c, d);
      } else if c !in tree && d !in tree {
        assert SameIno(sub, c[|e|..], d[|e|..]);
        assert c == e + c[|e|..] && d == e + d[|e|..];
      }
    }
  }
}
