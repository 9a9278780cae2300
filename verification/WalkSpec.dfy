/** What one recursive walk watches: exactly the directories it reaches. */
module WalkSpec {
  import opened Events
  import opened RelPaths
  import opened Inotify

  /** The walk from `d` gets to `c`: every add on the way succeeded, and every
      directory it had to list could be opened. */
  predicate Reaches(w: Walk, d: Dir, c: Dir)
    requires d <= c
    decreases |c| - |d|
  {
    && w.addOk(d)
    && (d == c || (w.recursive && w.openOk(d) && Reaches(w, c[..|d| + 1], c)))
  }

  ghost predicate PrefixClosed(tree: map<Dir, Ino>) {
    forall c, k :: c in tree && 0 <= k <= |c| ==> c[..k] in tree
  }

  // The two injectivity invariants are stated through a named relation, so that
  // the verifier looks only at the pairs a proof mentions.

  predicate SameIno(tree: map<Dir, Ino>, c: Dir, d: Dir) {
    c in tree && d in tree && tree[c] == tree[d]
  }

  predicate SameWatch(watches: map<Ino, Wd>, i: Ino, j: Ino) {
    i in watches && j in watches && watches[i] == watches[j]
  }

  ghost predicate OnePath(tree: map<Dir, Ino>) {
    forall c, d :: SameIno(tree, c, d) ==> c == d
  }

  /** A tree of directories: closed under parents, each inode at one path. */
  ghost predicate IsTree(tree: map<Dir, Ino>) {
    [] in tree && PrefixClosed(tree) && OnePath(tree)
  }

  /** readdir lists exactly the subdirectories. */
  ghost predicate Lists(w: Walk, tree: map<Dir, Ino>) {
    forall d, n :: d in tree ==> (n in w.ls(d) <==> d + [n] in tree)
  }

  /** Watch descriptors are fresh and each belongs to one inode. */
  ghost predicate WdsOk(st: State) {
    && (forall i :: i in st.watches ==> st.watches[i] < st.nextWd)
    && (forall i, j :: SameWatch(st.watches, i, j) ==> i == j)
  }

  function Reach(tree: map<Dir, Ino>, w: Walk, d: Dir): set<Dir> {
    set c | c in tree && d <= c && Reaches(w, d, c)
  }

  function ReachAll(tree: map<Dir, Ino>, w: Walk, d: Dir, names: seq<Name>): set<Dir> {
    set c | c in tree && d < c && c[|d|] in names && Reaches(w, c[..|d| + 1], c)
  }

  /** Going from `s` to `t` watched exactly the directories of `reached`, each
      under its path, and disturbed nothing else. */
  ghost predicate Walked(s: State, t: State, reached: set<Dir>) {
    && t.tree == s.tree && t.queue == s.queue && s.nextWd <= t.nextWd
    && reached <= s.tree.Keys
    && (forall c :: c in reached ==>
          s.tree[c] in t.watches && t.watches[s.tree[c]] in t.table && t.table[t.watches[s.tree[c]]] == c)
    && (forall i :: i in s.watches ==> i in t.watches && t.watches[i] == s.watches[i])
    && (forall i :: i in t.watches && i !in s.watches ==>
          t.watches[i] >= s.nextWd && exists c :: c in reached && s.tree[c] == i)
    && (forall wd :: wd in s.table ==> wd in t.table)
    && (forall wd :: wd in t.table ==>
          (wd in s.table && t.table[wd] == s.table[wd]) ||
          (t.table[wd] in reached && t.watches[s.tree[t.table[wd]]] == wd))
  }

  lemma AddOneWalked(s: State, d: Dir)
    requires d in s.tree && WdsOk(s)
    ensures WdsOk(AddOne(s, d)) && Walked(s, AddOne(s, d), {d})
  {
    var t := AddOne(s, d);
    forall i, j | SameWatch(t.watches, i, j)
      ensures i == j
    {
      assert i in s.watches && j in s.watches ==> SameWatch(s.watches, i, j);
    }
    forall i | i in t.watches && i !in s.watches
      ensures t.watches[i] >= s.nextWd && exists c :: c in {d} && s.tree[c] == i
    {
      assert d in {d} && s.tree[d] == i;
    }
  }

  lemma NothingWalked(s: State)
    ensures Walked(s, s, {})
  {
  }

  lemma WalkedTrans(r: State, s: State, t: State, a: set<Dir>, b: set<Dir>)
    requires OnePath(r.tree) && WdsOk(t) && Walked(r, s, a) && Walked(s, t, b)
    ensures Walked(r, t, a + b)
  {
    forall c | c in a + b
      ensures r.tree[c] in t.watches && t.watches[r.tree[c]] in t.table && t.table[t.watches[r.tree[c]]] == c
    {
      if c in a {
        var wd := s.watches[r.tree[c]];
        assert wd in t.table && t.watches[r.tree[c]] == wd;
        var c' := t.table[wd];
        if c' != c {
          assert SameWatch(t.watches, r.tree[c], r.tree[c']);
          assert SameIno(r.tree, c, c');
        }
      }
    }
    forall i | i in t.watches && i !in r.watches
      ensures t.watches[i] >= r.nextWd && exists c :: c in a + b && r.tree[c] == i
    {
      if i in s.watches {
        var c :| c in a && r.tree[c] == i;
        assert c in a + b;
      } else {
        var c :| c in b && s.tree[c] == i;
        assert c in a + b;
      }
    }
  }

  lemma ReachSplit(tree: map<Dir, Ino>, w: Walk, d: Dir)
    requires d in tree && PrefixClosed(tree) && Lists(w, tree) && w.addOk(d)
    ensures Reach(tree, w, d) == {d} + if w.recursive && w.openOk(d) then ReachAll(tree, w, d, w.ls(d)) else {}
  {
    var deeper := w.recursive && w.openOk(d);
    var parts := {d} + if deeper then ReachAll(tree, w, d, w.ls(d)) else {};
    forall c | c in tree && d < c
      ensures c in Reach(tree, w, d) <==> c in parts
    {
      assert c[..|d| + 1] == d + [c[|d|]];
      assert c[..|d| + 1] in tree;
      assert c[|d|] in w.ls(d);
    }
    assert d in Reach(tree, w, d);
    forall c
      ensures c in Reach(tree, w, d) <==> c in parts
    {
    }
  }

  lemma ReachAllStep(tree: map<Dir, Ino>, w: Walk, d: Dir, front: seq<Name>, n: Name)
    requires PrefixClosed(tree)
    ensures ReachAll(tree, w, d, front + [n]) ==
      ReachAll(tree, w, d, front) + if d + [n] in tree then Reach(tree, w, d + [n]) else {}
  {
    var e := d + [n];
    forall c | c in tree && d < c && c[|d|] == n
      ensures c[..|d| + 1] == e && e <= c && e in tree
    {
      assert c[..|d| + 1] == e;
    }
    forall c | c in tree && e <= c
      ensures d < c && c[|d|] == n && c[..|d| + 1] == e
    {
    }
  }

  lemma WatchSubtreeUnfolds(st: State, d: Dir, w: Walk)
    requires d in st.tree && w.addOk(d)
    ensures WatchSubtree(st, d, w) ==
      if w.recursive && w.openOk(d) then WatchChildren(AddOne(st, d), d, w.ls(d), w) else AddOne(st, d)
  {
  }

  /** The walk terminates on every finite tree and watches exactly what it reaches. */
  lemma {:induction false} WalkWatches(st: State, d: Dir, w: Walk)
    requires IsTree(st.tree) && Lists(w, st.tree) && WdsOk(st)
    ensures WdsOk(WatchSubtree(st, d, w))
    ensures Walked(st, WatchSubtree(st, d, w), if d in st.tree then Reach(st.tree, w, d) else {})
    decreases Below(st.tree, d), 1, 0
  {
    if d !in st.tree || !w.addOk(d) {
      assert d in st.tree ==> Reach(st.tree, w, d) == {};
      NothingWalked(st);
    } else {
      var s := AddOne(st, d);
      AddOneWalked(st, d);
      ReachSplit(st.tree, w, d);
      WatchSubtreeUnfolds(st, d, w);
      if w.recursive && w.openOk(d) {
        ChildrenWatched(s, d, w.ls(d), w);
        WalkedTrans(st, s, WatchChildren(s, d, w.ls(d), w), {d}, ReachAll(st.tree, w, d, w.ls(d)));
      } else {
        SameSet(st, s, {d}, Reach(st.tree, w, d));
      }
    }
  }

  lemma SameSet(s: State, t: State, a: set<Dir>, b: set<Dir>)
    requires Walked(s, t, a) && b == a + {}
    ensures Walked(s, t, b)
  {
    assert a == b;
  }

  lemma {:induction false} ChildrenWatched(st: State, d: Dir, names: seq<Name>, w: Walk)
    requires IsTree(st.tree) && Lists(w, st.tree) && WdsOk(st)
    ensures WdsOk(WatchChildren(st, d, names, w))
    ensures Walked(st, WatchChildren(st, d, names, w), ReachAll(st.tree, w, d, names))
    decreases Below(st.tree, d), 0, |names|
  {
    if names == [] {
      assert ReachAll(st.tree, w, d, names) == {};
    } else {
      var front, n := names[..|names| - 1], names[|names| - 1];
      var s := WatchChildren(st, d, front, w);
      ChildrenWatched(st, d, front, w);
      assert names == front + [n];
      ReachAllStep(st.tree, w, d, front, n);
      if d + [n] in st.tree {
        ChildBelow(st.tree, d, n);
        WalkWatches(s, d + [n], w);
        WalkedTrans(st, s, WatchSubtree(s, d + [n], w),
          ReachAll(st.tree, w, d, front), Reach(st.tree, w, d + [n]));
      }
    }
  }

  /** In closed form: `c` is reached from `d` when every add from `d` down to `c`
      succeeded and every proper ancestor on the way could be opened. */
  lemma {:induction false} ReachesExactly(w: Walk, d: Dir, c: Dir)
    requires d <= c
    ensures Reaches(w, d, c) <==>
      && (forall k :: |d| <= k <= |c| ==> w.addOk(c[..k]))
      && (forall k :: |d| <= k < |c| ==> w.recursive && w.openOk(c[..k]))
    decreases |c| - |d|
  {
    assert c[..|d|] == d && c[..|c|] == c;
    if d != c {
      ReachesExactly(w, c[..|d| + 1], c);
    }
  }

  /** The watched set is ancestor-closed; complete when nothing fails; and only
      the root when not recursive. */
  lemma ReachShape(tree: map<Dir, Ino>, w: Walk, d: Dir)
    requires d in tree && PrefixClosed(tree)
    ensures forall c, k :: c in Reach(tree, w, d) && |d| <= k <= |c| ==> c[..k] in Reach(tree, w, d)
    ensures w.recursive && (forall c :: w.addOk(c) && w.openOk(c)) ==>
      Reach(tree, w, d) == set c | c in tree && d <= c
    ensures !w.recursive ==> Reach(tree, w, d) <= {d}
  {
    forall c, k | c in Reach(tree, w, d) && |d| <= k <= |c|
      ensures c[..k] in Reach(tree, w, d)
    {
      var e := c[..k];
      ReachesExactly(w, d, c);
      ReachesExactly(w, d, e);
      assert d <= e by {
        assert c[..|d|] == d && e[..|d|] == c[..|d|];
      }
      assert forall j :: |d| <= j <= k ==> e[..j] == c[..j];
    }
    forall c | c in tree && d <= c
      ensures w.recursive && (forall x :: w.addOk(x) && w.openOk(x)) ==> Reaches(w, d, c)
    {
      ReachesExactly(w, d, c);
    }
  }
}
