/** The walks, sweeps and operations of the state model are runs of the ledger: what holds
    at the grain of single system calls holds for them. */
module LedgerRuns {
  import opened Events
  import opened RelPaths
  import opened Inotify
  import opened WalkSpec
  import opened FileOps
  import TW = TreeWatchers
  import L = WatchLedger

  /** A state with the consumer idle and nothing ever failed. */
  function LedgerOf(st: State): L.Ledger {
    L.Ledger(st.watches, st.nextWd, st.queue, st.table, L.Idle, {}, {})
  }

  /** Some run without failures leads from one to the other. */
  ghost predicate Leads(l: L.Ledger, m: L.Ledger) {
    exists ss :: L.CanRun(l, ss) && L.Clean(ss) && L.Run(l, ss) == m
  }

  lemma LeadsNowhere(l: L.Ledger)
    ensures Leads(l, l)
  {
    assert L.CanRun(l, []) && L.Clean([]) && L.Run(l, []) == l;
  }

  lemma LeadsFirst(l: L.Ledger, s: L.Step, m: L.Ledger)
    requires L.Enabled(l, s) && L.Clean([s]) && Leads(L.Do(l, s), m)
    ensures Leads(l, m)
  {
    var ss :| L.CanRun(L.Do(l, s), ss) && L.Clean(ss) && L.Run(L.Do(l, s), ss) == m;
    var all := [s] + ss;
    assert all[1..] == ss;
    assert forall x :: x in all ==> x in [s] || x in ss;
    assert L.CanRun(l, all) && L.Run(l, all) == m;
  }

  lemma LeadsOne(l: L.Ledger, s: L.Step)
    requires L.Enabled(l, s) && L.Clean([s])
    ensures Leads(l, L.Do(l, s))
  {
    LeadsNowhere(L.Do(l, s));
    LeadsFirst(l, s, L.Do(l, s));
  }

  lemma {:induction false} RunConcat(l: L.Ledger, ss: seq<L.Step>, ts: seq<L.Step>)
    requires L.CanRun(l, ss) && L.CanRun(L.Run(l, ss), ts)
    ensures L.CanRun(l, ss + ts) && L.Run(l, ss + ts) == L.Run(L.Run(l, ss), ts)
    decreases |ss|
  {
    if ss == [] {
      assert ss + ts == ts;
    } else {
      assert (ss + ts)[1..] == ss[1..] + ts;
      RunConcat(L.Do(l, ss[0]), ss[1..], ts);
    }
  }

  lemma LeadsOn(l: L.Ledger, m: L.Ledger, n: L.Ledger)
    requires Leads(l, m) && Leads(m, n)
    ensures Leads(l, n)
  {
    var ss :| L.CanRun(l, ss) && L.Clean(ss) && L.Run(l, ss) == m;
    var ts :| L.CanRun(m, ts) && L.Clean(ts) && L.Run(m, ts) == n;
    RunConcat(l, ss, ts);
    assert forall x :: x in ss + ts ==> x in ss || x in ts;
    assert L.Clean(ss + ts);
  }

  // ---- the consumer ----------------------------------------------------------------

  /** One add: the system call, then the entry. */
  lemma AddLeads(st: State, d: Dir)
    requires d in st.tree
    ensures Leads(LedgerOf(st), LedgerOf(AddOne(st, d)))
  {
    var l := LedgerOf(st);
    var m := L.Do(l, L.AddWatch(st.tree[d]));
    assert L.Do(m, L.Store(d)) == LedgerOf(AddOne(st, d));
    LeadsOne(m, L.Store(d));
    LeadsFirst(l, L.AddWatch(st.tree[d]), LedgerOf(AddOne(st, d)));
  }

  /** An add whose entry finds no memory: the descriptor is given back, and the ledger counts
      it as an orphan until its IN_IGNORED is read, unless the inode had an entry before. */
  lemma NotStoredIsARun(st: State, d: Dir)
    requires d in st.tree
    ensures var wd := AddOne(st, d).watches[st.tree[d]];
      var ss := [L.AddWatch(st.tree[d]), L.StoreFails, L.RmWatch(wd, true)];
      L.CanRun(LedgerOf(st), ss) && L.Run(LedgerOf(st), ss) ==
        LedgerOf(TW.NotStored(st, d)).(orphans := if wd in st.table then {} else {wd})
  {
    var l, wd := LedgerOf(st), AddOne(st, d).watches[st.tree[d]];
    var a := L.Do(l, L.AddWatch(st.tree[d]));
    var b := L.Do(a, L.StoreFails);
    var c := L.Do(b, L.RmWatch(wd, true));
    var ss := [L.AddWatch(st.tree[d]), L.StoreFails, L.RmWatch(wd, true)];
    var s2 := [L.StoreFails, L.RmWatch(wd, true)];
    var s3 := [L.RmWatch(wd, true)];
    assert ss[1..] == s2 && s2[1..] == s3 && s3[1..] == [];
    assert L.CanRun(b, s3) && L.Run(b, s3) == c;
    assert L.CanRun(a, s2) && L.Run(a, s2) == c;
    assert L.CanRun(l, ss) && L.Run(l, ss) == c;
  }

  lemma {:induction false} WalkLeads(st: State, d: Dir, w: Walk)
    ensures Leads(LedgerOf(st), LedgerOf(WatchSubtree(st, d, w)))
    decreases Below(st.tree, d), 2, 0
  {
    if d !in st.tree || !w.addOk(d) {
      LeadsNowhere(LedgerOf(st));
    } else {
      var s := AddOne(st, d);
      AddLeads(st, d);
      if w.recursive {
        DescendLeads(s, d, w);
        LeadsOn(LedgerOf(st), LedgerOf(s), LedgerOf(DescendAndWatch(s, d, w)));
      }
    }
  }

  lemma {:induction false} DescendLeads(st: State, d: Dir, w: Walk)
    ensures Leads(LedgerOf(st), LedgerOf(DescendAndWatch(st, d, w)))
    decreases Below(st.tree, d), 1, 0
  {
    if w.openOk(d) {
      ChildrenLead(st, d, w.ls(d), w);
    } else {
      LeadsNowhere(LedgerOf(st));
    }
  }

  lemma {:induction false} ChildrenLead(st: State, d: Dir, names: seq<Name>, w: Walk)
    ensures Leads(LedgerOf(st), LedgerOf(WatchChildren(st, d, names, w)))
    decreases Below(st.tree, d), 0, |names|
  {
    if names == [] {
      LeadsNowhere(LedgerOf(st));
    } else {
      var front := WatchChildren(st, d, names[..|names| - 1], w);
      var c := d + [names[|names| - 1]];
      ChildrenLead(st, d, names[..|names| - 1], w);
      if c in st.tree {
        ChildBelow(st.tree, d, names[|names| - 1]);
        WalkLeads(front, c, w);
        LeadsOn(LedgerOf(st), LedgerOf(front), LedgerOf(WatchSubtree(front, c, w)));
      }
    }
  }

  lemma {:induction false} RmAllKeepsTable(st: State, order: seq<Wd>)
    ensures RmAll(st, order).table == st.table
  {
    if order != [] {
      RmAllKeepsTable(st, order[..|order| - 1]);
    }
  }

  lemma {:induction false} SweepLeads(st: State, order: seq<Wd>)
    requires forall wd :: wd in order ==> wd in st.table
    ensures Leads(LedgerOf(st), LedgerOf(RmAll(st, order)))
  {
    if order == [] {
      LeadsNowhere(LedgerOf(st));
    } else {
      var front, wd := order[..|order| - 1], order[|order| - 1];
      var s := RmAll(st, front);
      assert wd in order && order == front + [wd];
      SweepLeads(st, front);
      RmAllKeepsTable(st, front);
      assert L.Do(LedgerOf(s), L.RmWatch(wd, true)) == LedgerOf(RmWatch(s, wd));
      LeadsOne(LedgerOf(s), L.RmWatch(wd, true));
      LeadsOn(LedgerOf(st), LedgerOf(s), LedgerOf(RmAll(st, order)));
    }
  }

  /** Processing one record, with the walk or the sweep it asks for. */
  lemma ConsumeIsARun(st: State, c: Choice)
    requires st.queue != [] && Possible(st, c)
    ensures Leads(LedgerOf(st), LedgerOf(Consume(st, c).0))
  {
    var s := st.(queue := st.queue[1..]);
    var l, m := LedgerOf(st), L.Do(LedgerOf(st), L.Next);
    LeadsOne(l, L.Next);
    match st.queue[0]
    case Ignored(wd) => assert m == LedgerOf(Consume(st, c).0);
    case Named(wd, change, isDir, name, cookie) =>
      assert m == LedgerOf(s);
      if wd in s.table && c.walk.recursive && isDir {
        var d := s.table[wd] + [name];
        if change == Create || change == MovedTo {
          WalkLeads(s, d, c.walk);
          LeadsOn(l, m, LedgerOf(WatchSubtree(s, d, c.walk)));
        } else if change == MovedFrom {
          SweepLeads(s, c.order);
          LeadsOn(l, m, LedgerOf(RmAll(s, c.order)));
        }
      }
    case _ => assert m == LedgerOf(s);
  }

  // ---- the kernel ------------------------------------------------------------------

  lemma NotifyLeads(st: State, d: Dir, change: Change, isDir: bool, name: Name, cookie: Id)
    ensures Leads(LedgerOf(st), LedgerOf(Notify(st, d, change, isDir, name, cookie)))
  {
    LeadsNowhere(LedgerOf(st));
    if d in st.tree && st.tree[d] in st.watches {
      LeadsOne(LedgerOf(st), L.Reports(Named(st.watches[st.tree[d]], change, isDir, name, cookie)));
    }
  }

  lemma NotifySelfLeads(st: State, ino: Ino)
    ensures Leads(LedgerOf(st), LedgerOf(NotifySelf(st, ino)))
  {
    LeadsNowhere(LedgerOf(st));
    if ino in st.watches {
      LeadsOne(LedgerOf(st), L.Reports(Self(st.watches[ino])));
    }
  }

  lemma ForgetLeads(st: State, ino: Ino)
    requires WdsOk(st)
    ensures Leads(LedgerOf(st), LedgerOf(Forget(st, ino)))
  {
    LeadsNowhere(LedgerOf(st));
    if ino in st.watches {
      var wd := st.watches[ino];
      assert forall i :: i in st.watches && st.watches[i] == wd ==> SameWatch(st.watches, i, ino);
      assert (map i | i in st.watches && st.watches[i] != wd :: st.watches[i]) == st.watches - {ino};
      assert (st.queue + [Self(wd)]) + [Ignored(wd)] == st.queue + [Self(wd), Ignored(wd)];
      LeadsOne(LedgerOf(st), L.Dies(ino, true));
    }
  }

  lemma ForgetTargetLeads(st: State, tree: map<Dir, Ino>, e: Dir)
    requires WdsOk(st)
    ensures Leads(LedgerOf(st), LedgerOf(ForgetTarget(st, tree, e)))
  {
    if e in tree {
      ForgetLeads(st, tree[e]);
    } else {
      LeadsNowhere(LedgerOf(st));
    }
  }

  lemma MoveLeads(st: State, d: Dir, n: Name, isDir: bool, e: Dir, m: Name, cookie: Id)
    ensures Leads(LedgerOf(st),
      LedgerOf(Notify(Notify(st, d, MovedFrom, isDir, n, cookie), e, MovedTo, isDir, m, cookie)))
  {
    var from := Notify(st, d, MovedFrom, isDir, n, cookie);
    NotifyLeads(st, d, MovedFrom, isDir, n, cookie);
    NotifyLeads(from, e, MovedTo, isDir, m, cookie);
    LeadsOn(LedgerOf(st), LedgerOf(from), LedgerOf(Notify(from, e, MovedTo, isDir, m, cookie)));
  }

  /** A rename: the two halves, the record about the directory itself, and the end of what
      it replaces. */
  lemma RenameLeads(st: State, d: Dir, e: Dir, cookie: Id)
    requires WdsOk(st) && Enabled(st, Rename(d, e, cookie))
    ensures Leads(LedgerOf(st), LedgerOf(Apply(st, Rename(d, e, cookie))))
  {
    var s := st.(tree := Graft(Prune(Prune(st.tree, d), e), e, Sub(st.tree, d)));
    var to := Notify(Notify(s, Parent(d), MovedFrom, true, Last(d), cookie), Parent(e), MovedTo, true, Last(e), cookie);
    var self := NotifySelf(to, st.tree[d]);
    assert LedgerOf(s) == LedgerOf(st);
    MoveLeads(s, Parent(d), Last(d), true, Parent(e), Last(e), cookie);
    NotifySelfLeads(to, st.tree[d]);
    LeadsOn(LedgerOf(st), LedgerOf(to), LedgerOf(self));
    ForgetTargetLeads(self, st.tree, e);
    LeadsOn(LedgerOf(st), LedgerOf(self), LedgerOf(ForgetTarget(self, st.tree, e)));
  }

  lemma RmdirLeads(st: State, d: Dir, parentFirst: bool)
    requires WdsOk(st) && Enabled(st, Rmdir(d, parentFirst))
    ensures Leads(LedgerOf(st), LedgerOf(Apply(st, Rmdir(d, parentFirst))))
  {
    var s := st.(tree := Prune(st.tree, d));
    assert LedgerOf(s) == LedgerOf(st);
    if parentFirst {
      var told := Notify(s, Parent(d), Delete, true, Last(d), 0);
      NotifyLeads(s, Parent(d), Delete, true, Last(d), 0);
      ForgetLeads(told, st.tree[d]);
      LeadsOn(LedgerOf(st), LedgerOf(told), LedgerOf(Forget(told, st.tree[d])));
    } else {
      var gone := Forget(s, st.tree[d]);
      ForgetLeads(s, st.tree[d]);
      NotifyLeads(gone, Parent(d), Delete, true, Last(d), 0);
      LeadsOn(LedgerOf(st), LedgerOf(gone), LedgerOf(Notify(gone, Parent(d), Delete, true, Last(d), 0)));
    }
  }

  lemma MoveInLeads(st: State, e: Dir, sub: map<Dir, Ino>, cookie: Id)
    requires WdsOk(st) && Enabled(st, MoveIn(e, sub, cookie))
    ensures Leads(LedgerOf(st), LedgerOf(Apply(st, MoveIn(e, sub, cookie))))
  {
    var s := st.(tree := Graft(Prune(st.tree, e), e, sub));
    var told := Notify(s, Parent(e), MovedTo, true, Last(e), cookie);
    assert LedgerOf(s) == LedgerOf(st);
    NotifyLeads(s, Parent(e), MovedTo, true, Last(e), cookie);
    ForgetTargetLeads(told, st.tree, e);
    LeadsOn(LedgerOf(st), LedgerOf(told), LedgerOf(ForgetTarget(told, st.tree, e)));
  }

  lemma MoveOutLeads(st: State, d: Dir, cookie: Id)
    requires Enabled(st, MoveOut(d, cookie))
    ensures Leads(LedgerOf(st), LedgerOf(Apply(st, MoveOut(d, cookie))))
  {
    var s := st.(tree := Prune(st.tree, d));
    var told := Notify(s, Parent(d), MovedFrom, true, Last(d), cookie);
    assert LedgerOf(s) == LedgerOf(st);
    NotifyLeads(s, Parent(d), MovedFrom, true, Last(d), cookie);
    NotifySelfLeads(told, st.tree[d]);
    LeadsOn(LedgerOf(st), LedgerOf(told), LedgerOf(NotifySelf(told, st.tree[d])));
  }

  lemma ChmodLeads(st: State, d: Dir)
    requires d in st.tree
    ensures Leads(LedgerOf(st), LedgerOf(Apply(st, Chmod(d))))
  {
    var told := if d == [] then st else Notify(st, Parent(d), Modify, true, Last(d), 0);
    LeadsNowhere(LedgerOf(st));
    if d != [] {
      NotifyLeads(st, Parent(d), Modify, true, Last(d), 0);
    }
    NotifySelfLeads(told, st.tree[d]);
    LeadsOn(LedgerOf(st), LedgerOf(told), LedgerOf(NotifySelf(told, st.tree[d])));
  }

  /** Whatever is done to the tree. */
  lemma OperationIsARun(st: State, op: Op)
    requires WdsOk(st) && Enabled(st, op)
    ensures Leads(LedgerOf(st), LedgerOf(Apply(st, op)))
  {
    match op
    case Mkdir(d, ino) =>
      NotifyLeads(st.(tree := Graft(st.tree, d, NewDir(ino))), Parent(d), Create, true, Last(d), 0);
    case Rmdir(d, parentFirst) => RmdirLeads(st, d, parentFirst);
    case Rename(d, e, cookie) => RenameLeads(st, d, e, cookie);
    case MoveOut(d, cookie) => MoveOutLeads(st, d, cookie);
    case MoveIn(e, sub, cookie) => MoveInLeads(st, e, sub, cookie);
    case FileChange(d, change, name, cookie) => NotifyLeads(st, d, change, false, name, cookie);
    case FileRename(d, name, e, newName, cookie) => MoveLeads(st, d, name, false, e, newName, cookie);
    case Chmod(d) => ChmodLeads(st, d);
  }
}
