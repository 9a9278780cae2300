/** The Linux watcher's walk and its stale-watch sweep, in place: strings, the slot
    table and system calls, against the functions on component paths. */
module TreeWatchers {
  import opened Events
  import opened RelPaths
  import opened Inotify
  import opened WalkSpec
  import opened FileOps
  import opened TreeAgreement
  import opened WdSlots
  import opened WdTables
  import opened Kernels

  /** The strings in the table are the directories' paths. */
  ghost predicate Renders(dirs: map<Wd, Dir>, paths: map<nat, Path>) {
    dirs.Keys == paths.Keys && forall wd :: wd in dirs ==> paths[wd] == Render(dirs[wd])
  }

  // ---- the sweep's bookkeeping ---------------------------------------------------

  /** A live slot for a directory at or below `d`. */
  ghost predicate StaleSlot(s: seq<Slot>, j: nat, dirs: map<Wd, Dir>, d: Dir) {
    j < |s| && Key(s, j) >= 0 && Key(s, j) in dirs && d <= dirs[Key(s, j)]
  }

  /** `order` lists the stale descriptors of the first `i` slots, each once. */
  ghost predicate Swept(s: seq<Slot>, i: nat, dirs: map<Wd, Dir>, d: Dir, order: seq<Wd>) {
    && (forall wd :: wd in order ==> exists j: nat :: j < i && StaleSlot(s, j, dirs, d) && Key(s, j) == wd)
    && (forall j: nat :: j < i && StaleSlot(s, j, dirs, d) ==> Key(s, j) in order)
    && (forall a, b :: 0 <= a < b < |order| ==> order[a] != order[b])
  }

  lemma SweepNext(s: seq<Slot>, i: nat, dirs: map<Wd, Dir>, d: Dir, order: seq<Wd>)
    requires Unique(s) && i < |s| && Swept(s, i, dirs, d, order)
    ensures Swept(s, i + 1, dirs, d, if StaleSlot(s, i, dirs, d) then order + [Key(s, i)] else order)
  {
    if StaleSlot(s, i, dirs, d) {
      assert Key(s, i) !in order;
      var next := order + [Key(s, i)];
      assert forall wd :: wd in next <==> wd in order || wd == Key(s, i);
    }
  }

  lemma SweptAll(s: seq<Slot>, dirs: map<Wd, Dir>, d: Dir, order: seq<Wd>)
    requires Unique(s) && dirs.Keys == Entries(s).Keys && Swept(s, |s|, dirs, d, order)
    ensures Enumerates(order, Stale(dirs, d))
  {
    EntriesLists(s);
    forall wd | wd in Stale(dirs, d)
      ensures wd in order
    {
      var j: nat :| j < |s| && Key(s, j) == wd;
      assert StaleSlot(s, j, dirs, d);
    }
  }

  /** The string test on a slot is the test on its directory. */
  lemma StaleByString(s: seq<Slot>, i: nat, dirs: map<Wd, Dir>, d: Dir)
    requires Unique(s) && i < |s| && Renders(dirs, Entries(s)) && d != []
    ensures s[i].wd >= 0 && AtOrBelow(s[i].path, Render(d)) <==> StaleSlot(s, i, dirs, d)
  {
    EntriesLists(s);
    if s[i].wd >= 0 {
      assert Key(s, i) == s[i].wd;
      BelowMeansPrefix(dirs[s[i].wd], d);
    }
  }

  lemma RmAllNext(st: State, order: seq<Wd>, wd: Wd)
    ensures RmAll(st, order + [wd]) == RmWatch(RmAll(st, order), wd)
  {
    assert (order + [wd])[..|order|] == order;
  }

  /** inotify_add_watch, then inotify_rm_watch of the same descriptor: a watch that was
      there before is lost too. */
  function NotStored(st: State, d: Dir): State
    requires d in st.tree
  {
    var added := AddOne(st, d);
    RmWatch(added.(table := st.table), added.watches[st.tree[d]])
  }

  /** So no watch is left that has no entry, and its IN_IGNORED will come. */
  lemma GivenBack(st: State, d: Dir)
    requires d in st.tree && WdsOk(st)
    ensures var t := NotStored(st, d);
      && t.watches == st.watches - {st.tree[d]} && t.table == st.table
      && t.queue == st.queue + [Ignored(AddOne(st, d).watches[st.tree[d]])]
  {
    var added := AddOne(st, d);
    var ino := st.tree[d];
    AddOneWalked(st, d);
    assert forall i :: i in added.watches && added.watches[i] == added.watches[ino] ==> SameWatch(added.watches, i, ino);
  }

  class TreeWatcher {
    const root: Path
    const recursive: bool
    const kernel: Kernel
    const table: WdTable
    /** The directory each table entry stands for. */
    ghost var dirs: map<Wd, Dir>

    ghost predicate Valid()
      reads this, table, table.slots
    {
      table.Valid() && Renders(dirs, table.Contents())
    }

    /** The queue holds what was read and not looked at, then what was not read. */
    ghost function Abs(): State
      reads this, kernel
    {
      State(kernel.tree, kernel.watches, kernel.nextWd, kernel.inFlight + kernel.queue, dirs)
    }

    constructor (root: Path, recursive: bool, kernel: Kernel)
      ensures Valid() && fresh(table) && fresh(table.slots)
      ensures this.root == root && this.recursive == recursive && this.kernel == kernel && dirs == map[]
    {
      this.root, this.recursive, this.kernel := root, recursive, kernel;
      table := new WdTable();
      dirs := map[];
    }

    /** inotify_add_watch, seen from the watcher. */
    method AddWatchAt(rel: string, walk: Walk, ghost d: Dir) returns (wd: int)
      requires Valid() && rel == Render(d)
      modifies kernel`watches, kernel`nextWd
      ensures wd >= 0 <==> d in kernel.tree && walk.addOk(d)
      ensures wd < 0 ==> Abs() == old(Abs())
      ensures wd >= 0 ==>
        && kernel.tree[d] in kernel.watches && wd == kernel.watches[kernel.tree[d]]
        && Abs() == AddOne(old(Abs()), d).(table := dirs)
        && AddOne(old(Abs()), d).table == dirs[wd := d]
    {
      AbsPathLeads(root, d);
      wd := kernel.AddWatch(root, AbsPath(root, rel), walk, d);
    }

    /** The second half of add_one_watch: the entry, or without memory for it the
        descriptor is given back. */
    method StoreWatch(wd: Wd, rel: string, copyOk: bool, growOk: bool, ghost d: Dir) returns (ok: bool)
      requires Valid() && rel == Render(d)
      modifies this`dirs, kernel`watches, kernel`queue, table, table.slots
      ensures Valid() && (table.slots == old(table.slots) || fresh(table.slots))
      ensures (ok ==> copyOk) && (copyOk && growOk ==> ok)
      ensures ok ==> Abs() == old(Abs()).(table := old(dirs)[wd := d]) && kernel.queue == old(kernel.queue)
      ensures !ok ==> Abs() == RmWatch(old(Abs()), wd)
    {
      ok := false;
      if copyOk {
        ok := table.Put(wd, rel, growOk);
      }
      if ok {
        dirs := dirs[wd := d];
      } else {
        RmWatchAt(wd);
      }
    }

    /** add_one_watch; `copyOk` and `growOk` say whether there is memory for the path's
        copy and for a larger table. */
    method AddOneWatch(rel: string, walk: Walk, copyOk: bool, growOk: bool, ghost d: Dir) returns (ok: bool)
      requires Valid() && rel == Render(d)
      modifies this`dirs, kernel`watches, kernel`nextWd, kernel`queue, table, table.slots
      ensures Valid() && (table.slots == old(table.slots) || fresh(table.slots))
      ensures ok ==> d in kernel.tree && walk.addOk(d) && copyOk && kernel.queue == old(kernel.queue)
      ensures d in kernel.tree && walk.addOk(d) && copyOk && growOk ==> ok
      ensures Abs() ==
        if ok then AddOne(old(Abs()), d)
        else if d in kernel.tree && walk.addOk(d) then NotStored(old(Abs()), d)
        else old(Abs())
    {
      var wd := AddWatchAt(rel, walk, d);
      if wd < 0 {
        return false;
      }
      ok := StoreWatch(wd, rel, copyOk, growOk, d);
    }

    /** watch_subtree. */
    method WatchSubtree(rel: string, env: Env, ghost d: Dir)
      requires Valid() && rel == Render(d) && Listing(env) && env.walk.recursive == recursive
      modifies this`dirs, kernel`watches, kernel`nextWd, kernel`queue, table, table.slots
      ensures Valid() && (table.slots == old(table.slots) || fresh(table.slots))
      ensures Abs() == Inotify.WatchSubtree(old(Abs()), d, env.walk)
      decreases AtOrUnder(kernel.tree, d), 0
    {
      var ok := AddOneWatch(rel, env.walk, true, true, d);
      if !ok {
        return;
      }
      if recursive {
        assert d in AtOrUnder(kernel.tree, d) && Below(kernel.tree, d) <= AtOrUnder(kernel.tree, d) - {d};
        DescendAndWatch(rel, env, d);
      }
    }

    /** descend_and_watch. */
    method DescendAndWatch(rel: string, env: Env, ghost d: Dir)
      requires Valid() && rel == Render(d) && Listing(env) && env.walk.recursive == recursive
      requires d in kernel.tree
      modifies this`dirs, kernel`watches, kernel`nextWd, kernel`queue, table, table.slots
      ensures Valid() && (table.slots == old(table.slots) || fresh(table.slots))
      ensures Abs() == Inotify.DescendAndWatch(old(Abs()), d, env.walk)
      decreases Below(kernel.tree, d), 2
    {
      AbsPathLeads(root, d);
      var listing := kernel.OpenDir(root, AbsPath(root, rel), env, d);
      if listing == None {
        return;
      }
      var es := listing.value;
      ghost var was := Abs();
      assert es[..0] == [];
      for i := 0 to |es|
        invariant Valid() && (table.slots == old(table.slots) || fresh(table.slots))
        invariant Abs() == WatchChildren(was, d, Subdirs(es[..i]), env.walk)
      {
        SubdirsNext(es, i);
        ChildrenNext(was, d, Subdirs(es[..i]), es[i].name, env.walk);
        VisitEntry(es[i], rel, env, d);
      }
      assert es[..|es|] == es;
    }

    /** One turn of the readdir loop. */
    method VisitEntry(e: Dirent, rel: string, env: Env, ghost d: Dir)
      requires Valid() && rel == Render(d) && Listing(env) && env.walk.recursive == recursive
      modifies this`dirs, kernel`watches, kernel`nextWd, kernel`queue, table, table.slots
      ensures Valid() && (table.slots == old(table.slots) || fresh(table.slots))
      ensures Abs() == if Descends(e) then Inotify.WatchSubtree(old(Abs()), d + [e.name], env.walk) else old(Abs())
      decreases Below(kernel.tree, d), 1
    {
      if e.name == "." || e.name == ".." { return; }
      if e.kind == OtherKind { return; }
      if !e.joinOk { return; }
      var crel := Join(rel, e.name);
      JoinAppends(d, e.name);
      if e.kind.Unknown? {
        AbsPathLeads(root, d + [e.name]);
        var isDir := kernel.Lstat(root, AbsPath(root, crel), e, d);
        if !isDir { return; }
      }
      assert AtOrUnder(kernel.tree, d + [e.name]) <= Below(kernel.tree, d);
      WatchSubtree(crel, env, d + [e.name]);
    }

    lemma SubdirsNext(es: seq<Dirent>, i: nat)
      requires i < |es|
      ensures Subdirs(es[..i + 1]) == Subdirs(es[..i]) + if Descends(es[i]) then [es[i].name] else []
    {
      assert es[..i + 1][..i] == es[..i];
    }

    /** A name that is no directory changes nothing. */
    lemma ChildrenNext(st: State, d: Dir, names: seq<Name>, n: Name, walk: Walk)
      ensures WatchChildren(st, d, names + [n], walk) ==
        Inotify.WatchSubtree(WatchChildren(st, d, names, walk), d + [n], walk)
      ensures names + [] == names
    {
      assert (names + [n])[..|names|] == names;
    }

    /** inotify_rm_watch, seen from the watcher. */
    method RmWatchAt(wd: Wd)
      requires Valid()
      modifies kernel`watches, kernel`queue
      ensures Abs() == RmWatch(old(Abs()), wd)
    {
      ghost var q := kernel.inFlight + kernel.queue;
      kernel.Remove(wd);
      assert kernel.inFlight + (old(kernel.queue) + [Ignored(wd)]) == q + [Ignored(wd)];
    }

    /** The loop over all slots on IN_MOVED_FROM: the watches of `rel` and of everything
        below it are dropped, in slot order. */
    method Sweep(rel: string, ghost d: Dir) returns (ghost order: seq<Wd>)
      requires Valid() && rel == Render(d) && d != []
      modifies kernel`watches, kernel`queue
      ensures Enumerates(order, Stale(dirs, d))
      ensures Abs() == RmAll(old(Abs()), order)
    {
      order := [];
      ghost var was := Abs();
      ghost var s := table.slots[..];
      for i := 0 to table.slots.Length
        invariant Swept(s, i, dirs, d, order)
        invariant Abs() == RmAll(was, order)
      {
        StaleByString(s, i, dirs, d);
        SweepNext(s, i, dirs, d, order);
        if table.slots[i].wd >= 0 && AtOrBelow(table.slots[i].path, rel) {
          RmAllNext(was, order, table.slots[i].wd);
          RmWatchAt(table.slots[i].wd);
          order := order + [table.slots[i].wd];
        }
      }
      SweptAll(s, dirs, d, order);
    }

    /** IN_IGNORED: the entry goes. */
    method OnIgnored(wd: int)
      requires Valid() && wd >= 0
      modifies this`dirs, table, table.slots
      ensures Valid() && table.slots == old(table.slots)
      ensures Abs() == old(Abs()).(table := old(dirs) - {wd})
    {
      table.Remove(wd);
      dirs := dirs - {wd};
    }

    /** A record about an entry of a watched directory: the walk or the sweep that it
        asks for. */
    method OnEntry(rel: string, mask: nat, env: Env, ghost d: Dir) returns (ghost order: seq<Wd>)
      requires Valid() && rel == Render(d) && d != [] && Listing(env) && env.walk.recursive == recursive
      requires !(Bit(mask, IN_MOVED_FROM) && (Bit(mask, IN_CREATE) || Bit(mask, IN_MOVED_TO)))
      modifies this`dirs, kernel`watches, kernel`nextWd, kernel`queue, table, table.slots
      ensures Valid() && (table.slots == old(table.slots) || fresh(table.slots))
      ensures Enumerates(order, Stale(old(dirs), d))
      ensures Abs() ==
        if !recursive || !Bit(mask, IN_ISDIR) then old(Abs())
        else if Bit(mask, IN_CREATE) || Bit(mask, IN_MOVED_TO) then Inotify.WatchSubtree(old(Abs()), d, env.walk)
        else if Bit(mask, IN_MOVED_FROM) then RmAll(old(Abs()), order)
        else old(Abs())
    {
      order := SomeEnumeration(Stale(dirs, d));
      if recursive && Bit(mask, IN_ISDIR) {
        if Bit(mask, IN_CREATE) || Bit(mask, IN_MOVED_TO) {
          WatchSubtree(rel, env, d);
        }
        if Bit(mask, IN_MOVED_FROM) {
          order := Sweep(rel, d);
        }
      }
    }
  }
}
