/** Directory operations as the kernel performs and reports them, and one step of
    the consumer (filecat_next_event on one record). */
module FileOps {
  import opened Events
  import opened RelPaths
  import opened Inotify
  import opened WalkSpec

  // ---- trees --------------------------------------------------------------

  function Parent(d: Dir): Dir
    requires d != []
  {
    d[..|d| - 1]
  }

  function Last(d: Dir): Name
    requires d != []
  {
    d[|d| - 1]
  }

  /** The tree without `d` and what lies below it. */
  function Prune(tree: map<Dir, Ino>, d: Dir): map<Dir, Ino> {
    map c | c in tree && !(d <= c) :: tree[c]
  }

  /** The subtree at `d`, by paths relative to `d`. */
  function Sub(tree: map<Dir, Ino>, d: Dir): map<Dir, Ino> {
    var keys := set c | c in tree && d <= c :: c[|d|..];
    assert forall c :: d <= c ==> d + c[|d|..] == c;
    map x | x in keys :: tree[d + x]
  }

  /** The tree with `sub` hung at `e`. */
  function Graft(tree: map<Dir, Ino>, e: Dir, sub: map<Dir, Ino>): map<Dir, Ino> {
    var keys := set x | x in sub :: e + x;
    assert forall x: Dir :: (e + x)[|e|..] == x;
    tree + map c | c in keys :: sub[c[|e|..]]
  }

  /** The subtree of a directory just made. */
  function NewDir(ino: Ino): map<Dir, Ino> {
    map[[] := ino]
  }

  predicate Leaf(tree: map<Dir, Ino>, d: Dir) {
    Below(tree, d) == {}
  }

  // ---- the kernel ----------------------------------------------------------

  /** A record for the watch on directory `d`, if it is watched. */
  function Notify(st: State, d: Dir, change: Change, isDir: bool, name: Name, cookie: Id): State {
    if d in st.tree && st.tree[d] in st.watches then
      st.(queue := st.queue + [Named(st.watches[st.tree[d]], change, isDir, name, cookie)])
    else st
  }

  /** A record about the watched directory itself, without a name: IN_MOVE_SELF, IN_ATTRIB. */
  function NotifySelf(st: State, ino: Ino): State {
    if ino in st.watches then st.(queue := st.queue + [Self(st.watches[ino])]) else st
  }

  /** The inode dies: IN_DELETE_SELF, then IN_IGNORED, and its watch is gone. */
  function Forget(st: State, ino: Ino): State {
    if ino in st.watches then
      st.(queue := st.queue + [Self(st.watches[ino]), Ignored(st.watches[ino])], watches := st.watches - {ino})
    else st
  }

  /** What a user does to the watched tree. A rename may replace an empty directory, or a
      file; exchange renames are not included. */
  datatype Op =
    | Mkdir(d: Dir, ino: Ino)
    | Rmdir(d: Dir, parentFirst: bool)
    | Rename(d: Dir, e: Dir, cookie: Id)
    | MoveOut(d: Dir, cookie: Id)
    | MoveIn(e: Dir, sub: map<Dir, Ino>, cookie: Id)
    | FileChange(d: Dir, change: Change, name: Name, cookie: Id)
    | FileRename(d: Dir, name: Name, e: Dir, newName: Name, cookie: Id)
    | Chmod(d: Dir)

  /** `d` exists and is not the root. */
  predicate Movable(st: State, d: Dir) {
    d != [] && d in st.tree
  }

  /** A directory may appear at `e`: its parent exists, and `e` is free or empty. */
  predicate Destination(st: State, e: Dir) {
    e != [] && Parent(e) in st.tree && Leaf(st.tree, e)
  }

  ghost predicate Enabled(st: State, op: Op) {
    match op
    case Mkdir(d, ino) =>
      Destination(st, d) && d !in st.tree && ino !in st.tree.Values && ino !in st.watches
    case Rmdir(d, _) => Movable(st, d) && Leaf(st.tree, d)
    case Rename(d, e, cookie) => Movable(st, d) && Destination(st, e) && !(d <= e) && cookie != 0
    case MoveOut(d, cookie) => Movable(st, d) && cookie != 0
    case MoveIn(e, sub, cookie) =>
      && Destination(st, e) && IsTree(sub) && cookie != 0
      && sub.Values !! st.tree.Values && sub.Values !! st.watches.Keys
    case FileChange(d, _, _, _) => d in st.tree
    case FileRename(d, name, e, newName, cookie) =>
      d in st.tree && e in st.tree && (d != e || name != newName) && cookie != 0
    case Chmod(d) => d in st.tree
  }

  /** The inode a destination replaces, if any, dies. */
  function ForgetTarget(st: State, tree: map<Dir, Ino>, e: Dir): State {
    if e in tree then Forget(st, tree[e]) else st
  }

  function Apply(st: State, op: Op): State
    requires Enabled(st, op)
  {
    match op
    case Mkdir(d, ino) =>
      Notify(st.(tree := Graft(st.tree, d, NewDir(ino))), Parent(d), Create, true, Last(d), 0)
    case Rmdir(d, parentFirst) =>
      var s := st.(tree := Prune(st.tree, d));
      if parentFirst then Forget(Notify(s, Parent(d), Delete, true, Last(d), 0), st.tree[d])
      else Notify(Forget(s, st.tree[d]), Parent(d), Delete, true, Last(d), 0)
    case Rename(d, e, cookie) =>
      var s := st.(tree := Graft(Prune(Prune(st.tree, d), e), e, Sub(st.tree, d)));
      var from := Notify(s, Parent(d), MovedFrom, true, Last(d), cookie);
      var to := Notify(from, Parent(e), MovedTo, true, Last(e), cookie);
      ForgetTarget(NotifySelf(to, st.tree[d]), st.tree, e)
    case MoveOut(d, cookie) =>
      var s := st.(tree := Prune(st.tree, d));
      NotifySelf(Notify(s, Parent(d), MovedFrom, true, Last(d), cookie), st.tree[d])
    case MoveIn(e, sub, cookie) =>
      var s := st.(tree := Graft(Prune(st.tree, e), e, sub));
      ForgetTarget(Notify(s, Parent(e), MovedTo, true, Last(e), cookie), st.tree, e)
    case FileChange(d, change, name, cookie) =>
      Notify(st, d, change, false, name, cookie)
    case FileRename(d, name, e, newName, cookie) =>
      Notify(Notify(st, d, MovedFrom, false, name, cookie), e, MovedTo, false, newName, cookie)
    case Chmod(d) =>
      NotifySelf(if d == [] then st else Notify(st, Parent(d), Modify, true, Last(d), 0), st.tree[d])
  }

  // ---- the consumer ---------------------------------------------------------

  /** The event type reported for a record (map_inotify_mask). */
  function TypeOf(change: Change): int {
    match change
    case MovedFrom => RENAMED_OLD
    case MovedTo => RENAMED_NEW
    case Create => CREATED
    case Delete => REMOVED
    case Modify => MODIFIED
  }

  /** What the system does while one record is processed: the answers of a walk,
      and the slot order in which stale watches are visited. */
  datatype Choice = Choice(walk: Walk, order: seq<Wd>)

  /** One record taken off the queue; the event next_event reports for it, if any. */
  function Consume(st: State, c: Choice): (State, Option<RawEvent>)
    requires st.queue != []
  {
    var s := st.(queue := st.queue[1..]);
    match st.queue[0]
    case Ignored(wd) => (s.(table := s.table - {wd}), None)
    case Self(_) => (s, None)
    case Overflow => (s, None)
    case Named(wd, change, isDir, name, cookie) =>
      if wd !in s.table then (s, None)
      else
        var d := s.table[wd] + [name];
        var t :=
          if !c.walk.recursive || !isDir then s
          else if change == Create || change == MovedTo then WatchSubtree(s, d, c.walk)
          else if change == MovedFrom then RmAll(s, c.order)
          else s;
        (t, Some(RawEvent(TypeOf(change), Render(d), cookie)))
  }

  /** The watches whose path is `d` or below. */
  function Stale(table: map<Wd, Dir>, d: Dir): set<Wd> {
    set wd | wd in table && d <= table[wd]
  }

  /** A choice the system can make: complete listings, and every stale slot visited once. */
  ghost predicate Possible(st: State, c: Choice)
    requires st.queue != []
  {
    && Lists(c.walk, st.tree)
    && (st.queue[0].Named? && st.queue[0].wd in st.table && st.queue[0].change == MovedFrom ==>
          Enumerates(c.order, Stale(st.table, st.table[st.queue[0].wd] + [st.queue[0].name])))
  }

  /** A recursive watcher, and no add or open fails. */
  ghost predicate Smooth(w: Walk) {
    w.recursive && forall d :: w.addOk(d) && w.openOk(d)
  }
}
