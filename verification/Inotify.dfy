/** The kernel's side (directory tree, inotify watches, event queue), the watch
    table on component paths, and the recursive walk that fills it. */
module Inotify {
  import opened Events
  import opened RelPaths

  type Ino = nat
  type Wd = nat

  datatype Change = Create | Delete | Modify | MovedFrom | MovedTo

  /** One inotify record. Self events carry no name. */
  datatype KEvent =
    | Ignored(wd: Wd)
    | Self(wd: Wd)
    | Named(wd: Wd, change: Change, isDir: bool, name: Name, cookie: Id)
    | Overflow

  /** `tree` holds the directories below the watched root ([] is the root);
      `watches` the live watch of each watched inode; `queue` the records not
      yet consumed; `table` the watcher's wd -> path map. */
  datatype State = State(
    tree: map<Dir, Ino>,
    watches: map<Ino, Wd>,
    nextWd: Wd,
    queue: seq<KEvent>,
    table: map<Wd, Dir>)

  /** What the system answers during one walk: which adds and opens succeed, and
      the order in which readdir lists the subdirectories. */
  datatype Walk = Walk(recursive: bool, addOk: Dir -> bool, openOk: Dir -> bool, ls: Dir -> seq<Name>)

  // ---- system calls ------------------------------------------------------

  /** inotify_add_watch, then wd_map_put: an inode already watched keeps its wd. */
  function AddOne(st: State, d: Dir): (r: State)
    requires d in st.tree
    ensures r.tree == st.tree
  {
    var ino := st.tree[d];
    if ino in st.watches then st.(table := st.table[st.watches[ino] := d])
    else st.(watches := st.watches[ino := st.nextWd], nextWd := st.nextWd + 1, table := st.table[st.nextWd := d])
  }

  /** inotify_rm_watch: the watch dies and IN_IGNORED is queued; an unknown wd is EINVAL. */
  function RmWatch(st: State, wd: Wd): State {
    if wd in st.watches.Values then
      st.(watches := map i | i in st.watches && st.watches[i] != wd :: st.watches[i],
          queue := st.queue + [Ignored(wd)])
    else st
  }

  function RmAll(st: State, order: seq<Wd>): State {
    if order == [] then st else RmWatch(RmAll(st, order[..|order| - 1]), order[|order| - 1])
  }

  // ---- the walk ----------------------------------------------------------

  /** The directories strictly below `d`. */
  function Below(tree: map<Dir, Ino>, d: Dir): set<Dir> {
    set c | c in tree && d < c
  }

  lemma ChildBelow(tree: map<Dir, Ino>, d: Dir, n: Name)
    requires d + [n] in tree
    ensures Below(tree, d + [n]) < Below(tree, d)
  {
    assert d + [n] in Below(tree, d) && d + [n] !in Below(tree, d + [n]);
  }

  function WatchSubtree(st: State, d: Dir, w: Walk): (r: State)
    ensures r.tree == st.tree
    decreases Below(st.tree, d), 2, 0
  {
    if d !in st.tree || !w.addOk(d) then st
    else if w.recursive then DescendAndWatch(AddOne(st, d), d, w)
    else AddOne(st, d)
  }

  function DescendAndWatch(st: State, d: Dir, w: Walk): (r: State)
    ensures r.tree == st.tree
    decreases Below(st.tree, d), 1, 0
  {
    if w.openOk(d) then WatchChildren(st, d, w.ls(d), w) else st
  }

  function WatchChildren(st: State, d: Dir, names: seq<Name>, w: Walk): (r: State)
    ensures r.tree == st.tree
    decreases Below(st.tree, d), 0, |names|
  {
    if names == [] then st
    else
      var front := WatchChildren(st, d, names[..|names| - 1], w);
      var c := d + [names[|names| - 1]];
      if c in st.tree then
        ChildBelow(st.tree, d, names[|names| - 1]);
        WatchSubtree(front, c, w)
      else front
  }
}
