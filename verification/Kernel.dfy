/** The system calls the Linux watcher makes, and the record format it reads. */
module Kernels {
  import opened Events
  import opened RelPaths
  import opened Inotify
  import opened WalkSpec
  import opened FileOps
  import opened Framing

  // ---- masks -------------------------------------------------------------------

  const IN_MOVED_FROM := 0x40
  const IN_MOVED_TO := 0x80
  const IN_CREATE := 0x100
  const IN_DELETE := 0x200
  const IN_Q_OVERFLOW := 0x4000
  const IN_IGNORED := 0x8000
  const IN_ISDIR := 0x4000_0000

  /** `mask & bit`, for a single bit. */
  predicate Bit(mask: nat, bit: nat)
    requires bit > 0
  {
    mask / bit % 2 == 1
  }

  /** map_inotify_mask: the first flag that matches decides, and what has none of the four
      is MODIFIED, with or without IN_MODIFY or IN_ATTRIB. */
  function MapMask(mask: nat): int {
    if Bit(mask, IN_MOVED_FROM) then RENAMED_OLD
    else if Bit(mask, IN_MOVED_TO) then RENAMED_NEW
    else if Bit(mask, IN_CREATE) then CREATED
    else if Bit(mask, IN_DELETE) then REMOVED
    else MODIFIED
  }

  /** The record the kernel writes for an event. A record about an entry carries one
      change, whatever else its mask says. */
  predicate Represents(r: Record, ev: KEvent) {
    match ev
    case Overflow => Bit(r.mask, IN_Q_OVERFLOW)
    case Ignored(wd) => !Bit(r.mask, IN_Q_OVERFLOW) && Bit(r.mask, IN_IGNORED) && r.wd == wd
    case Self(wd) => !Bit(r.mask, IN_Q_OVERFLOW) && !Bit(r.mask, IN_IGNORED) && r.wd == wd && r.name == ""
    case Named(wd, change, isDir, name, cookie) =>
      && !Bit(r.mask, IN_Q_OVERFLOW) && !Bit(r.mask, IN_IGNORED)
      && r.wd == wd && r.name == name && r.cookie == cookie
      && Bit(r.mask, IN_ISDIR) == isDir
      && Bit(r.mask, IN_MOVED_FROM) == (change == MovedFrom)
      && Bit(r.mask, IN_MOVED_TO) == (change == MovedTo)
      && Bit(r.mask, IN_CREATE) == (change == Create)
      && Bit(r.mask, IN_DELETE) == (change == Delete)
  }

  /** The type reported is the one the change stands for. */
  lemma MaskRoundTrip(r: Record, ev: KEvent)
    requires ev.Named? && Represents(r, ev)
    ensures MapMask(r.mask) == TypeOf(ev.change)
  {
  }

  /** Of several flags the first of this order decides. */
  lemma FlagOrder(mask: nat)
    ensures mask / 64 % 2 == 1 ==> MapMask(mask) == RENAMED_OLD
    ensures mask / 64 % 2 == 0 && mask / 128 % 2 == 1 ==> MapMask(mask) == RENAMED_NEW
    ensures mask / 64 % 2 == 0 && mask / 128 % 2 == 0 && mask / 256 % 2 == 1 ==> MapMask(mask) == CREATED
    ensures mask / 64 % 2 == 0 && mask / 128 % 2 == 0 && mask / 256 % 2 == 0 ==>
      MapMask(mask) == if mask / 512 % 2 == 1 then REMOVED else MODIFIED
  {
  }

  /** The flags are those of the kernel's interface. */
  lemma FlagValues(rest: nat)
    requires rest < 0x40
    ensures MapMask(0x40) == MapMask(0x40 + rest) == MapMask(0x4000_0040 + rest) == RENAMED_OLD
    ensures MapMask(0x80) == MapMask(0x80 + rest) == MapMask(0x4000_0080 + rest) == RENAMED_NEW
    ensures MapMask(0x100) == MapMask(0x100 + rest) == MapMask(0x4000_0100 + rest) == CREATED
    ensures MapMask(0x200) == MapMask(0x200 + rest) == MapMask(0x4000_0200 + rest) == REMOVED
    ensures MapMask(rest) == MapMask(0x4000_0000 + rest) == MODIFIED
    ensures Bit(0x4000, IN_Q_OVERFLOW) && Bit(0x8000, IN_IGNORED) && Bit(0x4000_0000, IN_ISDIR)
    ensures !Bit(0x8000, IN_Q_OVERFLOW) && !Bit(0x4000, IN_IGNORED)
    ensures !Bit(0x4000_0000 + rest, IN_Q_OVERFLOW) && !Bit(0x4000_0000 + rest, IN_IGNORED) && !Bit(0x3FF, IN_ISDIR)
  {
  }

  /** What the flags tell apart. */
  lemma RecordKind(r: Record, ev: KEvent)
    requires Represents(r, ev)
    ensures Bit(r.mask, IN_Q_OVERFLOW) <==> ev.Overflow?
    ensures !ev.Overflow? ==> (Bit(r.mask, IN_IGNORED) <==> ev.Ignored?) && r.wd == ev.wd
    ensures !ev.Overflow? && !ev.Ignored? ==> (r.name == "" <==> ev.Self?)
  {
  }

  // ---- paths and listings ------------------------------------------------------

  /** build_abs_path. */
  function AbsPath(root: Path, rel: string): Path {
    if rel == "" then root else if root == "/" then root + rel else root + "/" + rel
  }

  /** The length of the first component. */
  function Head(p: string): (n: nat)
    ensures n <= |p| && '/' !in p[..n] && (n < |p| ==> p[n] == '/')
  {
    if p == "" || p[0] == '/' then 0
    else
      var n := Head(p[1..]);
      assert p[..1 + n] == [p[0]] + p[1..][..n];
      1 + n
  }

  /** How a path is walked: its components, empty ones skipped. */
  function Components(p: string): seq<string>
    decreases |p|
  {
    if p == "" then []
    else if p[0] == '/' then Components(p[1..])
    else [p[..Head(p)]] + Components(p[Head(p)..])
  }

  lemma {:induction false} HeadOf(a: string, b: string)
    requires a != "" && '/' !in a && (b == "" || b[0] == '/')
    ensures Head(a + b) == |a|
  {
    assert (a + b)[1..] == a[1..] + b && a[0] in a;
    if |a| > 1 {
      HeadOf(a[1..], b);
    } else {
      assert a[1..] + b == b;
    }
  }

  lemma FirstComponent(a: string, b: string)
    requires a != "" && '/' !in a && (b == "" || b[0] == '/')
    ensures Components(a + b) == [a] + Components(b)
  {
    HeadOf(a, b);
    assert (a + b)[..|a|] == a && (a + b)[|a|..] == b;
    assert (a + b)[0] == a[0] && a[0] in a;
  }

  /** A separator is where one walk ends and the next begins. */
  lemma {:induction false} ComponentsJoin(x: string, y: string)
    ensures Components(x + "/" + y) == Components(x) + Components(y)
    decreases |x|
  {
    if x == "" {
      assert (x + "/" + y)[1..] == y;
    } else if x[0] == '/' {
      assert (x + "/" + y)[1..] == x[1..] + "/" + y;
      ComponentsJoin(x[1..], y);
    } else {
      var a, rest := x[..Head(x)], x[Head(x)..];
      assert x + "/" + y == a + (rest + "/" + y);
      assert x == a + rest;
      FirstComponent(a, rest + "/" + y);
      FirstComponent(a, rest);
      ComponentsJoin(rest, y);
    }
  }

  /** A rendered directory has its own components. */
  lemma {:induction false} ComponentsRender(d: Dir)
    ensures Components(Render(d)) == d
  {
    if d != [] {
      FirstComponent(d[0], "");
      assert d[0] + "" == d[0];
      if |d| > 1 {
        ComponentsRender(d[1..]);
        ComponentsJoin(d[0], Render(d[1..]));
      }
    }
  }

  /** The path built for a directory leads to it: down the root's components, and then its
      own. */
  lemma AbsPathLeads(root: Path, d: Dir)
    ensures Components(AbsPath(root, Render(d))) == Components(root) + d
  {
    var r := Render(d);
    ComponentsRender(d);
    if r != "" {
      ComponentsJoin(root, r);
      if root == "/" {
        assert (root + r)[1..] == r;
      }
    } else {
      RenderInjective(d, []);
    }
  }

  /** As realpath leaves a path: absolute, no empty component, no slash at the end. */
  predicate Canonical(p: string) {
    && p != "" && p[0] == '/'
    && (forall i :: 0 <= i < |p| - 1 && p[i] == '/' ==> p[i + 1] != '/')
    && (p != "/" ==> p[|p| - 1] != '/')
  }

  /** Starts and ends in a name, with single slashes in between. */
  predicate RelativePath(r: string) {
    && r != "" && r[0] != '/' && r[|r| - 1] != '/'
    && (forall i :: 0 <= i < |r| - 1 && r[i] == '/' ==> r[i + 1] != '/')
  }

  lemma {:induction false} RenderIsRelative(d: Dir)
    requires d != []
    ensures RelativePath(Render(d))
  {
    var n := d[0];
    assert n[0] in n && n[|n| - 1] in n;
    assert forall i :: 0 <= i < |n| ==> n[i] in n;
    if |d| > 1 {
      var rest, r := Render(d[1..]), Render(d);
      RenderIsRelative(d[1..]);
      assert r == n + "/" + rest;
      forall i | 0 <= i < |r| - 1 && r[i] == '/'
        ensures r[i + 1] != '/'
      {
        assert i >= |n|;
        assert i > |n| ==> rest[i - |n| - 1] == r[i];
      }
    }
  }

  /** No slash is doubled, also below the file system's root. */
  lemma AbsPathCanonical(root: Path, d: Dir)
    requires Canonical(root)
    ensures Canonical(AbsPath(root, Render(d)))
  {
    var r, p := Render(d), AbsPath(root, Render(d));
    if d != [] {
      RenderIsRelative(d);
      var skip := if root == "/" then |root| else |root| + 1;
      assert forall i :: 0 <= i < |root| ==> p[i] == root[i];
      assert forall i :: skip <= i < |p| ==> p[i] == r[i - skip];
    }
  }

  /** A path names one directory. */
  lemma AbsPathInjective(root: Path, d: Dir, e: Dir)
    requires AbsPath(root, Render(d)) == AbsPath(root, Render(e))
    ensures d == e
  {
    AbsPathLeads(root, d);
    AbsPathLeads(root, e);
    assert (Components(root) + d)[|Components(root)|..] == d;
    assert (Components(root) + e)[|Components(root)|..] == e;
  }

  datatype Kind = Directory | Unknown(isDir: bool) | OtherKind

  /** A directory entry; for an Unknown one lstat tells what it is. `joinOk`: there is
      memory for its path. */
  datatype Dirent = Dirent(name: Name, kind: Kind, joinOk: bool)

  predicate Descends(e: Dirent) {
    && e.name != "." && e.name != ".." && e.joinOk
    && (e.kind.Directory? || (e.kind.Unknown? && e.kind.isDir))
  }

  function Subdirs(es: seq<Dirent>): seq<Name> {
    if es == [] then []
    else Subdirs(es[..|es| - 1]) + if Descends(es[|es| - 1]) then [es[|es| - 1].name] else []
  }

  /** What the system does during one pass of next_event's loop: the answers of a walk,
      entries and all, the number of records a read returns at most, whether another
      thread has set the latch by the check at the top and by the one in fill_buffer, and
      whether there is memory for the event's path. */
  datatype Env = Env(
    walk: Walk, entries: Dir -> seq<Dirent>, records: nat,
    closedAtTop: bool, closedAtFill: bool, pathOk: bool)

  ghost predicate Listing(env: Env) {
    forall d :: env.walk.ls(d) == Subdirs(env.entries(d))
  }

  /** The entry is of a directory, whether readdir says so or leaves it to lstat. */
  predicate IsDirectory(e: Dirent) {
    e.name != "." && e.name != ".." && (e.kind == Directory || e.kind == Unknown(true))
  }

  /** Directory `d` has a subdirectory `n` among its entries. */
  ghost predicate HasEntry(es: seq<Dirent>, n: Name) {
    exists e :: e in es && e.name == n && IsDirectory(e)
  }

  /** readdir and lstat tell the truth about the tree, and each path finds memory. */
  ghost predicate Tells(env: Env, tree: map<Dir, Ino>) {
    && (forall d: Dir, n: Name :: d in tree ==> (d + [n] in tree <==> HasEntry(env.entries(d), n)))
    && (forall d, e :: d in tree && e in env.entries(d) ==> e.joinOk)
  }

  /** What is descended into: the directories whose path finds memory. */
  lemma {:induction false} SubdirsAre(es: seq<Dirent>, n: Name)
    ensures n in Subdirs(es) <==> exists e :: e in es && e.name == n && IsDirectory(e) && e.joinOk
  {
    if es != [] {
      var front, last := es[..|es| - 1], es[|es| - 1];
      assert es == front + [last] && last in es;
      SubdirsAre(front, n);
    }
  }

  /** Then the walk's listings are complete: it visits every subdirectory, and nothing else. */
  lemma TruthIsListed(env: Env, tree: map<Dir, Ino>)
    requires Listing(env) && Tells(env, tree)
    ensures Lists(env.walk, tree)
  {
    forall d, n: Name | d in tree
      ensures n in env.walk.ls(d) <==> d + [n] in tree
    {
      SubdirsAre(env.entries(d), n);
      assert d + [n] in tree <==> HasEntry(env.entries(d), n);
    }
  }

  // ---- the kernel --------------------------------------------------------------

  /** How the kernel writes an event: within its field widths, and short enough that a
      read can return it. */
  predicate Writable(r: Record) {
    Sound(r) && HEADER + Len(r) <= BUFFER_SIZE
  }

  ghost predicate Writes(wire: KEvent -> Record, q: seq<KEvent>) {
    forall ev :: ev in q ==> Writable(wire(ev))
  }

  class Kernel {
    var tree: map<Dir, Ino>
    var watches: map<Ino, Wd>
    var nextWd: Wd
    var queue: seq<KEvent>
    /** Read by the watcher and not yet looked at. */
    ghost var inFlight: seq<KEvent>

    constructor (tree: map<Dir, Ino>, firstWd: Wd)
      ensures this.tree == tree && watches == map[] && nextWd == firstWd && queue == inFlight == []
    {
      this.tree, watches, nextWd, queue, inFlight := tree, map[], firstWd, [], [];
    }

    /** The watcher looks at the first record it has read. */
    ghost method LookAt()
      requires inFlight != []
      modifies this`inFlight
      ensures inFlight == old(inFlight)[1..]
      ensures inFlight + queue == (old(inFlight) + old(queue))[1..]
    {
      inFlight := inFlight[1..];
    }

    /** Path resolution: from the file system's root along the components of `abs`. The
        watched root is where its own components lead. */
    method Resolve(root: Path, abs: Path, ghost d: Dir) returns (found: Option<Dir>)
      requires Components(abs) == Components(root) + d
      ensures found == if d in tree then Some(d) else None
    {
      if e: Dir :| e in tree && Components(root) + e == Components(abs) {
        assert (Components(root) + e)[|Components(root)|..] == e;
        assert (Components(root) + d)[|Components(root)|..] == d;
        return Some(e);
      }
      return None;
    }

    /** inotify_add_watch; `d` is the directory `abs` names. */
    method AddWatch(root: Path, abs: Path, walk: Walk, ghost d: Dir) returns (wd: int)
      requires Components(abs) == Components(root) + d
      modifies this`watches, this`nextWd
      ensures wd >= 0 <==> d in tree && walk.addOk(d)
      ensures wd < 0 ==> unchanged(this)
      ensures wd >= 0 ==>
        var ino := tree[d];
        if ino in old(watches) then wd == old(watches)[ino] && unchanged(this)
        else wd == old(nextWd) && watches == old(watches)[ino := wd] && nextWd == wd + 1
    {
      var found := Resolve(root, abs, d);
      if found == None || !walk.addOk(found.value) {
        return -1;
      }
      var ino := tree[found.value];
      if ino in watches {
        return watches[ino];
      }
      wd := nextWd;
      watches, nextWd := watches[ino := wd], nextWd + 1;
    }

    /** opendir and readdir. */
    method OpenDir(root: Path, abs: Path, env: Env, ghost d: Dir) returns (es: Option<seq<Dirent>>)
      requires Components(abs) == Components(root) + d
      ensures es == if d in tree && env.walk.openOk(d) then Some(env.entries(d)) else None
    {
      var found := Resolve(root, abs, d);
      if found == None || !env.walk.openOk(found.value) {
        return None;
      }
      return Some(env.entries(found.value));
    }

    /** lstat on an entry whose kind readdir does not know; `d` is the directory it is in. */
    method Lstat(root: Path, abs: Path, e: Dirent, ghost d: Dir) returns (isDir: bool)
      requires e.kind.Unknown? && Components(abs) == Components(root) + d + [e.name]
      ensures isDir == e.kind.isDir
    {
      isDir := e.kind.isDir;
    }

    /** inotify_rm_watch. */
    method Remove(wd: Wd)
      modifies this`watches, this`queue
      ensures wd in old(watches).Values ==>
        && watches == (map i | i in old(watches) && old(watches)[i] != wd :: old(watches)[i])
        && queue == old(queue) + [Ignored(wd)]
      ensures wd !in old(watches).Values ==> unchanged(this)
    {
      if wd in watches.Values {
        watches := map i | i in watches && watches[i] != wd :: watches[i];
        queue := queue + [Ignored(wd)];
      }
    }

    /** read on the inotify descriptor: the first records, at most `n`, that fit. */
    method Read(n: nat, wire: KEvent -> Record) returns (data: string, ghost rs: seq<Record>)
      requires queue != [] && n > 0 && Writes(wire, queue)
      modifies this`queue, this`inFlight
      ensures Written(wire, old(queue), rs) && |rs| > 0
      ensures data == EncodeAll(rs) && |data| <= BUFFER_SIZE
      ensures queue == old(queue)[|rs|..] && inFlight == old(inFlight) + old(queue)[..|rs|]
      ensures inFlight + queue == old(inFlight) + old(queue)
    {
      data, rs := "", [];
      var q := queue;
      ghost var seen := inFlight;
      var k := 0;
      while k < n && k < |q|
        invariant k == |rs| && Written(wire, q, rs)
        invariant data == EncodeAll(rs) && |data| <= BUFFER_SIZE
        invariant k == 0 ==> |data| == 0
      {
        WrittenNext(wire, q, rs);
        var r := wire(q[k]);
        if |data| + HEADER + Len(r) > BUFFER_SIZE { break; }
        data, rs, k := data + Encode(r), rs + [r], k + 1;
      }
      Resplit(seen, q, k);
      queue, inFlight := q[k..], seen + q[..k];
    }
  }

  lemma Resplit<T>(a: seq<T>, b: seq<T>, k: nat)
    requires k <= |b|
    ensures (a + b[..k]) + b[k..] == a + b
    ensures forall x :: x in b[k..] ==> x in b
  {
  }

  /** The records of the first events of `q`. */
  ghost predicate Written(wire: KEvent -> Record, q: seq<KEvent>, rs: seq<Record>) {
    && |rs| <= |q| && AllSound(rs)
    && forall i :: 0 <= i < |rs| ==> rs[i] == wire(q[i])
  }

  lemma WrittenNext(wire: KEvent -> Record, q: seq<KEvent>, rs: seq<Record>)
    requires Writes(wire, q) && Written(wire, q, rs) && |rs| < |q|
    ensures var r := wire(q[|rs|]);
      && Sound(r) && |Encode(r)| == HEADER + Len(r) <= BUFFER_SIZE
      && Written(wire, q, rs + [r]) && EncodeAll(rs + [r]) == EncodeAll(rs) + Encode(r)
  {
    WritesAt(wire, q, |rs|);
    EncodeLength(wire(q[|rs|]));
    EncodeAllAppends(rs, wire(q[|rs|]));
  }

  lemma WritesAt(wire: KEvent -> Record, q: seq<KEvent>, k: nat)
    requires Writes(wire, q) && k < |q|
    ensures Writable(wire(q[k]))
  {
    assert q[k] in q;
  }

  lemma {:induction false} EncodeAllAppends(rs: seq<Record>, r: Record)
    requires AllSound(rs) && Sound(r)
    ensures AllSound(rs + [r]) && EncodeAll(rs + [r]) == EncodeAll(rs) + Encode(r)
  {
    if rs != [] {
      EncodeAllAppends(rs[1..], r);
      assert (rs + [r])[1..] == rs[1..] + [r];
    }
  }
}
