/** From a user's actions to the coalesced events, through both layers. */
module ActionEvents {
  import opened Events
  import opened RelPaths
  import opened FileOps
  import opened TreeRuns
  import opened Operations
  import opened UserActions
  import B = Batching
  import opened EmissionLog
  import opened Pairing

  /** The rename cookie of an operation; 0 when it has none. */
  function CookieOf(op: Op): Id {
    match op
    case Rename(_, _, cookie) => cookie
    case MoveOut(_, cookie) => cookie
    case MoveIn(_, _, cookie) => cookie
    case FileChange(_, _, _, cookie) => cookie
    case FileRename(_, _, _, _, cookie) => cookie
    case Mkdir(_, _) => 0
    case Rmdir(_, _) => 0
    case Chmod(_) => 0
  }

  /** Moves something within, out of or into the watched tree. */
  predicate Moves(op: Op) {
    || op.Rename? || op.MoveOut? || op.MoveIn? || op.FileRename?
    || (op.FileChange? && (op.change.MovedFrom? || op.change.MovedTo?))
  }

  /** The event the README promises for a rename or a half-move, of a directory or a
      file; a file that is replaced makes no difference. */
  function Promised(op: Op): FileEvent
    requires Moves(op)
  {
    match op
    case Rename(d, e, _) => FileEvent(Move, Render(e), Render(d))
    case MoveOut(d, _) => FileEvent(Removed, Render(d), "")
    case MoveIn(e, _, _) => FileEvent(Created, Render(e), "")
    case FileRename(d, name, e, newName, _) => FileEvent(Move, Render(e + [newName]), Render(d + [name]))
    case FileChange(d, change, name, _) =>
      FileEvent(if change.MovedFrom? then Removed else Created, Render(d + [name]), "")
  }

  lemma {:induction false} OnlyNone(c: Id, s: seq<RawEvent>)
    requires forall e :: e in s ==> e.id != c
    ensures Only(c, s) == []
  {
    if s != [] {
      var front, last := s[..|s| - 1], s[|s| - 1];
      assert s == front + [last] && last in s;
      assert forall e :: e in front ==> e in s;
      OnlyNone(c, front);
    }
  }

  lemma {:induction false} OnlyAll(c: Id, s: seq<RawEvent>)
    requires forall e :: e in s ==> e.id == c && e.typ != MODIFIED
    ensures Only(c, s) == s
  {
    if s != [] {
      var front, last := s[..|s| - 1], s[|s| - 1];
      assert s == front + [last] && last in s;
      assert forall e :: e in front ==> e in s;
      OnlyAll(c, front);
    }
  }

  /** An operation's events carry its cookie. */
  lemma ReportedIds(op: Op)
    ensures forall e :: e in Reported(op) ==> e.id == CookieOf(op) && (Moves(op) ==> e.typ != MODIFIED)
  {
  }

  /** No other operation of the window carries the cookie. */
  ghost predicate SoleUser(rs: seq<Round>, i: nat)
    requires i < |rs|
  {
    forall j :: 0 <= j < |rs| && j != i ==> CookieOf(rs[j].op) != CookieOf(rs[i].op)
  }

  lemma {:induction false} NobodyUses(rs: seq<Round>, c: Id)
    requires forall j :: 0 <= j < |rs| ==> CookieOf(rs[j].op) != c
    ensures Only(c, ReportedAll(rs)) == []
  {
    if rs != [] {
      NobodyUses(rs[1..], c);
      ReportedIds(rs[0].op);
      OnlyNone(c, Reported(rs[0].op));
      OnlyConcat(c, Reported(rs[0].op), ReportedAll(rs[1..]));
    }
  }

  lemma SoleUserTail(rs: seq<Round>, i: nat)
    requires 0 < i < |rs| && SoleUser(rs, i)
    ensures rs[1..][i - 1] == rs[i] && SoleUser(rs[1..], i - 1) && CookieOf(rs[0].op) != CookieOf(rs[i].op)
  {
    var t := rs[1..];
    assert forall j :: 0 <= j < |t| ==> t[j] == rs[j + 1];
  }

  lemma SoleUserHead(rs: seq<Round>)
    requires rs != [] && SoleUser(rs, 0)
    ensures forall j :: 0 <= j < |rs[1..]| ==> CookieOf(rs[1..][j].op) != CookieOf(rs[0].op)
  {
    assert forall j :: 0 <= j < |rs[1..]| ==> rs[1..][j] == rs[j + 1];
  }

  lemma {:induction false} OnlyItsOwn(rs: seq<Round>, i: nat)
    requires i < |rs| && SoleUser(rs, i) && Moves(rs[i].op)
    ensures Only(CookieOf(rs[i].op), ReportedAll(rs)) == Reported(rs[i].op)
    decreases i
  {
    var c, first, rest := CookieOf(rs[i].op), Reported(rs[0].op), ReportedAll(rs[1..]);
    OnlyConcat(c, first, rest);
    ReportedIds(rs[0].op);
    if i == 0 {
      OnlyAll(c, first);
      SoleUserHead(rs);
      NobodyUses(rs[1..], c);
      assert first + [] == first;
    } else {
      SoleUserTail(rs, i);
      OnlyNone(c, first);
      OnlyItsOwn(rs[1..], i - 1);
      assert [] + Only(c, rest) == Only(c, rest);
    }
  }

  lemma LoneEvent(ev: RawEvent)
    requires B.Pairable(ev)
    ensures B.AbsorbAll([ev]).pending == map[ev.id := ev] && LogOf([ev]) == []
  {
    assert [ev][..0] == [];
  }

  lemma PairEvents(first: RawEvent, second: RawEvent)
    requires B.Pairable(first) && B.Pairable(second) && first.id == second.id && B.Pairs(first.typ, second.typ)
    ensures B.AbsorbAll([first, second]).pending == map[]
    ensures LogOf([first, second]) == [Logged(FromId(first.id), B.MoveOf(first, second))]
  {
    LoneEvent(first);
    AbsorbLast([first], second);
    assert [first] + [second] == [first, second];
    AbsorbPending(B.AbsorbAll([first]), second);
  }

  lemma DrainOne(ev: RawEvent)
    ensures DrainLog(map[ev.id := ev], [ev.id]) == CommitLog(ev)
  {
    assert [ev.id][..0] == [];
    assert DrainLog(map[ev.id := ev], []) == [];
  }

  /** A pair coalesced on its own is one Move. */
  lemma PairAlone(first: RawEvent, second: RawEvent, s: seq<RawEvent>, order: seq<Id>)
    requires B.Pairable(first) && B.Pairable(second) && first.id == second.id && B.Pairs(first.typ, second.typ)
    requires Only(first.id, s) == [first, second] && Enumerates(order, B.AbsorbAll(s).pending.Keys)
    ensures Project(FromId(first.id), FullLog(s, order)) == [Logged(FromId(first.id), B.MoveOf(first, second))]
  {
    PairEvents(first, second);
    NonInterference(first.id, s, order, []);
  }

  /** A half coalesced on its own is the single event it stands for. */
  lemma HalfAlone(ev: RawEvent, s: seq<RawEvent>, order: seq<Id>)
    requires B.Pairable(ev) && Only(ev.id, s) == [ev] && Enumerates(order, B.AbsorbAll(s).pending.Keys)
    ensures Project(FromId(ev.id), FullLog(s, order)) == CommitLog(ev)
  {
    LoneEvent(ev);
    var alone: seq<Id> := [ev.id];
    assert Enumerates(alone, {ev.id});
    NonInterference(ev.id, s, order, alone);
    DrainOne(ev);
  }

  /** The two halves of a rename. */
  lemma PairOutcome(from: Path, to: Path, c: Id, s: seq<RawEvent>, order: seq<Id>)
    requires c != 0 && Enumerates(order, B.AbsorbAll(s).pending.Keys)
    requires Only(c, s) == [RawEvent(RENAMED_OLD, from, c), RawEvent(RENAMED_NEW, to, c)]
    ensures var log := Project(FromId(c), FullLog(s, order));
      |log| == 1 && log[0].entry.fe == FileEvent(Move, to, from)
  {
    PairAlone(RawEvent(RENAMED_OLD, from, c), RawEvent(RENAMED_NEW, to, c), s, order);
  }

  /** One half on its own. */
  lemma HalfOutcome(typ: int, path: Path, c: Id, s: seq<RawEvent>, order: seq<Id>)
    requires c != 0 && (typ == RENAMED_OLD || typ == RENAMED_NEW) && Enumerates(order, B.AbsorbAll(s).pending.Keys)
    requires Only(c, s) == [RawEvent(typ, path, c)]
    ensures var log := Project(FromId(c), FullLog(s, order));
      |log| == 1 && log[0].entry.fe == FileEvent(if typ == RENAMED_OLD then Removed else Created, path, "")
  {
    HalfAlone(RawEvent(typ, path, c), s, order);
  }

  lemma OutcomeOf(op: Op, s: seq<RawEvent>, order: seq<Id>)
    requires Moves(op) && CookieOf(op) != 0
    requires Only(CookieOf(op), s) == Reported(op) && Enumerates(order, B.AbsorbAll(s).pending.Keys)
    ensures var log := Project(FromId(CookieOf(op)), FullLog(s, order));
      |log| == 1 && log[0].entry.fe == Promised(op)
  {
    match op
    case Rename(d, e, c) => PairOutcome(Render(d), Render(e), c, s, order);
    case MoveOut(d, c) => HalfOutcome(RENAMED_OLD, Render(d), c, s, order);
    case MoveIn(e, _, c) => HalfOutcome(RENAMED_NEW, Render(e), c, s, order);
    case FileRename(d, n, e, m, c) => PairOutcome(Render(d + [n]), Render(e + [m]), c, s, order);
    case FileChange(d, change, n, c) => HalfOutcome(TypeOf(change), Render(d + [n]), c, s, order);
  }

  /** However many operations share a settle window, and in whatever order the final range
      runs, a rename of a directory or a file comes out as one Move from its old to its
      new path, a move out as one Removed, and a move in as one Created. */
  lemma ActionBecomesEvent(rs: seq<Round>, i: nat, order: seq<Id>)
    requires i < |rs| && SoleUser(rs, i) && CookieOf(rs[i].op) != 0
    requires Moves(rs[i].op)
    requires Enumerates(order, B.AbsorbAll(ReportedAll(rs)).pending.Keys)
    ensures var log := Project(FromId(CookieOf(rs[i].op)), FullLog(ReportedAll(rs), order));
      |log| == 1 && log[0].entry.fe == Promised(rs[i].op)
  {
    OnlyItsOwn(rs, i);
    OutcomeOf(rs[i].op, ReportedAll(rs), order);
  }

  // ---- modifications -------------------------------------------------------------------

  /** Writes to a file, or changes the attributes of a file or of a directory below the root. */
  predicate Modifies(op: Op) {
    (op.Chmod? && op.d != []) || (op.FileChange? && op.change.Modify?)
  }

  function ModifiedPath(op: Op): Path
    requires Modifies(op)
  {
    if op.Chmod? then Render(op.d) else Render(op.d + [op.name])
  }

  lemma {:induction false} ReportedInAll(rs: seq<Round>, i: nat, ev: RawEvent)
    requires i < |rs| && ev in Reported(rs[i].op)
    ensures ev in ReportedAll(rs)
    decreases i
  {
    if i > 0 {
      ReportedInAll(rs[1..], i - 1, ev);
    }
  }

  /** Entry `k` of the log is the Modified of `path`, and no other is. */
  ghost predicate OnlyModified(log: seq<Logged>, k: nat, path: Path) {
    && k < |log| && log[k].entry.fe == FileEvent(Modified, path, "")
    && forall j :: 0 <= j < |log| && log[j].entry.fe.path == path ==> j == k
  }

  lemma ModifiedEvent(op: Op)
    requires Modifies(op)
    ensures |Reported(op)| == 1 && Reported(op)[0].typ == MODIFIED && Reported(op)[0].path == ModifiedPath(op)
  {
  }

  lemma OneForEachPath(paths: seq<Path>, path: Path)
    requires path in paths && forall i, j :: 0 <= i < j < |paths| ==> paths[i] != paths[j]
    ensures exists k :: OnlyModified(ModifiedLog(paths), k, path)
  {
    var k :| 0 <= k < |paths| && paths[k] == path;
    assert OnlyModified(ModifiedLog(paths), k, path);
  }

  /** However often a window's operations modify a path, exactly one Modified comes out for it. */
  lemma ChangeBecomesModified(rs: seq<Round>, i: nat, order: seq<Id>)
    requires i < |rs| && Modifies(rs[i].op)
    requires Enumerates(order, B.AbsorbAll(ReportedAll(rs)).pending.Keys)
    ensures exists k :: OnlyModified(Project(FromModify, FullLog(ReportedAll(rs), order)), k, ModifiedPath(rs[i].op))
  {
    var s := ReportedAll(rs);
    ModifiedEvent(rs[i].op);
    ReportedInAll(rs, i, Reported(rs[i].op)[0]);
    ModifiedOncePerPath(s, order);
    OneForEachPath(ModifiedPaths(s), ModifiedPath(rs[i].op));
  }
}
