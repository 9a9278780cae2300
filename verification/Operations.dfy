/** Every operation on the tree in one form: what leaves, what arrives, which inodes die,
    and which directories' watches are told. */
module Operations {
  import opened Events
  import opened RelPaths
  import opened Inotify
  import opened WalkSpec
  import opened FileOps
  import opened TreeAgreement
  import opened TreeRuns

  // ---- the tree ----------------------------------------------------------------------

  /** `c` is, or is below, the directory that is removed, renamed or moved out. */
  predicate LeavesFrom(op: Op, c: Dir) {
    match op
    case Rmdir(d, _) => d <= c
    case Rename(d, _, _) => d <= c
    case MoveOut(d, _) => d <= c
    case _ => false
  }

  /** `c` is, or is below, what the operation made, moved in or renamed to. */
  predicate ArrivesAt(op: Op, c: Dir) {
    match op
    case Mkdir(d, _) => d <= c
    case Rename(_, e, _) => e <= c
    case MoveIn(e, _, _) => e <= c
    case _ => false
  }

  function RenameTree(tree: map<Dir, Ino>, d: Dir, e: Dir): map<Dir, Ino> {
    Graft(Prune(Prune(tree, d), e), e, Sub(tree, d))
  }

  function NewTree(tree: map<Dir, Ino>, op: Op): map<Dir, Ino> {
    match op
    case Mkdir(d, ino) => Graft(tree, d, NewDir(ino))
    case Rmdir(d, _) => Prune(tree, d)
    case Rename(d, e, _) => RenameTree(tree, d, e)
    case MoveOut(d, _) => Prune(tree, d)
    case MoveIn(e, sub, _) => Graft(Prune(tree, e), e, sub)
    case _ => tree
  }

  /** The directories whose inodes die: the one removed, or the empty one replaced. */
  predicate DiesAt(op: Op, c: Dir) {
    match op
    case Rmdir(d, _) => c == d
    case Rename(_, e, _) => c == e
    case MoveIn(e, _, _) => c == e
    case _ => false
  }

  function Dying(s: State, op: Op): set<Ino> {
    set c | c in s.tree && DiesAt(op, c) :: s.tree[c]
  }

  /** Where the arrived directory `c` was before a rename. */
  function Origin(op: Op, c: Dir): Dir
    requires op.Rename? && op.e <= c
  {
    op.d + c[|op.e|..]
  }

  /** The tree after an operation, directory by directory. */
  ghost predicate Transplanted(s: State, op: Op, t: map<Dir, Ino>) {
    && (forall c :: c in t ==> !LeavesFrom(op, c))
    && (forall c :: c in t && !ArrivesAt(op, c) ==> c in s.tree && t[c] == s.tree[c])
    && (forall c :: c in s.tree && !LeavesFrom(op, c) && !ArrivesAt(op, c) ==> c in t && t[c] == s.tree[c])
    && (forall c :: c in t && ArrivesAt(op, c) ==>
          if op.Rename? then Origin(op, c) in s.tree && t[c] == s.tree[Origin(op, c)] else t[c] !in s.watches)
    && (forall c :: c in s.tree && ArrivesAt(op, c) ==> DiesAt(op, c))
    && (forall c :: c in s.tree && LeavesFrom(op, c) && op.Rmdir? ==> DiesAt(op, c))
  }

  lemma LeafOnly(tree: map<Dir, Ino>, e: Dir)
    requires Leaf(tree, e)
    ensures forall c :: c in tree && e <= c ==> c == e
  {
    forall c | c in tree && e <= c
      ensures c == e
    {
      assert c in Below(tree, e) <==> e < c;
    }
  }

  /** `t` is `tree`, but for what is at and below `e`: at most `e` was there. */
  ghost predicate ReplacedAt(tree: map<Dir, Ino>, e: Dir, t: map<Dir, Ino>) {
    && (forall c :: c in t && !(e <= c) ==> c in tree && t[c] == tree[c])
    && (forall c :: c in tree && !(e <= c) ==> c in t && t[c] == tree[c])
    && (forall c :: c in tree && e <= c ==> c == e)
  }

  lemma ArrivalTransplants(s: State, op: Op, e: Dir, t: map<Dir, Ino>)
    requires (op.Mkdir? && op.d == e && e !in s.tree) || (op.MoveIn? && op.e == e)
    requires ReplacedAt(s.tree, e, t) && forall c :: c in t && e <= c ==> t[c] !in s.watches
    ensures Transplanted(s, op, t)
  {
  }

  lemma MkdirShape(tree: map<Dir, Ino>, d: Dir, ino: Ino)
    requires IsTree(tree) && d != [] && Parent(d) in tree && Leaf(tree, d) && d !in tree && ino !in tree.Values
    ensures var t := Graft(tree, d, NewDir(ino));
      IsTree(t) && ReplacedAt(tree, d, t) && forall c :: c in t && d <= c ==> t[c] == ino
  {
    LeafOnly(tree, d);
    assert forall c :: c in tree ==> tree[c] in tree.Values;
    GraftTree(tree, d, NewDir(ino));
    GraftShape(tree, d, NewDir(ino));
  }

  lemma MkdirTree(s: State, d: Dir, ino: Ino)
    requires IsTree(s.tree) && Enabled(s, Mkdir(d, ino))
    ensures IsTree(NewTree(s.tree, Mkdir(d, ino))) && Transplanted(s, Mkdir(d, ino), NewTree(s.tree, Mkdir(d, ino)))
  {
    MkdirShape(s.tree, d, ino);
    ArrivalTransplants(s, Mkdir(d, ino), d, NewTree(s.tree, Mkdir(d, ino)));
  }

  lemma MoveInShape(tree: map<Dir, Ino>, e: Dir, sub: map<Dir, Ino>)
    requires IsTree(tree) && e != [] && Parent(e) in tree && Leaf(tree, e) && IsTree(sub) && NewInos(tree, sub)
    ensures var t := Graft(Prune(tree, e), e, sub);
      IsTree(t) && ReplacedAt(tree, e, t) && forall c :: c in t && e <= c ==> t[c] in sub.Values
  {
    GrownTree(tree, e, sub);
    ReplaceShape(tree, e, sub);
  }

  lemma MoveInTree(s: State, e: Dir, sub: map<Dir, Ino>, op: Op)
    requires IsTree(s.tree) && Enabled(s, op) && op.MoveIn? && op.e == e && op.sub == sub
    ensures IsTree(NewTree(s.tree, op)) && Transplanted(s, op, NewTree(s.tree, op))
  {
    assert forall c :: c in s.tree ==> s.tree[c] in s.tree.Values;
    assert forall x :: x in sub ==> sub[x] in sub.Values;
    assert NewInos(s.tree, sub);
    MoveInShape(s.tree, e, sub);
    ArrivalTransplants(s, op, e, NewTree(s.tree, op));
  }

  lemma LeavingTree(s: State, op: Op, d: Dir)
    requires IsTree(s.tree) && Enabled(s, op) && ((op.Rmdir? && op.d == d) || (op.MoveOut? && op.d == d))
    ensures IsTree(NewTree(s.tree, op)) && Transplanted(s, op, NewTree(s.tree, op))
  {
    PruneTree(s.tree, d);
    if op.Rmdir? {
      LeafOnly(s.tree, d);
    }
  }

  /** The old and the new place of a rename are not on one path. */
  lemma Incomparable(tree: map<Dir, Ino>, d: Dir, e: Dir, c: Dir)
    requires d in tree && Leaf(tree, e) && !(d <= e) && d <= c
    ensures !(e <= c)
  {
    LeafOnly(tree, e);
  }

  /** `t` is `tree` with what was at `d` now at `e`, where at most `e` was. */
  ghost predicate Relocated(tree: map<Dir, Ino>, d: Dir, e: Dir, t: map<Dir, Ino>) {
    && (forall c :: c in t ==> !(d <= c))
    && (forall c :: c in t && !(e <= c) ==> c in tree && t[c] == tree[c])
    && (forall c :: c in tree && !(d <= c) && !(e <= c) ==> c in t && t[c] == tree[c])
    && (forall c :: c in t && e <= c ==> d + c[|e|..] in tree && t[c] == tree[d + c[|e|..]])
    && (forall c :: c in tree && e <= c ==> c == e)
  }

  lemma RenamedDirs(tree: map<Dir, Ino>, d: Dir, e: Dir, t: map<Dir, Ino>)
    requires IsTree(tree) && d != [] && d in tree && e != [] && Parent(e) in tree && Leaf(tree, e)
    requires !(d <= e) && t == RenameTree(tree, d, e)
    ensures forall c :: c in t && e <= c ==> d + c[|e|..] in tree && t[c] == tree[d + c[|e|..]]
  {
    RenamedTree(tree, d, e);
    SubTree(tree, d);
    SubShape(tree, d);
    ReplaceShape(Prune(tree, d), e, Sub(tree, d));
  }

  lemma RenameRelocates(tree: map<Dir, Ino>, d: Dir, e: Dir, t: map<Dir, Ino>)
    requires IsTree(tree) && d != [] && d in tree && e != [] && Parent(e) in tree && Leaf(tree, e)
    requires !(d <= e) && t == RenameTree(tree, d, e)
    ensures IsTree(t) && Relocated(tree, d, e, t)
  {
    RenamedTree(tree, d, e);
    RenamedDirs(tree, d, e, t);
    RenameShape(tree, d, e);
    LeafOnly(tree, e);
    forall c | c in t
      ensures !(d <= c)
    {
      if d <= c {
        Incomparable(tree, d, e, c);
      }
    }
  }

  lemma MoveTransplants(s: State, op: Op, t: map<Dir, Ino>)
    requires op.Rename? && Relocated(s.tree, op.d, op.e, t)
    ensures Transplanted(s, op, t)
  {
  }

  lemma RenamingTree(s: State, op: Op)
    requires IsTree(s.tree) && Enabled(s, op) && op.Rename?
    ensures IsTree(NewTree(s.tree, op)) && Transplanted(s, op, NewTree(s.tree, op))
  {
    RenameRelocates(s.tree, op.d, op.e, NewTree(s.tree, op));
    MoveTransplants(s, op, NewTree(s.tree, op));
  }

  lemma TreeAfter(s: State, op: Op)
    requires IsTree(s.tree) && Enabled(s, op)
    ensures IsTree(NewTree(s.tree, op)) && Transplanted(s, op, NewTree(s.tree, op))
  {
    match op
    case Mkdir(d, ino) => MkdirTree(s, d, ino);
    case Rmdir(d, _) => LeavingTree(s, op, d);
    case Rename(_, _, _) => RenamingTree(s, op);
    case MoveOut(d, _) => LeavingTree(s, op, d);
    case MoveIn(e, sub, _) => MoveInTree(s, e, sub, op);
    case _ =>
  }

  // ---- the messages -------------------------------------------------------------------

  /** What an operation has the watch of directory `dir`, if there is one, say. */
  datatype Message = Message(dir: Dir, change: Change, isDir: bool, name: Name, cookie: Id)

  /** What moves, appears or goes is not the root. */
  predicate BelowRoot(op: Op) {
    match op
    case Mkdir(d, _) => d != []
    case Rmdir(d, _) => d != []
    case Rename(d, e, _) => d != [] && e != []
    case MoveOut(d, _) => d != []
    case MoveIn(e, _, _) => e != []
    case _ => true
  }

  function Messages(op: Op): seq<Message>
    requires BelowRoot(op)
  {
    match op
    case Mkdir(d, _) => [Message(Parent(d), Create, true, Last(d), 0)]
    case Rmdir(d, _) => [Message(Parent(d), Delete, true, Last(d), 0)]
    case Rename(d, e, cookie) =>
      [Message(Parent(d), MovedFrom, true, Last(d), cookie), Message(Parent(e), MovedTo, true, Last(e), cookie)]
    case MoveOut(d, cookie) => [Message(Parent(d), MovedFrom, true, Last(d), cookie)]
    case MoveIn(e, _, cookie) => [Message(Parent(e), MovedTo, true, Last(e), cookie)]
    case FileChange(d, change, name, cookie) => [Message(d, change, false, name, cookie)]
    case FileRename(d, name, e, newName, cookie) =>
      [Message(d, MovedFrom, false, name, cookie), Message(e, MovedTo, false, newName, cookie)]
    case Chmod(d) => if d == [] then [] else [Message(Parent(d), Modify, true, Last(d), 0)]
  }

  /** What the consumer is told about each operation. */
  function Reported(op: Op): seq<RawEvent> {
    match op
    case Mkdir(d, _) => [RawEvent(CREATED, Render(d), 0)]
    case Rmdir(d, _) => [RawEvent(REMOVED, Render(d), 0)]
    case Rename(d, e, cookie) => [RawEvent(RENAMED_OLD, Render(d), cookie), RawEvent(RENAMED_NEW, Render(e), cookie)]
    case MoveOut(d, cookie) => [RawEvent(RENAMED_OLD, Render(d), cookie)]
    case MoveIn(e, _, cookie) => [RawEvent(RENAMED_NEW, Render(e), cookie)]
    case FileChange(d, change, name, cookie) => [RawEvent(TypeOf(change), Render(d + [name]), cookie)]
    case FileRename(d, name, e, newName, cookie) =>
      [RawEvent(RENAMED_OLD, Render(d + [name]), cookie), RawEvent(RENAMED_NEW, Render(e + [newName]), cookie)]
    case Chmod(d) => if d == [] then [] else [RawEvent(MODIFIED, Render(d), 0)]
  }

  lemma ParentAndLast(d: Dir)
    requires d != []
    ensures Parent(d) + [Last(d)] == d
  {
  }

  /** The event a message is, heard by the right path. */
  function EventOf(m: Message): RawEvent {
    RawEvent(TypeOf(m.change), Render(m.dir + [m.name]), m.cookie)
  }

  function EventsOf(ms: seq<Message>): seq<RawEvent> {
    if ms == [] then [] else [EventOf(ms[0])] + EventsOf(ms[1..])
  }

  lemma EventsOfTwo(a: Message, b: Message)
    ensures EventsOf([a]) == [EventOf(a)] && EventsOf([a, b]) == [EventOf(a), EventOf(b)]
  {
    assert [a][1..] == [] && [a, b][1..] == [b];
    assert [b][1..] == [];
  }

  /** What is promised of an operation is what its messages say. */
  lemma ReportedIsSaid(op: Op)
    requires BelowRoot(op)
    ensures Reported(op) == EventsOf(Messages(op))
  {
    match op
    case Rename(d, e, _) =>
      ParentAndLast(d);
      ParentAndLast(e);
      EventsOfTwo(Messages(op)[0], Messages(op)[1]);
    case FileRename(_, _, _, _, _) => EventsOfTwo(Messages(op)[0], Messages(op)[1]);
    case Chmod(d) =>
      if d != [] {
        SaidOnce(d, Messages(op)[0]);
      }
    case FileChange(_, _, _, _) => EventsOfTwo(Messages(op)[0], Messages(op)[0]);
    case MoveIn(e, _, _) => SaidOnce(e, Messages(op)[0]);
    case Mkdir(d, _) => SaidOnce(d, Messages(op)[0]);
    case Rmdir(d, _) => SaidOnce(d, Messages(op)[0]);
    case MoveOut(d, _) => SaidOnce(d, Messages(op)[0]);
  }

  lemma SaidOnce(d: Dir, m: Message)
    requires d != [] && m.dir == Parent(d) && m.name == Last(d)
    ensures EventsOf([m]) == [RawEvent(TypeOf(m.change), Render(d), m.cookie)]
  {
    ParentAndLast(d);
    EventsOfTwo(m, m);
  }

  // ---- the records --------------------------------------------------------------------

  function Say(s: State, m: Message): seq<KEvent> {
    if m.dir in s.tree && s.tree[m.dir] in s.watches
    then [Named(s.watches[s.tree[m.dir]], m.change, m.isDir, m.name, m.cookie)]
    else []
  }

  function Heard(s: State, ms: seq<Message>): seq<KEvent> {
    if ms == [] then [] else Say(s, ms[0]) + Heard(s, ms[1..])
  }

  function SelfOf(s: State, ino: Ino): seq<KEvent> {
    if ino in s.watches then [Self(s.watches[ino])] else []
  }

  function LastOf(s: State, ino: Ino): seq<KEvent> {
    if ino in s.watches then [Self(s.watches[ino]), Ignored(s.watches[ino])] else []
  }

  function LastAt(s: State, d: Dir): seq<KEvent> {
    if d in s.tree then LastOf(s, s.tree[d]) else []
  }

  /** The records without a name. */
  function Nameless(s: State, op: Op): seq<KEvent> {
    match op
    case Rmdir(d, _) => LastAt(s, d)
    case Rename(d, e, _) => (if d in s.tree then SelfOf(s, s.tree[d]) else []) + LastAt(s, e)
    case MoveOut(d, _) => if d in s.tree then SelfOf(s, s.tree[d]) else []
    case MoveIn(e, _, _) => LastAt(s, e)
    case Chmod(d) => if d in s.tree then SelfOf(s, s.tree[d]) else []
    case _ => []
  }

  function Records(s: State, op: Op): seq<KEvent>
    requires BelowRoot(op)
  {
    if op.Rmdir? && !op.parentFirst then Nameless(s, op) + Heard(s, Messages(op))
    else Heard(s, Messages(op)) + Nameless(s, op)
  }

  function Outcome(s: State, op: Op): State
    requires BelowRoot(op)
  {
    s.(tree := NewTree(s.tree, op), watches := s.watches - Dying(s, op), queue := s.queue + Records(s, op))
  }

  lemma HeardTwo(s: State, a: Message, b: Message)
    ensures Heard(s, [a]) == Say(s, a) && Heard(s, [a, b]) == Say(s, a) + Say(s, b)
  {
    assert [a][1..] == [] && [a, b][1..] == [b] && [b][1..] == [];
    assert Heard(s, [b]) == Say(s, b) + [];
  }

  /** The watches that speak are about directories that stay. */
  lemma SpeakersStay(s: State, op: Op)
    requires IsTree(s.tree) && Enabled(s, op)
    ensures forall m :: m in Messages(op) ==>
      && m.dir in s.tree && !LeavesFrom(op, m.dir) && !ArrivesAt(op, m.dir)
      && m.dir in NewTree(s.tree, op) && NewTree(s.tree, op)[m.dir] == s.tree[m.dir]
      && s.tree[m.dir] !in Dying(s, op)
  {
    TreeAfter(s, op);
    forall m | m in Messages(op)
      ensures m.dir in s.tree && !LeavesFrom(op, m.dir) && !ArrivesAt(op, m.dir) && s.tree[m.dir] !in Dying(s, op)
    {
      SpeakerStands(s, op, m);
      forall c | c in s.tree && DiesAt(op, c)
        ensures s.tree[c] != s.tree[m.dir]
      {
        assert SameIno(s.tree, c, m.dir) ==> c == m.dir;
      }
    }
  }

  lemma SpeakerStands(s: State, op: Op, m: Message)
    requires IsTree(s.tree) && Enabled(s, op) && m in Messages(op)
    ensures m.dir in s.tree && !LeavesFrom(op, m.dir) && !ArrivesAt(op, m.dir) && !DiesAt(op, m.dir)
  {
    match op
    case Rename(d, e, _) =>
      LeafAbove(s.tree, d, e);
      assert Parent(d) == d[..|d| - 1] && Parent(e) == e[..|e| - 1];
    case Rmdir(d, _) => assert Parent(d) == d[..|d| - 1];
    case MoveOut(d, _) => assert Parent(d) == d[..|d| - 1];
    case Chmod(d) => assert d != [] ==> Parent(d) == d[..|d| - 1];
    case _ =>
  }

  // ---- each operation in that form ----------------------------------------------------

  lemma RenameUnfolds(st: State, d: Dir, e: Dir, cookie: Id)
    requires Enabled(st, Rename(d, e, cookie))
    ensures Apply(st, Rename(d, e, cookie)) ==
      ForgetTarget(
        NotifySelf(
          Notify(Notify(st.(tree := RenameTree(st.tree, d, e)), Parent(d), MovedFrom, true, Last(d), cookie),
                 Parent(e), MovedTo, true, Last(e), cookie),
          st.tree[d]),
        st.tree, e)
  {
  }

  /** `f` hears the message as `s` does. */
  predicate SameEar(s: State, f: State, m: Message) {
    && m.dir in s.tree && m.dir in f.tree && f.tree[m.dir] == s.tree[m.dir]
    && (s.tree[m.dir] in s.watches <==> s.tree[m.dir] in f.watches)
    && (s.tree[m.dir] in s.watches ==> f.watches[s.tree[m.dir]] == s.watches[s.tree[m.dir]])
  }

  lemma NotifySays(s: State, f: State, m: Message)
    requires SameEar(s, f, m)
    ensures Notify(f, m.dir, m.change, m.isDir, m.name, m.cookie) == f.(queue := f.queue + Say(s, m))
  {
    assert f.queue + [] == f.queue;
  }

  lemma SelfSays(s: State, f: State, ino: Ino)
    requires f.watches == s.watches
    ensures NotifySelf(f, ino) == f.(queue := f.queue + SelfOf(s, ino))
  {
    assert f.queue + [] == f.queue;
  }

  lemma ForgetSays(s: State, f: State, ino: Ino)
    requires f.watches == s.watches
    ensures Forget(f, ino) == f.(queue := f.queue + LastOf(s, ino), watches := s.watches - {ino})
  {
    assert f.queue + [] == f.queue;
    assert ino !in s.watches ==> s.watches - {ino} == s.watches;
  }

  lemma TargetSays(s: State, f: State, op: Op, e: Dir)
    requires f.watches == s.watches && forall c :: DiesAt(op, c) <==> c == e
    ensures ForgetTarget(f, s.tree, e) == f.(queue := f.queue + LastAt(s, e), watches := s.watches - Dying(s, op))
  {
    if e in s.tree {
      assert Dying(s, op) == {s.tree[e]};
      ForgetSays(s, f, s.tree[e]);
    } else {
      assert Dying(s, op) == {};
      assert f.queue + [] == f.queue && s.watches - {} == s.watches;
    }
  }

  lemma MkdirOutcome(s: State, op: Op)
    requires IsTree(s.tree) && Enabled(s, op) && op.Mkdir?
    ensures Apply(s, op) == Outcome(s, op)
  {
    var m := Messages(op)[0];
    SpeakersStay(s, op);
    HeardTwo(s, m, m);
    NotifySays(s, s.(tree := NewTree(s.tree, op)), m);
    assert Dying(s, op) == {} && s.watches - {} == s.watches;
    assert Records(s, op) == Say(s, m) + [];
  }

  lemma RmdirOutcome(s: State, op: Op)
    requires IsTree(s.tree) && Enabled(s, op) && op.Rmdir?
    ensures Apply(s, op) == Outcome(s, op)
  {
    var m, f, ino := Messages(op)[0], s.(tree := NewTree(s.tree, op)), s.tree[op.d];
    SpeakersStay(s, op);
    HeardTwo(s, m, m);
    assert Dying(s, op) == {ino};
    if op.parentFirst {
      NotifySays(s, f, m);
      ForgetSays(s, f.(queue := s.queue + Say(s, m)), ino);
      Assoc(s.queue, Say(s, m), LastOf(s, ino));
    } else {
      ForgetSays(s, f, ino);
      NotifySays(s, f.(queue := s.queue + LastOf(s, ino), watches := s.watches - {ino}), m);
      Assoc(s.queue, LastOf(s, ino), Say(s, m));
    }
  }

  lemma MoveOutOutcome(s: State, op: Op)
    requires IsTree(s.tree) && Enabled(s, op) && op.MoveOut?
    ensures Apply(s, op) == Outcome(s, op)
  {
    var m, f, ino := Messages(op)[0], s.(tree := NewTree(s.tree, op)), s.tree[op.d];
    SpeakersStay(s, op);
    HeardTwo(s, m, m);
    assert Dying(s, op) == {} && s.watches - {} == s.watches;
    NotifySays(s, f, m);
    SelfSays(s, f.(queue := s.queue + Say(s, m)), ino);
    Assoc(s.queue, Say(s, m), SelfOf(s, ino));
  }

  lemma MoveInOutcome(s: State, op: Op)
    requires IsTree(s.tree) && Enabled(s, op) && op.MoveIn?
    ensures Apply(s, op) == Outcome(s, op)
  {
    var m, f := Messages(op)[0], s.(tree := NewTree(s.tree, op));
    SpeakersStay(s, op);
    HeardTwo(s, m, m);
    NotifySays(s, f, m);
    TargetSays(s, f.(queue := s.queue + Say(s, m)), op, op.e);
    Assoc(s.queue, Say(s, m), LastAt(s, op.e));
  }

  lemma TwoSay(s: State, f: State, a: Message, b: Message)
    requires SameEar(s, f, a) && SameEar(s, f, b)
    ensures Notify(Notify(f, a.dir, a.change, a.isDir, a.name, a.cookie), b.dir, b.change, b.isDir, b.name, b.cookie)
      == f.(queue := f.queue + Heard(s, [a, b]))
  {
    NotifySays(s, f, a);
    NotifySays(s, f.(queue := f.queue + Say(s, a)), b);
    HeardTwo(s, a, b);
    Assoc(f.queue, Say(s, a), Say(s, b));
  }

  lemma RenameTells(s: State, f: State, op: Op, h: seq<KEvent>, ino: Ino, g: State)
    requires op.Rename? && f.watches == s.watches
    requires g == ForgetTarget(NotifySelf(f.(queue := f.queue + h), ino), s.tree, op.e)
    ensures g == f.(queue := f.queue + (h + (SelfOf(s, ino) + LastAt(s, op.e))), watches := s.watches - Dying(s, op))
  {
    var q := f.queue + h;
    SelfSays(s, f.(queue := q), ino);
    TargetSays(s, f.(queue := q + SelfOf(s, ino)), op, op.e);
    Assoc(q, SelfOf(s, ino), LastAt(s, op.e));
    Assoc(f.queue, h, SelfOf(s, ino) + LastAt(s, op.e));
  }

  lemma RenameOutcome(s: State, op: Op)
    requires IsTree(s.tree) && Enabled(s, op) && op.Rename?
    ensures Apply(s, op) == Outcome(s, op)
  {
    var ms, f := Messages(op), s.(tree := NewTree(s.tree, op));
    SpeakersStay(s, op);
    RenameUnfolds(s, op.d, op.e, op.cookie);
    assert ms == [ms[0], ms[1]] && ms[0] in ms && ms[1] in ms;
    TwoSay(s, f, ms[0], ms[1]);
    RenameTells(s, f, op, Heard(s, ms), s.tree[op.d], Apply(s, op));
  }

  lemma FileOutcome(s: State, op: Op)
    requires IsTree(s.tree) && Enabled(s, op) && (op.FileChange? || op.FileRename?)
    ensures Apply(s, op) == Outcome(s, op)
  {
    var ms := Messages(op);
    SpeakersStay(s, op);
    assert Dying(s, op) == {} && s.watches - {} == s.watches;
    if op.FileRename? {
      TwoSay(s, s, ms[0], ms[1]);
      assert Records(s, op) == Heard(s, ms);
    } else {
      NotifySays(s, s, ms[0]);
      HeardTwo(s, ms[0], ms[0]);
      assert Records(s, op) == Say(s, ms[0]);
    }
  }

  lemma ChmodOutcome(s: State, op: Op)
    requires IsTree(s.tree) && Enabled(s, op) && op.Chmod?
    ensures Apply(s, op) == Outcome(s, op)
  {
    var ms, ino := Messages(op), s.tree[op.d];
    SpeakersStay(s, op);
    assert Dying(s, op) == {} && s.watches - {} == s.watches;
    if op.d == [] {
      SelfSays(s, s, ino);
      assert Records(s, op) == SelfOf(s, ino);
    } else {
      NotifySays(s, s, ms[0]);
      HeardTwo(s, ms[0], ms[0]);
      SelfSays(s, s.(queue := s.queue + Say(s, ms[0])), ino);
      Assoc(s.queue, Say(s, ms[0]), SelfOf(s, ino));
    }
  }

  /** From any tree, whatever is watched and queued. */
  lemma ApplyIsOutcome(s: State, op: Op)
    requires IsTree(s.tree) && Enabled(s, op)
    ensures Apply(s, op) == Outcome(s, op)
  {
    match op
    case Mkdir(_, _) => MkdirOutcome(s, op);
    case Rmdir(_, _) => RmdirOutcome(s, op);
    case Rename(_, _, _) => RenameOutcome(s, op);
    case MoveOut(_, _) => MoveOutOutcome(s, op);
    case MoveIn(_, _, _) => MoveInOutcome(s, op);
    case Chmod(_) => ChmodOutcome(s, op);
    case _ => FileOutcome(s, op);
  }

  // ---- which records there are ----------------------------------------------------------

  predicate Hears(s: State, d: Dir) {
    d in s.tree && s.tree[d] in s.watches
  }

  /** The record of a message that is heard. */
  function RecordOf(s: State, m: Message): KEvent
    requires Hears(s, m.dir)
  {
    Named(s.watches[s.tree[m.dir]], m.change, m.isDir, m.name, m.cookie)
  }

  lemma NamelessQuiet(s: State, op: Op)
    ensures Quiet(Nameless(s, op))
  {
  }

  lemma {:induction false} HeardSays(s: State, ms: seq<Message>, ev: KEvent) returns (m: Message)
    requires ev in Heard(s, ms)
    ensures m in ms && Hears(s, m.dir) && ev == RecordOf(s, m)
  {
    if ev in Say(s, ms[0]) {
      m := ms[0];
    } else {
      m := HeardSays(s, ms[1..], ev);
    }
  }

  lemma {:induction false} SaidIsHeard(s: State, ms: seq<Message>, m: Message)
    requires m in ms && Hears(s, m.dir)
    ensures RecordOf(s, m) in Heard(s, ms)
  {
    if m != ms[0] {
      SaidIsHeard(s, ms[1..], m);
    }
  }

  lemma NamedRecord(s: State, op: Op, ev: KEvent) returns (m: Message)
    requires BelowRoot(op) && ev in Records(s, op) && ev.Named?
    ensures m in Messages(op) && Hears(s, m.dir) && ev == RecordOf(s, m)
  {
    NamelessQuiet(s, op);
    m := HeardSays(s, Messages(op), ev);
  }

  lemma {:induction false} HeardNamed(s: State, ms: seq<Message>)
    ensures forall ev :: ev in Heard(s, ms) ==> ev.Named?
  {
    if ms != [] {
      HeardNamed(s, ms[1..]);
    }
  }

  lemma IgnoredRecords(s: State, op: Op, wd: Wd)
    requires Enabled(s, op)
    ensures Ignored(wd) in Records(s, op) <==>
      exists i :: i in Dying(s, op) && i in s.watches && s.watches[i] == wd
  {
    HeardNamed(s, Messages(op));
    if Ignored(wd) in Nameless(s, op) {
      var c :| c in s.tree && DiesAt(op, c) && Ignored(wd) in LastAt(s, c);
      assert s.tree[c] in Dying(s, op);
    }
    forall i | i in Dying(s, op) && i in s.watches && s.watches[i] == wd
      ensures Ignored(wd) in Nameless(s, op)
    {
      var c :| c in s.tree && DiesAt(op, c) && s.tree[c] == i;
      assert Ignored(wd) in LastAt(s, c);
    }
  }

  /** Whatever is queued already, an operation leaves every descriptor accounted for. */
  lemma ApplyBookkeeping(s: State, op: Op)
    requires Bookkeeping(s) && Enabled(s, op)
    ensures Bookkeeping(Outcome(s, op))
  {
    var f := Outcome(s, op);
    TreeAfter(s, op);
    forall i, j | SameWatch(f.watches, i, j)
      ensures i == j
    {
      assert SameWatch(s.watches, i, j);
    }
    forall wd | wd in f.table
      ensures Accounted(f, wd)
    {
      assert Accounted(s, wd);
      IgnoredRecords(s, op, wd);
      if wd in s.watches.Values {
        var i :| i in s.watches && s.watches[i] == wd;
        assert i !in Dying(s, op) ==> i in f.watches;
      }
    }
    forall wd: Wd | Ignored(wd) in f.queue
      ensures wd !in f.watches.Values && wd < f.nextWd
    {
      IgnoredRecords(s, op, wd);
      if Ignored(wd) in s.queue {
        assert forall i :: i in f.watches ==> f.watches[i] in s.watches.Values;
      } else {
        var i :| i in Dying(s, op) && i in s.watches && s.watches[i] == wd;
        assert forall j :: j in f.watches && f.watches[j] == wd ==> SameWatch(s.watches, i, j);
      }
    }
  }
}
