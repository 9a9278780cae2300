/** From the records of FSEvents to the coalesced event: a rename on macOS. */
module MacMoves {
  import opened Events
  import B = Batching
  import opened EmissionLog
  import opened Pairing
  import opened ActionEvents
  import opened MacSpec
  import opened MacHistory

  /** Takes part in pairing under inode `c`. */
  predicate Carries(root: Path, recursive: bool, r: Record, c: Id) {
    Accepts(root, recursive, r) && r.typ != MODIFIED && r.inode == c
  }

  lemma OnlyLast(root: Path, recursive: bool, rs: seq<Record>, c: Id)
    requires rs != []
    ensures var front, last := rs[..|rs| - 1], rs[|rs| - 1];
      Only(c, Items(root, recursive, rs)) ==
        Only(c, Items(root, recursive, front)) +
          if Carries(root, recursive, last, c) then [EventFor(root, recursive, last)] else []
  {
    var front, last := rs[..|rs| - 1], rs[|rs| - 1];
    var item := ItemOf(root, recursive, last);
    OnlyConcat(c, Items(root, recursive, front), item);
    if item != [] {
      assert item == [EventFor(root, recursive, last)] && item[..0] == [];
    }
  }

  lemma {:induction false} OnlyNobody(root: Path, recursive: bool, rs: seq<Record>, c: Id)
    requires forall k :: 0 <= k < |rs| ==> !Carries(root, recursive, rs[k], c)
    ensures Only(c, Items(root, recursive, rs)) == []
  {
    if rs != [] {
      OnlyLast(root, recursive, rs, c);
      OnlyNobody(root, recursive, rs[..|rs| - 1], c);
    }
  }

  lemma {:induction false} OnlyOne(root: Path, recursive: bool, rs: seq<Record>, i: nat)
    requires i < |rs| && Carries(root, recursive, rs[i], rs[i].inode)
    requires forall k :: 0 <= k < |rs| && k != i ==> !Carries(root, recursive, rs[k], rs[i].inode)
    ensures Only(rs[i].inode, Items(root, recursive, rs)) == [EventFor(root, recursive, rs[i])]
  {
    OnlyLast(root, recursive, rs, rs[i].inode);
    if i == |rs| - 1 {
      OnlyNobody(root, recursive, rs[..i], rs[i].inode);
    } else {
      OnlyOne(root, recursive, rs[..|rs| - 1], i);
    }
  }

  /** The two records are the only ones of their inode that pair. */
  predicate Mates(root: Path, recursive: bool, rs: seq<Record>, i: nat, j: nat) {
    && i < j < |rs| && rs[i].inode == rs[j].inode
    && Carries(root, recursive, rs[i], rs[i].inode) && Carries(root, recursive, rs[j], rs[i].inode)
    && forall k :: 0 <= k < |rs| && k != i && k != j ==> !Carries(root, recursive, rs[k], rs[i].inode)
  }

  lemma {:induction false} OnlyTwo(root: Path, recursive: bool, rs: seq<Record>, i: nat, j: nat)
    requires Mates(root, recursive, rs, i, j)
    ensures Only(rs[i].inode, Items(root, recursive, rs)) ==
      [EventFor(root, recursive, rs[i]), EventFor(root, recursive, rs[j])]
  {
    OnlyLast(root, recursive, rs, rs[i].inode);
    if j == |rs| - 1 {
      OnlyOne(root, recursive, rs[..j], i);
    } else {
      OnlyTwo(root, recursive, rs[..|rs| - 1], i, j);
    }
  }

  /** macOS reports both halves of a rename as RENAMED_OLD, with the inode of what moved.
      Whatever else the window holds, they come out as one Move, from the first path to the
      second. */
  lemma RenameBecomesMove(root: Path, recursive: bool, rs: seq<Record>, i: nat, j: nat, order: seq<Id>)
    requires Mates(root, recursive, rs, i, j) && rs[i].inode != 0
    requires rs[i].typ == RENAMED_OLD && rs[j].typ == RENAMED_OLD
    requires Enumerates(order, B.AbsorbAll(Items(root, recursive, rs)).pending.Keys)
    ensures var log := Project(FromId(rs[i].inode), FullLog(Items(root, recursive, rs), order));
      |log| == 1 && log[0].entry.fe ==
        FileEvent(Move, EventFor(root, recursive, rs[j]).path, EventFor(root, recursive, rs[i]).path)
  {
    OnlyTwo(root, recursive, rs, i, j);
    PairAlone(EventFor(root, recursive, rs[i]), EventFor(root, recursive, rs[j]), Items(root, recursive, rs), order);
  }
}
