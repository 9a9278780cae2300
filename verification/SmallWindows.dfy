/** What a window of one event, or of two with one id, comes to: the table the coalescer
    implements. */
module SmallWindows {
  import opened Events
  import opened Batching

  /** The single events, by type code. */
  function Single(ev: RawEvent): seq<Entry> {
    if ev.typ == 1 || ev.typ == 5 then [Entry(FileEvent(Created, ev.path, ""), false)]
    else if ev.typ == 2 then [Entry(FileEvent(Removed, ev.path, ""), false)]
    else if ev.typ == 3 then [Entry(FileEvent(Modified, ev.path, ""), false)]
    else if ev.typ == 4 then [Entry(FileEvent(Removed, ev.path, ""), true)]
    else []
  }

  /** The three pairs that are a rename: old and new name; two halves as macOS reports them;
      removed here and created there under the same id. */
  predicate Renames(a: RawEvent, b: RawEvent) {
    (a.typ == 4 && b.typ == 5) || (a.typ == 4 && b.typ == 4) || (a.typ == 2 && b.typ == 1)
  }

  function Couple(a: RawEvent, b: RawEvent): seq<Entry> {
    if Renames(a, b) then [Entry(FileEvent(Move, b.path, a.path), false)] else Single(a) + Single(b)
  }

  lemma AbsorbTwo(a: RawEvent, b: RawEvent)
    ensures AbsorbAll([a]) == Absorb(EMPTY, a) && AbsorbAll([a, b]) == Absorb(AbsorbAll([a]), b)
  {
    assert [a][..0] == [] && [a, b][..1] == [a];
  }

  lemma CommitOne(b: Batch, order: seq<Id>)
    requires |b.pending| <= 1 && Enumerates(order, b.pending.Keys)
    ensures |order| <= 1
    ensures order == [] ==> b.pending == map[] && Drain(b, order).out == b.out
    ensures order != [] ==> order[0] in b.pending && Drain(b, order).out == Commit(b, b.pending[order[0]]).out
  {
    EnumerationLength(order, b.pending.Keys);
    assert |b.pending.Keys| == |b.pending|;
    if order == [] {
      assert forall k :: k in b.pending ==> k in order;
    } else {
      assert order[0] in order && order[..0] == [];
      assert CommitKeys(b, []) == b;
    }
  }

  /** One event, with or without an id. */
  lemma OneEvent(ev: RawEvent, order: seq<Id>)
    requires Enumerates(order, AbsorbAll([ev]).pending.Keys)
    ensures Drain(AbsorbAll([ev]), order).out == Single(ev)
  {
    AbsorbTwo(ev, ev);
    CommitOne(AbsorbAll([ev]), order);
    if Pairable(ev) {
      assert ev.id in AbsorbAll([ev]).pending.Keys;
    }
  }

  /** Two events with one id, neither a modification. */
  lemma TwoEvents(a: RawEvent, b: RawEvent, order: seq<Id>)
    requires a.id == b.id != 0 && a.typ != 3 && b.typ != 3
    requires Enumerates(order, AbsorbAll([a, b]).pending.Keys)
    ensures Drain(AbsorbAll([a, b]), order).out == Couple(a, b)
  {
    AbsorbTwo(a, b);
    var w := AbsorbAll([a, b]);
    assert AbsorbAll([a]).pending == map[a.id := a];
    if Renames(a, b) {
      assert w.pending == map[];
    } else {
      assert w.pending == map[a.id := b];
      assert a.id in w.pending.Keys;
    }
    CommitOne(w, order);
  }
}
