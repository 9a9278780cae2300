/** The event vocabulary shared by the C reader and the Go coalescer. */
module Events {

  datatype Option<+T> = None | Some(value: T)

  type Path = string

  function B2N(b: bool): nat { if b then 1 else 0 }

  /** A 64-bit correlation id; 0 means "the backend surfaced no id". */
  type Id = x: int | 0 <= x < 0x1_0000_0000_0000_0000

  // Raw event-type codes of the C ABI.
  const CREATED := 1
  const REMOVED := 2
  const MODIFIED := 3
  const RENAMED_OLD := 4
  const RENAMED_NEW := 5

  /** An event on its way from the reader to the coalescer. The type code is a
      plain integer, as in the source: nothing stops an unknown code. */
  datatype RawEvent = RawEvent(typ: int, path: Path, id: Id)

  datatype EventType = Created | Removed | Modified | Move

  datatype FileEvent = FileEvent(kind: EventType, path: Path, oldPath: Path)

  /** A committed event; `fromHalf` marks one born from an unpaired RENAMED_OLD. */
  datatype Entry = Entry(fe: FileEvent, fromHalf: bool)

  // ---- orders and lists ------------------------------------------------------------

  /** `order` lists the elements of `all`, each once: any order in which Go may range over
      a map with these keys, or in which a table may hold them. */
  ghost predicate Enumerates<T(!new)>(order: seq<T>, all: set<T>) {
    && (forall x :: x in order <==> x in all)
    && (forall i, j :: 0 <= i < j < |order| ==> order[i] != order[j])
  }

  lemma {:induction false} EnumerationLength<T(!new)>(order: seq<T>, all: set<T>)
    requires Enumerates(order, all)
    ensures |order| == |all|
  {
    if order == [] {
      assert forall x :: x in all ==> x in order;
      assert all == {};
    } else {
      var front, last := order[..|order| - 1], order[|order| - 1];
      assert order == front + [last];
      assert forall i :: 0 <= i < |front| ==> order[i] != last;
      EnumerationLength(front, all - {last});
    }
  }

  /** Every finite set can be enumerated. */
  lemma {:induction false} SomeEnumeration<T(!new)>(all: set<T>) returns (order: seq<T>)
    ensures Enumerates(order, all)
    decreases all
  {
    if all == {} {
      order := [];
    } else {
      var x :| x in all;
      var rest := SomeEnumeration(all - {x});
      order := rest + [x];
    }
  }

  lemma Assoc<T>(a: seq<T>, b: seq<T>, c: seq<T>)
    ensures (a + b) + c == a + (b + c)
  {
  }

  /** Two steps of a ledger, each of which balances, balance together. */
  lemma Regroup<T>(p: seq<T>, ps: seq<T>, left: seq<T>, mid: seq<T>, start: seq<T>, x: seq<T>, xs: seq<T>)
    requires ps + left == mid + xs && p + mid == start + x
    ensures (p + ps) + left == start + (x + xs)
  {
    assert (p + ps) + left == p + (ps + left);
    assert p + (mid + xs) == (p + mid) + xs;
    assert (start + x) + xs == start + (x + xs);
  }
}
