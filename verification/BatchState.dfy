/** The coalescer's mutable batch, proved against the functions of Batching. */
module BatchStates {
  import opened Events
  import opened B = Batching

  /** The in-flight batch of one settle window. */
  class BatchState {
    var pending: map<Id, RawEvent>
    var pendingIsNil: bool
    var out: seq<Entry>
    var lastModifiedAt: map<Path, nat>

    ghost predicate Valid()
      reads this
    {
      pendingIsNil ==> pending == map[]
    }

    ghost function Abs(): Batch
      reads this
    {
      Batch(pending, pendingIsNil, out, lastModifiedAt)
    }

    constructor ()
      ensures Valid() && Abs() == EMPTY
    {
      pending := map[];
      pendingIsNil := false;
      out := [];
      lastModifiedAt := map[];
    }

    method RecordModified(path: Path)
      requires Valid()
      modifies this
      ensures Valid() && Abs() == B.RecordModified(old(Abs()), path)
    {
      if path in lastModifiedAt {
        return;
      }
      lastModifiedAt := lastModifiedAt[path := |out|];
      out := out + [ModifiedEntry(path)];
    }

    method Commit(ev: RawEvent)
      requires Valid()
      modifies this
      ensures Valid() && Abs() == B.Commit(old(Abs()), ev)
    {
      if ev.typ == CREATED || ev.typ == RENAMED_NEW {
        out := out + [Entry(FileEvent(Created, ev.path, ""), false)];
      } else if ev.typ == REMOVED {
        out := out + [Entry(FileEvent(Removed, ev.path, ""), false)];
      } else if ev.typ == RENAMED_OLD {
        out := out + [Entry(FileEvent(Removed, ev.path, ""), true)];
      } else if ev.typ == MODIFIED {
        RecordModified(ev.path);
      }
    }

    method TryPair(first: RawEvent, second: RawEvent) returns (paired: bool)
      requires Valid()
      modifies this
      ensures Valid() && paired == Pairs(first.typ, second.typ)
      ensures Abs() == if paired then old(Abs()).(out := old(out) + [MoveOf(first, second)]) else old(Abs())
    {
      if (first.typ == RENAMED_OLD && second.typ == RENAMED_NEW)
         || (first.typ == RENAMED_OLD && second.typ == RENAMED_OLD)
         || (first.typ == REMOVED && second.typ == CREATED)
      {
        out := out + [Entry(FileEvent(Move, second.path, first.path), false)];
        return true;
      }
      return false;
    }

    /** `panicked` stands for Go's "assignment to entry in nil map". */
    method Absorb(ev: RawEvent) returns (panicked: bool)
      requires Valid()
      modifies this
      ensures Valid() && panicked == Panics(old(Abs()), ev)
      ensures Abs() == if panicked then old(Abs()) else B.Absorb(old(Abs()), ev)
    {
      panicked := false;
      if ev.typ == MODIFIED {
        RecordModified(ev.path);
        return;
      }
      if ev.id == 0 {
        Commit(ev);
        return;
      }
      if ev.id !in pending {
        if pendingIsNil {
          return true;
        }
        pending := pending[ev.id := ev];
        return;
      }
      var other := pending[ev.id];
      var paired := TryPair(other, ev);
      if paired {
        pending := pending - {ev.id};
        return;
      }
      Commit(other);
      pending := pending[ev.id := ev];
    }

    /** Ranges over `pending` in an order of the runtime's choosing. */
    method Drain() returns (entries: seq<Entry>, ghost order: seq<Id>)
      requires Valid()
      modifies this
      ensures Valid() && Enumerates(order, old(pending).Keys)
      ensures Abs() == B.Drain(old(Abs()), order) && entries == out
    {
      order := [];
      var rest := pending.Keys;
      while rest != {}
        invariant rest <= pending.Keys && Valid() && pending == old(pending)
        invariant Enumerates(order, pending.Keys - rest)
        invariant Abs() == CommitKeys(old(Abs()), order)
        decreases rest
      {
        var k :| k in rest;
        Commit(pending[k]);
        assert (order + [k])[..|order|] == order;
        order := order + [k];
        rest := rest - {k};
      }
      pending := map[];
      pendingIsNil := true;
      entries := out;
    }
  }
}
