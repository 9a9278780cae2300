/** One settle window of the coalescer, as functions on values. */
module Batching {
  import opened Events

  /** `drained` says that `pending` is Go's nil map: it reads as empty, and
      writing to it is a run-time panic. */
  datatype Batch = Batch(
    pending: map<Id, RawEvent>,
    drained: bool,
    out: seq<Entry>,
    lastModifiedAt: map<Path, nat>)

  const EMPTY := Batch(map[], false, [], map[])

  /** The three type combinations that form a Move, in arrival order. */
  predicate Pairs(first: int, second: int) {
    || (first == RENAMED_OLD && second == RENAMED_NEW)
    || (first == RENAMED_OLD && second == RENAMED_OLD)
    || (first == REMOVED && second == CREATED)
  }

  function MoveOf(first: RawEvent, second: RawEvent): Entry {
    Entry(FileEvent(Move, second.path, first.path), false)
  }

  /** The single event a raw event stands for on its own; None for MODIFIED
      (which is deduplicated instead) and for codes outside 1..5. */
  function EntryOf(ev: RawEvent): Option<Entry> {
    if ev.typ == CREATED || ev.typ == RENAMED_NEW then
      Some(Entry(FileEvent(Created, ev.path, ""), false))
    else if ev.typ == REMOVED then
      Some(Entry(FileEvent(Removed, ev.path, ""), false))
    else if ev.typ == RENAMED_OLD then
      Some(Entry(FileEvent(Removed, ev.path, ""), true))
    else
      None
  }

  function ModifiedEntry(path: Path): Entry {
    Entry(FileEvent(Modified, path, ""), false)
  }

  function RecordModified(b: Batch, path: Path): Batch {
    if path in b.lastModifiedAt then b
    else b.(lastModifiedAt := b.lastModifiedAt[path := |b.out|], out := b.out + [ModifiedEntry(path)])
  }

  function Commit(b: Batch, ev: RawEvent): Batch {
    if ev.typ == MODIFIED then RecordModified(b, ev.path)
    else match EntryOf(ev)
      case Some(e) => b.(out := b.out + [e])
      case None => b
  }

  /** Takes part in pairing. */
  predicate Pairable(ev: RawEvent) {
    ev.typ != MODIFIED && ev.id != 0
  }

  /** Absorbing a pairable event after the batch was drained writes to a nil map. */
  predicate Panics(b: Batch, ev: RawEvent) {
    b.drained && Pairable(ev)
  }

  function Absorb(b: Batch, ev: RawEvent): Batch
    requires !Panics(b, ev)
  {
    if ev.typ == MODIFIED then RecordModified(b, ev.path)
    else if ev.id == 0 then Commit(b, ev)
    else if ev.id !in b.pending then b.(pending := b.pending[ev.id := ev])
    else
      var other := b.pending[ev.id];
      if Pairs(other.typ, ev.typ) then
        b.(pending := b.pending - {ev.id}, out := b.out + [MoveOf(other, ev)])
      else
        Commit(b, other).(pending := b.pending[ev.id := ev])
  }

  /** The batch that has absorbed exactly `s`, from its creation. */
  function AbsorbAll(s: seq<RawEvent>): (b: Batch)
    ensures !b.drained
  {
    if s == [] then EMPTY
    else Absorb(AbsorbAll(s[..|s| - 1]), s[|s| - 1])
  }

  /** The pending entries of `order`, committed in that order. */
  function CommitKeys(b: Batch, order: seq<Id>): (r: Batch)
    requires forall k :: k in order ==> k in b.pending
    ensures r.pending == b.pending && r.drained == b.drained
  {
    if order == [] then b
    else Commit(CommitKeys(b, order[..|order| - 1]), b.pending[order[|order| - 1]])
  }

  /** Draining with the map enumerated as `order`. */
  function Drain(b: Batch, order: seq<Id>): Batch
    requires Enumerates(order, b.pending.Keys)
  {
    CommitKeys(b, order).(pending := map[], drained := true)
  }
}
