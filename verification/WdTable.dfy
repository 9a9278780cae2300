/** The watch table: an open-addressed map from watch descriptors to relative
    paths, with tombstones, a 3/4 load rule and a doubling rehash. */
module WdTables {
  import opened Events
  import opened WdSlots

  class WdTable {
    var slots: array<Slot>
    var valid: nat
    var used: nat  // valid + tombstones

    // Cost accounting: puts so far, puts into a never-used slot since the last
    // rehash, and old slots scanned by all rehashes.
    ghost var puts: nat
    ghost var newSlots: nat
    ghost var scanned: nat

    ghost predicate Valid()
      reads this, slots
    {
      && slots.Length >= INITIAL_CAPACITY && PowerOfTwo(slots.Length)
      && Tidy(slots[..])
      && valid == CountLive(slots[..]) && used == CountUsed(slots[..])
      && 4 * used <= 3 * slots.Length
      && 8 * used <= 3 * slots.Length + 8 * newSlots
      && 3 * scanned + 8 * newSlots <= 8 * puts
    }

    ghost function Contents(): map<nat, Path>
      requires Valid()
      reads this, slots
    {
      Entries(slots[..])
    }

    constructor ()
      ensures Valid() && fresh(slots) && Contents() == map[]
      ensures slots.Length == INITIAL_CAPACITY && puts == scanned == 0
    {
      slots := new Slot[INITIAL_CAPACITY](_ => FREE);
      valid := 0;
      used := 0;
      puts := 0;
      newSlots := 0;
      scanned := 0;
      new;
      assert Pow2(1) == 2 && Pow2(2) == 4 && Pow2(3) == 8 && Pow2(4) == INITIAL_CAPACITY;
      AllFree(slots[..]);
    }

    /** Probes from the home slot: the slot of `wd`, or else the first tombstone
        met, or else the empty slot that ended the probe. */
    static method SlotIndex(slots: array<Slot>, wd: nat) returns (i: nat)
      requires slots.Length > 0 && PowerOfTwo(slots.Length) && Tidy(slots[..])
      requires CountUsed(slots[..]) < slots.Length
      ensures Finds(slots[..], wd, i)
    {
      ghost var s := slots[..];
      ghost var cap := slots.Length;
      ghost var home := Home(wd, cap);
      ghost var empty := SomeEmpty(s);
      var mask := slots.Length - 1;
      i := And(wd, mask);
      var tomb: Option<nat> := None;
      ghost var d := 0;
      while true
        invariant d < cap && i == At(home, d, cap) && Passed(s, wd, d)
        invariant tomb.Some? ==> tomb.value < cap && s[tomb.value].wd == TOMBSTONE && OnPath(s, wd, tomb.value)
        decreases cap - d
      {
        if slots[i].wd == wd {
          return;
        }
        if slots[i].wd == EMPTY {
          ProbeEnds(s, wd, d);
          if tomb.Some? {
            i := tomb.value;
          }
          return;
        }
        if slots[i].wd == TOMBSTONE && tomb == None {
          tomb := Some(i);
        }
        PassOne(s, wd, d, empty);
        MaskWraps(i + 1, cap);
        d := d + 1;
        i := And(i + 1, mask);
      }
    }

    /** Copies the live slots into a new array of twice the size. */
    static method Rehash(slots: array<Slot>) returns (ns: array<Slot>)
      requires slots.Length > 0 && PowerOfTwo(slots.Length) && Unique(slots[..])
      ensures fresh(ns) && ns.Length == 2 * slots.Length
      ensures Clean(ns[..], Entries(slots[..]), CountLive(slots[..]))
    {
      ns := new Slot[2 * slots.Length](_ => FREE);
      ghost var s := slots[..];
      PowerOfTwoDoubles(slots.Length);
      AllFree(ns[..]);
      assert s[..0] == [];
      for j := 0 to slots.Length
        invariant fresh(ns) && slots[..] == s
        invariant Rehashed(s, j, ns[..])
      {
        if slots[j].wd < 0 {
          RehashSkips(s, j, ns[..]);
        } else {
          RehashRoom(s, j, ns[..]);
          var i := SlotIndex(ns, slots[j].wd);
          RehashMoves(s, j, ns[..], i);
          ns[i] := slots[j];
        }
      }
      assert s[..|s|] == s;
    }

    /** Doubles the capacity and drops the tombstones; `allocOk` is malloc's answer. */
    method Grow(allocOk: bool) returns (ok: bool)
      requires Valid() && 4 * used >= 3 * slots.Length
      modifies this
      ensures Valid() && ok == allocOk && puts == old(puts)
      ensures Contents() == old(Contents())
      ensures ok ==> fresh(slots) && slots.Length == 2 * old(slots.Length) && used == valid
      ensures ok ==> 8 * old(newSlots) >= 3 * old(slots.Length)
      ensures ok ==> newSlots == 0 && scanned == old(scanned) + old(slots.Length)
      ensures !ok ==> unchanged(this)
    {
      if !allocOk {
        return false;
      }
      LiveAtMostUsed(slots[..]);
      PowerOfTwoDoubles(slots.Length);
      var ns := Rehash(slots);
      scanned := scanned + slots.Length;
      newSlots := 0;
      slots := ns;
      used := valid;
      return true;
    }

    /** Writes the entry into the slot the probe answers; there is room for it. */
    method Store(wd: nat, path: Path)
      requires Valid() && 4 * (used + 1) <= 3 * slots.Length
      modifies this, slots
      ensures Valid() && slots == old(slots)
      ensures Contents() == old(Contents())[wd := path]
      ensures puts == old(puts) + 1
    {
      puts := puts + 1;
      LiveAtMostUsed(slots[..]);
      var i := SlotIndex(slots, wd);
      ghost var s := slots[..];
      CountUpdate(s, i, Slot(wd, path));
      InsertTidy(s, wd, i, path);
      if slots[i].wd == wd {
        slots[i] := Slot(wd, path);
      } else {
        var wasTombstone := slots[i].wd == TOMBSTONE;
        slots[i] := Slot(wd, path);
        valid := valid + 1;
        if !wasTombstone {
          used := used + 1;
          newSlots := newSlots + 1;
        }
      }
      assert slots[..] == s[i := Slot(wd, path)];
    }

    /** Adds or replaces one entry; grows first when 3/4 full. */
    method Put(wd: nat, path: Path, allocOk: bool) returns (ok: bool)
      requires Valid()
      modifies this, slots
      ensures Valid() && (slots == old(slots) || fresh(slots))
      ensures ok == (allocOk || 4 * (old(used) + 1) <= 3 * old(slots.Length))
      ensures Contents() == if ok then old(Contents())[wd := path] else old(Contents())
      ensures puts == old(puts) + 1
    {
      if 4 * (used + 1) > 3 * slots.Length {
        FullTable(slots.Length, used);
        var grown := Grow(allocOk);
        if !grown {
          puts := puts + 1;
          return false;
        }
      }
      Store(wd, path);
      return true;
    }

    method Get(wd: int) returns (path: Option<Path>)
      requires Valid()
      ensures path == if wd in Contents() then Some(Contents()[wd]) else None
    {
      if wd < 0 {
        return None;
      }
      var i := SlotIndex(slots, wd);
      FindsDecides(slots[..], wd, i);
      return if slots[i].wd == wd then Some(slots[i].path) else None;
    }

    /** Leaves a tombstone; unknown descriptors are ignored. */
    method Remove(wd: int)
      requires Valid()
      modifies this, slots
      ensures Valid() && slots == old(slots) && puts == old(puts) && scanned == old(scanned)
      ensures Contents() == if wd >= 0 then old(Contents()) - {wd} else old(Contents())
    {
      if wd < 0 {
        return;
      }
      ghost var s := slots[..];
      var i := SlotIndex(slots, wd);
      FindsDecides(s, wd, i);
      if slots[i].wd != wd {
        assert Entries(s) - {wd} == Entries(s);
        return;
      }
      RemoveTidy(s, i);
      CountUpdate(s, i, Slot(TOMBSTONE, ""));
      slots[i] := Slot(TOMBSTONE, "");
      assert slots[..] == s[i := Slot(TOMBSTONE, "")];
      valid := valid - 1;
    }
  }

  // ---- whole runs ----------------------------------------------------------

  datatype Op = Put(key: nat, path: Path, allocOk: bool) | Get(wd: int) | Remove(wd: int)

  datatype Answer = Stored(ok: bool) | Found(path: Option<Path>) | Silent

  function Next(m: map<nat, Path>, op: Op, answer: Answer): map<nat, Path> {
    if op.Put? then (if answer == Stored(true) then m[op.key := op.path] else m)
    else if op.Remove? && op.wd >= 0 then m - {op.wd}
    else m
  }

  /** The map a plain finite map would hold after `ops`, given which puts succeeded. */
  function After(ops: seq<Op>, answers: seq<Answer>): map<nat, Path>
    requires |answers| == |ops|
  {
    if ops == [] then map[]
    else
      Next(After(ops[..|ops| - 1], answers[..|ops| - 1]), ops[|ops| - 1], answers[|ops| - 1])
  }

  /** The answer a plain finite map `m` gives; a put fails only without memory. */
  predicate Explains(m: map<nat, Path>, op: Op, answer: Answer) {
    if op.Put? then answer.Stored? && (op.allocOk ==> answer.ok)
    else if op.Get? then answer == Found(if op.wd in m then Some(m[op.wd]) else None)
    else answer == Silent
  }

  ghost predicate Faithful(ops: seq<Op>, answers: seq<Answer>)
    requires |answers| == |ops|
  {
    forall i :: 0 <= i < |ops| ==> Explains(After(ops[..i], answers[..i]), ops[i], answers[i])
  }

  function CountPuts(ops: seq<Op>): nat {
    if ops == [] then 0 else CountPuts(ops[..|ops| - 1]) + B2N(ops[|ops| - 1].Put?)
  }

  lemma FaithfulStep(ops: seq<Op>, answers: seq<Answer>, op: Op, answer: Answer)
    requires |answers| == |ops| && Faithful(ops, answers)
    requires Explains(After(ops, answers), op, answer)
    ensures Faithful(ops + [op], answers + [answer])
  {
    var xs, ys := ops + [op], answers + [answer];
    forall i | 0 <= i < |xs|
      ensures Explains(After(xs[..i], ys[..i]), xs[i], ys[i])
    {
      assert xs[..i] == ops[..i] && ys[..i] == answers[..i];
      assert ops[..|ops|] == ops && answers[..|answers|] == answers;
    }
  }

  lemma AfterStep(ops: seq<Op>, answers: seq<Answer>, op: Op, answer: Answer)
    requires |answers| == |ops|
    ensures After(ops + [op], answers + [answer]) == Next(After(ops, answers), op, answer)
    ensures CountPuts(ops + [op]) == CountPuts(ops) + B2N(op.Put?)
  {
    assert (ops + [op])[..|ops|] == ops && (answers + [answer])[..|ops|] == answers;
  }

  method Apply(table: WdTable, op: Op) returns (answer: Answer)
    requires table.Valid()
    modifies table, table.slots
    ensures table.Valid() && (table.slots == old(table.slots) || fresh(table.slots))
    ensures Explains(old(table.Contents()), op, answer)
    ensures table.Contents() == Next(old(table.Contents()), op, answer)
    ensures table.puts == old(table.puts) + B2N(op.Put?)
  {
    answer := Silent;
    if op.Put? {
      var ok := table.Put(op.key, op.path, op.allocOk);
      answer := Stored(ok);
    } else if op.Get? {
      var path := table.Get(op.wd);
      answer := Found(path);
    } else {
      table.Remove(op.wd);
    }
  }

  /** Any sequence of operations on a new table: every answer is a finite map's,
      and all rehashes together scan at most 8/3 old slots per put. */
  method Run(ops: seq<Op>) returns (answers: seq<Answer>, ghost scanned: nat)
    ensures |answers| == |ops| && Faithful(ops, answers)
    ensures 3 * scanned <= 8 * CountPuts(ops)
  {
    var table := new WdTable();
    answers := [];
    assert ops[..0] == [];
    for i := 0 to |ops|
      invariant table.Valid() && fresh(table) && fresh(table.slots)
      invariant |answers| == i && Faithful(ops[..i], answers)
      invariant table.Contents() == After(ops[..i], answers)
      invariant table.puts == CountPuts(ops[..i])
    {
      var answer := Apply(table, ops[i]);
      FaithfulStep(ops[..i], answers, ops[i], answer);
      AfterStep(ops[..i], answers, ops[i], answer);
      assert ops[..i + 1] == ops[..i] + [ops[i]];
      answers := answers + [answer];
    }
    assert ops[..|ops|] == ops;
    scanned := table.scanned;
  }
}
