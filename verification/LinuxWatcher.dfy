/** next_event on Linux: bytes in, events out, against the functions on states. */
module LinuxWatchers {
  import opened Events
  import opened RelPaths
  import opened Inotify
  import opened FileOps
  import opened WalkSpec
  import opened TreeRuns
  import opened Framing
  import opened Kernels
  import opened TreeWatchers

  /** What one pass of next_event's loop leads to. Nothing: there is nothing to read. */
  datatype Outcome = Skipped | Overflowed | Yields(ev: RawEvent) | NoMemory | Nothing | Shut

  /** A record was taken, and all that it asks for was done. */
  predicate Taken(o: Outcome) {
    o.Skipped? || o.Overflowed? || o.Yields?
  }

  function EventOf(o: Outcome): Option<RawEvent> {
    if o.Yields? then Some(o.ev) else None
  }

  ghost predicate Matches(rs: seq<Record>, q: seq<KEvent>) {
    |rs| == |q| && forall i :: 0 <= i < |rs| ==> Represents(rs[i], q[i])
  }

  class LinuxWatcher {
    const tree: TreeWatcher
    const buffer: ReadBuffer
    var closing: bool

    ghost predicate Valid()
      reads this, tree, tree.table, tree.table.slots, tree.kernel, buffer, buffer.bytes
    {
      && tree.Valid() && buffer.Valid()
      && Matches(buffer.pending, tree.kernel.inFlight)
    }

    ghost function Abs(): State
      reads tree, tree.kernel
    {
      tree.Abs()
    }

    /** filecat_open, up to the first watch. */
    constructor (root: Path, recursive: bool, kernel: Kernel)
      requires kernel.inFlight == []
      ensures Valid() && !closing && fresh(tree) && fresh(tree.table) && fresh(tree.table.slots)
      ensures fresh(buffer) && fresh(buffer.bytes)
      ensures tree.root == root && tree.recursive == recursive && tree.kernel == kernel
      ensures Abs() == State(kernel.tree, kernel.watches, kernel.nextWd, kernel.queue, map[])
    {
      tree := new TreeWatcher(root, recursive, kernel);
      buffer := new ReadBuffer();
      closing := false;
      new;
      assert [] + kernel.queue == kernel.queue;
    }

    /** The rest of filecat_open: the root's watch is mandatory, the others are not.
        `copyOk` and `growOk`: there is memory for the root's entry. */
    method Start(env: Env, copyOk: bool, growOk: bool) returns (ok: bool)
      requires Valid() && Listing(env) && env.walk.recursive == tree.recursive
      modifies tree`dirs, tree.kernel`watches, tree.kernel`nextWd, tree.kernel`queue, tree.table, tree.table.slots
      ensures Valid() && (tree.table.slots == old(tree.table.slots) || fresh(tree.table.slots))
      ensures ok ==> [] in tree.kernel.tree && env.walk.addOk([]) && copyOk
      ensures [] in tree.kernel.tree && env.walk.addOk([]) && copyOk && growOk ==> ok
      ensures Abs() ==
        if ok then WatchSubtree(old(Abs()), [], env.walk)
        else if [] in tree.kernel.tree && env.walk.addOk([]) then NotStored(old(Abs()), [])
        else old(Abs())
    {
      ok := tree.AddOneWatch("", env.walk, copyOk, growOk, []);
      if ok && tree.recursive {
        tree.DescendAndWatch("", env, []);
      }
    }

    /** Reads the header of the record the buffer points at, and steps over it. */
    method TakeRecord(ghost was: State) returns (v: View, ghost r: Record, ghost ev: KEvent)
      requires Valid() && buffer.pending != [] && was == Abs()
      modifies tree.kernel`inFlight, buffer`offset, buffer`pending
      ensures Valid() && Sound(r) && Represents(r, ev) && Shows(v, r)
      ensures was.queue != [] && was.queue[0] == ev && Abs() == was.(queue := was.queue[1..])
    {
      ev, r := tree.kernel.inFlight[0], buffer.pending[0];
      assert r in buffer.pending && Represents(r, ev);
      tree.kernel.LookAt();
      v := buffer.Next();
      assert buffer.bytes[v.nameAt..v.nameAt + Len(r)] == r.name + Nuls(r.pad);
    }

    /** The view is of this record, whose name still stands in the buffer. */
    ghost predicate Shows(v: View, r: Record)
      reads buffer, buffer.bytes
    {
      && v.wd == r.wd && v.mask == r.mask && v.cookie == r.cookie && v.len == Len(r)
      && v.nameAt + Len(r) <= buffer.bytes.Length
      && buffer.bytes[v.nameAt..v.nameAt + Len(r)] == r.name + Nuls(r.pad)
    }

    /** The path of the entry the record is about, if its directory is known. */
    method PathOf(v: View, ghost r: Record, ghost ev: KEvent) returns (rel: Option<string>)
      requires Valid() && Sound(r) && Represents(r, ev) && Shows(v, r) && ev.Named?
      ensures rel == if ev.wd in tree.dirs then Some(Render(tree.dirs[ev.wd] + [ev.name])) else None
    {
      var parent := tree.table.Get(v.wd);
      if parent == None { return None; }
      var name := buffer.Name(v, r);
      JoinAppends(tree.dirs[ev.wd], ev.name);
      return Some(Join(parent.value, name));
    }

    /** The walk or the sweep, and the event. */
    method ReportAt(rel: string, v: View, env: Env, ghost r: Record, ghost ev: KEvent, ghost was: State)
      returns (o: Outcome, ghost c: Choice)
      requires Valid() && Listing(env) && env.walk.recursive == tree.recursive && env.pathOk
      requires Represents(r, ev) && ev.Named? && v.mask == r.mask && v.cookie == r.cookie
      requires ev.wd in tree.dirs && rel == Render(tree.dirs[ev.wd] + [ev.name])
      requires was.queue != [] && was.queue[0] == ev && Abs() == was.(queue := was.queue[1..])
      modifies tree`dirs, tree.kernel`watches, tree.kernel`nextWd, tree.kernel`queue, tree.table, tree.table.slots
      ensures Valid() && (tree.table.slots == old(tree.table.slots) || fresh(tree.table.slots))
      ensures o.Yields? && Stepped(was, o, c, Abs(), env)
    {
      MaskRoundTrip(r, ev);
      ghost var d := tree.dirs[ev.wd] + [ev.name];
      ghost var order := tree.OnEntry(rel, v.mask, env, d);
      c := Choice(env.walk, order);
      ConsumeEntry(was, r, ev, c);
      o := Yields(RawEvent(MapMask(v.mask), rel, v.cookie));
    }

    /** The part of the loop that looks the parent up and reports. */
    method Report(v: View, env: Env, ghost r: Record, ghost ev: KEvent, ghost was: State) returns (o: Outcome, ghost c: Choice)
      requires Valid() && Listing(env) && env.walk.recursive == tree.recursive
      requires Sound(r) && Represents(r, ev) && Shows(v, r) && ev.Named?
      requires was.queue != [] && was.queue[0] == ev && Abs() == was.(queue := was.queue[1..])
      modifies tree`dirs, tree.kernel`watches, tree.kernel`nextWd, tree.kernel`queue, tree.table, tree.table.slots
      ensures Valid() && (tree.table.slots == old(tree.table.slots) || fresh(tree.table.slots))
      ensures Stepped(was, o, c, Abs(), env)
      ensures o.Yields? ==> env.pathOk
      ensures !o.Yields? ==> tree.kernel.queue == old(tree.kernel.queue)
    {
      var rel := PathOf(v, r, ev);
      if rel == None {
        return Skipped, Choice(env.walk, []);
      }
      if env.pathOk {
        o, c := ReportAt(rel.value, v, env, r, ev, was);
      } else {
        ghost var any := SomeEnumeration(Stale(tree.dirs, tree.dirs[ev.wd] + [ev.name]));
        o, c := NoMemory, Choice(env.walk, any);
      }
    }

    /** What next_event does with the record it has stepped over. */
    method Dispatch(v: View, env: Env, ghost r: Record, ghost ev: KEvent, ghost was: State)
      returns (o: Outcome, ghost c: Choice)
      requires Valid() && Listing(env) && env.walk.recursive == tree.recursive
      requires Sound(r) && Represents(r, ev) && Shows(v, r)
      requires was.queue != [] && was.queue[0] == ev && Abs() == was.(queue := was.queue[1..])
      modifies tree`dirs, tree.kernel`watches, tree.kernel`nextWd, tree.kernel`queue, tree.table, tree.table.slots
      ensures Valid() && (tree.table.slots == old(tree.table.slots) || fresh(tree.table.slots))
      ensures Stepped(was, o, c, Abs(), env)
      ensures o.Yields? ==> env.pathOk
      ensures !o.Yields? ==> tree.kernel.queue == old(tree.kernel.queue)
    {
      c := Choice(env.walk, []);
      RecordKind(r, ev);
      if Bit(v.mask, IN_Q_OVERFLOW) { return Overflowed, c; }
      if Bit(v.mask, IN_IGNORED) {
        tree.OnIgnored(v.wd);
        return Skipped, c;
      }
      if v.len == 0 { return Skipped, c; }
      o, c := Report(v, env, r, ev, was);
    }

    /** One turn of next_event's loop, on the record the buffer points at. */
    method Process(env: Env, ghost was: State) returns (o: Outcome, ghost c: Choice)
      requires was == Abs() && Valid() && buffer.pending != [] && Listing(env) && env.walk.recursive == tree.recursive
      modifies tree`dirs, tree.kernel, tree.table, tree.table.slots, buffer`offset, buffer`pending
      ensures Valid() && (tree.table.slots == old(tree.table.slots) || fresh(tree.table.slots))
      ensures Stepped(was, o, c, Abs(), env)
      ensures o.Yields? ==> env.pathOk
      ensures !o.Yields? ==> tree.kernel.queue == old(tree.kernel.queue)
    {
      var v, r, ev := TakeRecord(was);
      o, c := Dispatch(v, env, r, ev, was);
    }

    /** fill_buffer, when there is something to read. */
    method FillBuffer(n: nat, wire: KEvent -> Record)
      requires Valid() && buffer.pending == [] && tree.kernel.queue != []
      requires n > 0 && Plays(wire, tree.kernel.queue)
      modifies tree.kernel`queue, tree.kernel`inFlight
      modifies buffer`len, buffer`offset, buffer`pending, buffer.bytes
      ensures Valid() && buffer.pending != [] && Abs() == old(Abs())
      ensures Plays(wire, tree.kernel.queue)
    {
      ghost var q := tree.kernel.queue;
      assert tree.kernel.inFlight == [];
      var data, rs := tree.kernel.Read(n, wire);
      buffer.Fill(data, rs);
      WrittenMatches(wire, q, rs);
      Resplit([], q, |rs|);
      assert tree.kernel.inFlight == q[..|rs|];
    }

    /** The top of a pass: looks at the latch and refills the buffer if it is used up. What
        another thread has stored in the latch is seen at the two places where the source
        loads it. None: there is a record to look at. */
    method Refill(wire: KEvent -> Record, env: Env) returns (stop: Option<Outcome>)
      requires Valid() && Plays(wire, tree.kernel.queue) && Possibly(env, tree.recursive)
      modifies this`closing, tree.kernel`queue, tree.kernel`inFlight
      modifies buffer`len, buffer`offset, buffer`pending, buffer.bytes
      ensures Valid() && Abs() == old(Abs()) && Plays(wire, tree.kernel.queue)
      ensures closing == SeesClose(old(closing), env, old(buffer.pending) == [])
      ensures if closing then stop == Some(Shut) else if Abs().queue == [] then stop == Some(Nothing) else stop == None
      ensures stop == None ==> buffer.pending != []
    {
      closing := closing || env.closedAtTop;
      if closing { return Some(Shut); }
      var drained := buffer.IsDrained();
      if !drained { return None; }
      closing := closing || env.closedAtFill;
      if closing { return Some(Shut); }
      assert tree.kernel.inFlight == [];
      if tree.kernel.queue == [] { return Some(Nothing); }
      FillBuffer(env.records, wire);
      stop := None;
    }

    /** One pass of next_event's loop. */
    method Turn(wire: KEvent -> Record, env: Env, ghost was: State) returns (o: Outcome, ghost c: Choice)
      requires was == Abs() && Valid() && Plays(wire, tree.kernel.queue) && Possibly(env, tree.recursive)
      modifies this`closing, tree`dirs, tree.kernel, tree.table, tree.table.slots
      modifies buffer`len, buffer`offset, buffer`pending, buffer.bytes
      ensures Valid() && (tree.table.slots == old(tree.table.slots) || fresh(tree.table.slots))
      ensures closing == SeesClose(old(closing), env, old(buffer.pending) == []) && (o.Shut? <==> closing)
      ensures o.Nothing? ==> old(buffer.pending) == []
      ensures o.Shut? || o.Nothing? ==> Abs() == was
      ensures o.Nothing? ==> was.queue == []
      ensures o.NoMemory? || Taken(o) ==> Stepped(was, o, c, Abs(), env)
      ensures o.Yields? ==> env.pathOk
      ensures !o.Yields? ==> Plays(wire, tree.kernel.queue)
    {
      var stop := Refill(wire, env);
      if stop.Some? {
        return stop.value, Choice(env.walk, []);
      }
      o, c := Process(env, was);
    }

    /** The same, as the next step of a call that has taken `cs` since `was`. */
    method Pass(wire: KEvent -> Record, env: Env, ghost was: State, ghost cs: seq<Choice>)
      returns (o: Outcome, ghost ds: seq<Choice>)
      requires Valid() && Plays(wire, tree.kernel.queue) && Possibly(env, tree.recursive)
      requires Takes(was, cs, Abs(), []) && NoOverflow(was, cs)
      modifies this`closing, tree`dirs, tree.kernel, tree.table, tree.table.slots
      modifies buffer`len, buffer`offset, buffer`pending, buffer.bytes
      ensures Valid() && (tree.table.slots == old(tree.table.slots) || fresh(tree.table.slots))
      ensures closing == SeesClose(old(closing), env, old(buffer.pending) == []) && (o.Shut? <==> closing)
      ensures o.Nothing? ==> old(buffer.pending) == []
      ensures o.Shut? || o.Nothing? ==> ds == cs && Abs() == old(Abs())
      ensures o.Nothing? ==> Abs().queue == []
      ensures o.NoMemory? ==> ds == cs && !env.pathOk && LostRecord(old(Abs()), Abs())
      ensures o.Yields? ==> env.pathOk
      ensures Taken(o) ==>
        && |ds| == |cs| + 1 && ds[..|cs|] == cs && ds[|cs|].walk == env.walk
        && Takes(was, ds, Abs(), if o.Yields? then [o.ev] else [])
      ensures if o.Overflowed? then EndsInOverflow(was, ds) && ds[..|ds| - 1] == cs else NoOverflow(was, ds)
      ensures o.Skipped? ==> |Abs().queue| < |old(Abs()).queue|
      ensures !o.Yields? ==> Plays(wire, tree.kernel.queue)
    {
      ds := cs;
      ghost var c;
      ghost var st := Abs();
      o, c := Turn(wire, env, st);
      if Taken(o) {
        TakesNext(was, cs, st, c);
        ds := cs + [c];
        assert ds[..|cs|] == cs;
        OverflowNext(was, cs, ds);
      }
    }

    /** The pass after `cs`, among the passes of one call. */
    method PassOf(wire: KEvent -> Record, envs: nat -> Env, i: nat, ghost was: State, ghost cs: seq<Choice>)
      returns (r: Option<Status>, ghost ds: seq<Choice>)
      requires Valid() && Plays(wire, tree.kernel.queue) && Possibly(envs(i), tree.recursive)
      requires Underway(was, cs, Abs(), envs, closing) && i == |cs|
      modifies this`closing, tree`dirs, tree.kernel, tree.table, tree.table.slots
      modifies buffer`len, buffer`offset, buffer`pending, buffer.bytes
      ensures Valid() && (tree.table.slots == old(tree.table.slots) || fresh(tree.table.slots))
      ensures (old(closing) ==> closing) && (r == Some(Closed) <==> closing)
      ensures closing && !old(closing) ==> envs(|ds|).closedAtTop || envs(|ds|).closedAtFill
      ensures closing ==> ds == cs
      ensures r.Some? ==> Answered(was, ds, Abs(), envs, r.value)
      ensures r.None? ==> |ds| == i + 1 && Underway(was, ds, Abs(), envs, closing)
      ensures r.None? ==> Plays(wire, tree.kernel.queue) && |Abs().queue| < |old(Abs()).queue|
    {
      ghost var t := Abs();
      var o;
      o, ds := Pass(wire, envs(i), was, cs);
      if !closing {
        StillOpen(envs, i);
      }
      if Taken(o) {
        WalksNext(cs, ds, envs);
      }
      match o
      case Skipped => r := None;
      case Overflowed => r := Some(OverflowSeen);
      case Yields(ev) => r := Some(Status.Event(ev));
      case NoMemory =>
        assert Takes(was, cs, t, []) && LostRecord(t, Abs());
        r := Some(OutOfMemory);
      case Nothing => r := Some(Waits);
      case Shut => r := Some(Closed);
    }

    /** filecat_next_event: records are taken until one is to be reported. */
    method NextEvent(wire: KEvent -> Record, envs: nat -> Env) returns (r: Status, ghost cs: seq<Choice>)
      requires Valid() && Plays(wire, tree.kernel.queue) && forall i :: Possibly(envs(i), tree.recursive)
      modifies this`closing, tree`dirs, tree.kernel, tree.table, tree.table.slots
      modifies buffer`len, buffer`offset, buffer`pending, buffer.bytes
      ensures Valid() && (tree.table.slots == old(tree.table.slots) || fresh(tree.table.slots))
      ensures (r == Closed <==> closing) && (old(closing) ==> r == Closed && cs == [])
      ensures closing && !old(closing) ==> envs(|cs|).closedAtTop || envs(|cs|).closedAtFill
      ensures Answered(old(Abs()), cs, Abs(), envs, r)
    {
      cs := [];
      ghost var was := Abs();
      var i := 0;
      var stop := None;
      while stop.None?
        invariant Valid() && (tree.table.slots == old(tree.table.slots) || fresh(tree.table.slots))
        invariant stop.None? ==> i == |cs| && Underway(was, cs, Abs(), envs, closing)
        invariant stop.None? ==> Plays(wire, tree.kernel.queue) && closing == old(closing)
        invariant stop.Some? ==> Answered(was, cs, Abs(), envs, stop.value)
        invariant stop.Some? ==> (stop.value == Closed <==> closing) && (old(closing) ==> closing && cs == [])
        invariant stop.Some? && closing && !old(closing) ==> envs(|cs|).closedAtTop || envs(|cs|).closedAtFill
        decreases stop.None?, |Abs().queue|
      {
        stop, cs := PassOf(wire, envs, i, was, cs);
        i := i + 1;
      }
      r := stop.value;
    }
  }

  /** Whether a pass sees the latch set: at the top, and again if it has to fill the buffer. */
  predicate SeesClose(closing: bool, env: Env, drained: bool) {
    closing || env.closedAtTop || (drained && env.closedAtFill)
  }

  predicate ClosedAt(envs: nat -> Env, i: nat) {
    envs(i).closedAtTop
  }

  /** The first `n` passes find the latch unset at their top. */
  ghost predicate NeverClosed(envs: nat -> Env, n: nat) {
    forall i: nat :: i < n ==> !ClosedAt(envs, i)
  }

  /** A call has taken `cs`, none of them to be reported and none an overflow, and has not
      seen the latch set, unless it was set before the call. */
  ghost predicate Underway(was: State, cs: seq<Choice>, now: State, envs: nat -> Env, closing: bool) {
    && Takes(was, cs, now, []) && Walks(cs, envs) && NoOverflow(was, cs)
    && (if closing then cs == [] else NeverClosed(envs, |cs|))
  }

  /** What an answer means. The records of `cs` were taken, one by one, and each did what it
      asks for; none but the last was to be reported. The latch was found unset all along,
      unless the answer is Closed. */
  ghost predicate Answered(was: State, cs: seq<Choice>, now: State, envs: nat -> Env, r: Status) {
    && Walks(cs, envs)
    && match r
       case Event(ev) =>
         && Takes(was, cs, now, [ev]) && NoOverflow(was, cs) && NeverClosed(envs, |cs|)
         && cs != [] && envs(|cs| - 1).pathOk
       case OverflowSeen =>
         && Takes(was, cs, now, []) && EndsInOverflow(was, cs) && NoOverflow(was, cs[..|cs| - 1])
         && NeverClosed(envs, |cs|)
       case OutOfMemory =>
         && (exists t :: Takes(was, cs, t, []) && LostRecord(t, now)) && !envs(|cs|).pathOk
         && NoOverflow(was, cs) && NeverClosed(envs, |cs| + 1)
       case Waits =>
         && Takes(was, cs, now, []) && now.queue == [] && NoOverflow(was, cs)
         && NeverClosed(envs, |cs| + 1) && !envs(|cs|).closedAtFill
       case Closed => Takes(was, cs, now, []) && NoOverflow(was, cs)
  }

  lemma StillOpen(envs: nat -> Env, n: nat)
    requires NeverClosed(envs, n) && !envs(n).closedAtTop
    ensures NeverClosed(envs, n + 1)
  {
  }

  /** What the system may do: it lists what it lists, and a read returns something. */
  ghost predicate Possibly(env: Env, recursive: bool) {
    Listing(env) && env.walk.recursive == recursive && env.records > 0
  }

  /** A record was taken off the queue and nothing done for it. */
  predicate LostRecord(st: State, t: State) {
    st.queue != [] && t == st.(queue := st.queue[1..])
  }

  /** One record was taken: what it asks for was done as specified, or its path could not
      be stored. */
  ghost predicate Stepped(was: State, o: Outcome, c: Choice, now: State, env: Env) {
    && was.queue != [] && c.walk == env.walk && SweepOrder(was, c)
    && (o.Overflowed? <==> was.queue[0].Overflow?)
    && (o.NoMemory? <==> !env.pathOk && was.queue[0].Named? && was.queue[0].wd in was.table)
    && (if o.NoMemory? then LostRecord(was, now)
        else Taken(o) && (now, EventOf(o)) == Consume(was, c))
  }

  /** `cs` leads from `st` to `t`, each choice taking one record, and reports `outs`. */
  ghost predicate Takes(st: State, cs: seq<Choice>, t: State, outs: seq<RawEvent>) {
    Lawful(st, cs) && DrainQueue(st, cs) == (t, outs)
  }

  ghost predicate Walks(cs: seq<Choice>, envs: nat -> Env) {
    forall i :: 0 <= i < |cs| ==> cs[i].walk == envs(i).walk
  }

  lemma WalksNext(cs: seq<Choice>, ds: seq<Choice>, envs: nat -> Env)
    requires Walks(cs, envs) && |ds| == |cs| + 1 && ds[..|cs|] == cs && ds[|cs|].walk == envs(|cs|).walk
    ensures Walks(ds, envs)
  {
    assert forall i :: 0 <= i < |cs| ==> ds[i] == cs[i];
  }

  /** The last record taken was an overflow. */
  ghost predicate EndsInOverflow(st: State, cs: seq<Choice>) {
    cs != [] && var q := DrainQueue(st, cs[..|cs| - 1]).0.queue; q != [] && q[0].Overflow?
  }

  /** None of the records taken was an overflow. */
  ghost predicate NoOverflow(st: State, cs: seq<Choice>) {
    forall k :: 0 < k <= |cs| ==> !EndsInOverflow(st, cs[..k])
  }

  /** One record more: it is the overflow, or there is none still. */
  lemma OverflowNext(st: State, cs: seq<Choice>, ds: seq<Choice>)
    requires NoOverflow(st, cs) && |ds| == |cs| + 1 && ds[..|cs|] == cs
    ensures NoOverflow(st, ds) <==> !EndsInOverflow(st, ds)
    ensures ds[..|ds| - 1] == cs
  {
    assert ds[..|ds|] == ds;
    assert forall k :: 0 < k <= |cs| ==> ds[..k] == cs[..k];
  }

  lemma TakesNext(st: State, cs: seq<Choice>, t: State, c: Choice)
    requires Takes(st, cs, t, []) && t.queue != [] && SweepOrder(t, c)
    ensures Takes(st, cs + [c], Consume(t, c).0, OptSeq(Consume(t, c).1))
    ensures t.queue[0].Overflow? ==> EndsInOverflow(st, cs + [c])
    ensures Consume(t, c).1 == None ==> Consume(t, c).0.queue == t.queue[1..]
  {
    var (u, o) := Consume(t, c);
    TakesOne(t, c);
    TakesConcat(st, cs, t, [], [c], u, OptSeq(o));
    assert (cs + [c])[..|cs|] == cs;
    assert [] + OptSeq(o) == OptSeq(o);
  }

  lemma TakesOne(t: State, c: Choice)
    requires t.queue != [] && SweepOrder(t, c)
    ensures Takes(t, [c], Consume(t, c).0, OptSeq(Consume(t, c).1))
  {
    var (u, o) := Consume(t, c);
    assert Takes(u, [], u, []);
    TakesMore(t, c, [], u, []);
    assert [c] + [] == [c] && OptSeq(o) + [] == OptSeq(o);
  }

  /** How the kernel writes what it has queued. */
  ghost predicate Plays(wire: KEvent -> Record, q: seq<KEvent>) {
    Writes(wire, q) && Faithful(wire, q)
  }

  datatype Status = Closed | OverflowSeen | Event(ev: RawEvent) | OutOfMemory | Waits

  lemma WrittenMatches(wire: KEvent -> Record, q: seq<KEvent>, rs: seq<Record>)
    requires Written(wire, q, rs) && Faithful(wire, q)
    ensures Matches(rs, q[..|rs|])
  {
    assert forall i :: 0 <= i < |rs| ==> q[i] in q && q[..|rs|][i] == q[i];
  }

  ghost predicate Faithful(wire: KEvent -> Record, q: seq<KEvent>) {
    forall ev :: ev in q ==> Represents(wire(ev), ev)
  }

  /** Every choice meets a record, and sweeps where a sweep is due. */
  ghost predicate Lawful(st: State, cs: seq<Choice>)
    decreases |cs|
  {
    cs == [] || (st.queue != [] && SweepOrder(st, cs[0]) && Lawful(Consume(st, cs[0]).0, cs[1..]))
  }

  lemma TakesFirst(st: State, cs: seq<Choice>, t: State, outs: seq<RawEvent>) returns (rest: seq<RawEvent>)
    requires Takes(st, cs, t, outs) && cs != []
    ensures st.queue != [] && SweepOrder(st, cs[0])
    ensures Takes(Consume(st, cs[0]).0, cs[1..], t, rest) && outs == OptSeq(Consume(st, cs[0]).1) + rest
  {
    rest := DrainQueue(Consume(st, cs[0]).0, cs[1..]).1;
  }

  lemma TakesMore(st: State, c: Choice, cs: seq<Choice>, t: State, rest: seq<RawEvent>)
    requires st.queue != [] && SweepOrder(st, c) && Takes(Consume(st, c).0, cs, t, rest)
    ensures Takes(st, [c] + cs, t, OptSeq(Consume(st, c).1) + rest)
  {
    assert ([c] + cs)[1..] == cs;
  }

  /** Calls of next_event one after the other. */
  lemma {:induction false} TakesConcat(
    st: State, cs: seq<Choice>, t: State, outs: seq<RawEvent>, ds: seq<Choice>, u: State, more: seq<RawEvent>)
    requires Takes(st, cs, t, outs) && Takes(t, ds, u, more)
    ensures Takes(st, cs + ds, u, outs + more)
    decreases |cs|
  {
    if cs == [] {
      assert cs + ds == ds && outs + more == more;
    } else {
      var s, o := Consume(st, cs[0]).0, OptSeq(Consume(st, cs[0]).1);
      var rest := TakesFirst(st, cs, t, outs);
      TakesConcat(s, cs[1..], t, rest, ds, u, more);
      TakesMore(st, cs[0], cs[1..] + ds, u, rest + more);
      assert [cs[0]] + (cs[1..] + ds) == cs + ds;
      assert o + (rest + more) == outs + more;
    }
  }

  /** Without failures these are the runs the agreement of table and tree speaks of. */
  lemma {:induction false} LawfulIsValid(st: State, cs: seq<Choice>)
    requires Lawful(st, cs)
    requires forall c :: c in cs ==> Smooth(c.walk) && Lists(c.walk, st.tree)
    ensures ValidRun(st, cs)
    decreases |cs|
  {
    if cs != [] {
      assert cs[0] in cs && forall c :: c in cs[1..] ==> c in cs;
      ConsumeKeepsTree(st, cs[0]);
      LawfulIsValid(Consume(st, cs[0]).0, cs[1..]);
    }
  }

  lemma {:induction false} RmAllKeepsTree(st: State, order: seq<Wd>)
    ensures RmAll(st, order).tree == st.tree
  {
    if order != [] {
      RmAllKeepsTree(st, order[..|order| - 1]);
    }
  }

  lemma ConsumeKeepsTree(st: State, c: Choice)
    requires st.queue != []
    ensures Consume(st, c).0.tree == st.tree
  {
    RmAllKeepsTree(st.(queue := st.queue[1..]), c.order);
  }

  /** The step of the specification on a record about an entry, in terms of the mask. */
  lemma ConsumeEntry(was: State, r: Record, ev: KEvent, c: Choice)
    requires ev.Named? && Represents(r, ev) && was.queue != [] && was.queue[0] == ev && ev.wd in was.table
    ensures var s := was.(queue := was.queue[1..]);
      var d := was.table[ev.wd] + [ev.name];
      Consume(was, c) == (
        if !c.walk.recursive || !Bit(r.mask, IN_ISDIR) then s
        else if Bit(r.mask, IN_CREATE) || Bit(r.mask, IN_MOVED_TO) then WatchSubtree(s, d, c.walk)
        else if Bit(r.mask, IN_MOVED_FROM) then RmAll(s, c.order)
        else s, Some(RawEvent(TypeOf(ev.change), Render(d), ev.cookie)))
  {
  }

  /** Where a sweep is due, the order lists the stale watches. */
  ghost predicate SweepOrder(st: State, c: Choice)
    requires st.queue != []
  {
    st.queue[0].Named? && st.queue[0].wd in st.table ==>
      Enumerates(c.order, Stale(st.table, st.table[st.queue[0].wd] + [st.queue[0].name]))
  }
}
