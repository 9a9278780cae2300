/** The macOS queue as the linked list it is. */
module MacQueues {
  import opened Events
  import opened ComputeRels
  import opened MacSpec

  /** A malloc'd node; `live` until it is freed. */
  class Node {
    const item: RawEvent
    var next: Node?
    ghost var live: bool
    /** How many nodes entered the queue before this one. */
    ghost const at: nat

    constructor (item: RawEvent, ghost at: nat)
      ensures this.item == item && this.at == at && next == null && live
    {
      this.item := item;
      this.at := at;
      next := null;
      live := true;
    }
  }

  /** free(n): allowed once. */
  method Free(n: Node)
    requires n.live
    modifies n`live
    ensures !n.live
  {
    ghost var dead := n;
    dead.live := false;
  }

  /** Numbered in order, so no node occurs twice. */
  ghost predicate Numbered(s: seq<Node>, base: nat) {
    forall i {:trigger s[i]} :: 0 <= i < |s| ==> s[i].at == base + i
  }

  /** From `k` on, `s` is the chain from `head` to `tail`, every node of it live. */
  ghost predicate Chain(head: Node?, tail: Node?, s: seq<Node>, k: nat)
    requires k <= |s|
    reads s
  {
    && head == (if k == |s| then null else s[k])
    && tail == (if k == |s| then null else s[|s| - 1])
    && (forall i {:trigger s[i].live} :: k <= i < |s| ==> s[i].live)
    && (forall i {:trigger s[i].next} :: k <= i < |s| - 1 ==> s[i].next == s[i + 1])
    && (k < |s| ==> s[|s| - 1].next == null)
  }

  /** Hangs the list of `t` behind the list of `s`. */
  method Splice(head: Node?, tail: Node?, first: Node?, last: Node?, ghost s: seq<Node>, ghost k: nat, ghost t: seq<Node>, ghost base: nat)
    returns (h: Node?, l: Node?)
    requires k <= |s| && Chain(head, tail, s, k) && Chain(first, last, t, 0)
    requires Numbered(s, base) && Numbered(t, base + |s|)
    modifies tail
    ensures Chain(h, l, s + t, k) && Numbered(s + t, base)
    ensures tail != null ==> tail.live
  {
    h, l := head, tail;
    if first != null {
      if tail != null { tail.next := first; } else { h := first; }
      l := last;
    }
    ghost var u := s + t;
    assert forall i :: k <= i < |s| ==> u[i] == s[i];
    assert forall i :: |s| <= i < |u| ==> u[i] == t[i - |s|];
  }

  /** The nodes carry these events. */
  predicate Carries(s: seq<Node>, items: seq<RawEvent>) {
    |s| == |items| && forall i {:trigger s[i].item} {:trigger items[i]} :: 0 <= i < |s| ==> s[i].item == items[i]
  }

  lemma SuffixConcat<T>(a: seq<T>, b: seq<T>, k: nat)
    requires k <= |a|
    ensures (a + b)[k..] == a[k..] + b
    ensures forall i :: 0 <= i < |a| ==> (a + b)[i] == a[i]
  {
  }

  lemma CarriesConcat(s: seq<Node>, a: seq<RawEvent>, t: seq<Node>, b: seq<RawEvent>)
    requires Carries(s, a) && Carries(t, b)
    ensures Carries(s + t, a + b)
  {
  }

  /** Frees a whole list, reading each node's link before the node goes. */
  method FreeList(first: Node?, ghost last: Node?, ghost chain: seq<Node>, ghost from: nat, ghost base: nat)
    requires from <= |chain| && Chain(first, last, chain, from) && Numbered(chain, base)
    modifies set i | from <= i < |chain| :: chain[i]
    ensures forall i :: from <= i < |chain| ==> !chain[i].live
  {
    var n := first;
    ghost var k := from;
    while n != null
      invariant from <= k <= |chain|
      invariant Chain(n, last, chain, k) || (n == null && k == |chain|)
      invariant forall i :: from <= i < k ==> !chain[i].live
      decreases |chain| - k
    {
      var next := n.next;
      Free(n);
      n := next;
      k := k + 1;
    }
  }

  /** `ever` are the nodes that ever entered, `items` their events: the first `popped` have
      left the list that runs from `head` to `tail`, the first `freed` have been freed. */
  ghost predicate ListOk(
    head: Node?, tail: Node?, ever: seq<Node>, items: seq<RawEvent>, popped: nat, freed: nat)
    reads ever
  {
    && freed <= popped <= |ever|
    && Numbered(ever, 0) && Carries(ever, items)
    && Chain(head, tail, ever, popped)
    && (forall i {:trigger ever[i].live} :: 0 <= i < popped ==> ever[i].live == (freed <= i))
  }

  /** The list itself: the source keeps these two pointers in the watcher. */
  class NodeList {
    var head: Node?
    var tail: Node?
    /** Every node ever spliced in, with its event; the first `popped` have left the list,
        the first `freed` have been freed. */
    ghost var ever: seq<Node>
    ghost var items: seq<RawEvent>
    ghost var popped: nat
    ghost var freed: nat

    ghost predicate Valid()
      reads this, ever
    {
      ListOk(head, tail, ever, items, popped, freed)
    }

    ghost function Contents(): seq<RawEvent>
      requires popped <= |items|
      reads this
    {
      items[popped..]
    }

    /** Popped and not freed yet. */
    ghost function InHand(): Option<RawEvent>
      requires freed <= |items|
      reads this
    {
      if freed < popped && freed < |items| then Some(items[freed]) else None
    }

    constructor ()
      ensures Valid() && items == [] && ever == [] && freed == popped
    {
      head, tail := null, null;
      ever, items, popped, freed := [], [], 0, 0;
    }

    method Append(first: Node?, last: Node?, ghost chain: seq<Node>, ghost batch: seq<RawEvent>)
      requires Valid() && Chain(first, last, chain, 0) && Numbered(chain, |ever|) && Carries(chain, batch)
      modifies this, tail
      ensures Valid() && popped == old(popped) && freed == old(freed)
      ensures ever == old(ever) + chain && items == old(items) + batch
    {
      var h, l := SpliceList(head, tail, first, last, ever, items, popped, freed, chain, batch);
      head, tail, ever, items := h, l, ever + chain, items + batch;
    }

    /** `n` was popped and is to be freed. */
    ghost predicate Holds(n: Node)
      reads this
    {
      freed < |ever| && freed < |items| && popped == freed + 1 && n == ever[freed] && n.item == items[freed]
    }

    /** Takes the first node off; it is the caller's to release. */
    method Pop() returns (n: Node)
      requires Valid() && freed == popped && head != null
      modifies this
      ensures Valid() && Holds(n) && popped <= |items| && Contents() == old(Contents())[1..]
      ensures ever == old(ever) && items == old(items) && freed == old(freed)
    {
      n := head;
      head := n.next;
      if head == null { tail := null; }
      popped := popped + 1;
    }

    method Release(n: Node)
      requires Valid() && Holds(n)
      modifies this`freed, n
      ensures Valid() && freed == popped
    {
      Free(n);
      freed := freed + 1;
    }

    /** Drains whatever was never popped. */
    method FreeAll()
      requires Valid() && freed == popped
      modifies ever
      ensures forall i :: 0 <= i < |ever| ==> !ever[i].live
    {
      FreeList(head, tail, ever, popped, 0);
    }
  }

  method SpliceList(
    head: Node?, tail: Node?, first: Node?, last: Node?,
    ghost ever: seq<Node>, ghost items: seq<RawEvent>, ghost popped: nat, ghost freed: nat,
    ghost chain: seq<Node>, ghost batch: seq<RawEvent>)
    returns (h: Node?, l: Node?)
    requires ListOk(head, tail, ever, items, popped, freed)
    requires Chain(first, last, chain, 0) && Numbered(chain, |ever|) && Carries(chain, batch)
    modifies tail
    ensures ListOk(h, l, ever + chain, items + batch, popped, freed)
  {
    h, l := Splice(head, tail, first, last, ever, popped, chain, 0);
    CarriesConcat(ever, items, chain, batch);
    ghost var all := ever + chain;
    assert forall i :: 0 <= i < popped ==> all[i] == ever[i];
  }

  class MacQueue {
    const root: Path
    const recursive: bool
    const list: NodeList
    var overflowPending: bool
    var closing: bool
    var parked: bool
    var scratch: nat

    ghost predicate Valid()
      reads this, list, list.ever
    {
      list.Valid() && list.popped <= list.freed + 1 && Fair(Abs())
    }

    ghost function Abs(): Queue
      requires list.freed <= list.popped <= |list.items|
      reads this, list
    {
      Queue(list.Contents(), overflowPending, closing, parked, list.InHand(), scratch)
    }

    constructor (root: Path, recursive: bool)
      ensures Valid() && Abs() == OPENED && list.ever == []
      ensures this.root == root && this.recursive == recursive
    {
      this.root := root;
      this.recursive := recursive;
      list := new NodeList();
      overflowPending, closing, parked := false, false, false;
      scratch := 0;
    }

    /** The node of one record, if it yields one. */
    method NodeOf(r: Record, ghost at: nat) returns (n: Node?)
      ensures n == null <==> ItemOf(root, recursive, r) == []
      ensures n != null ==> fresh(n) && n.live && n.next == null && n.at == at && [n.item] == ItemOf(root, recursive, r)
    {
      if r.abs.None? { return null; }
      var rel := ComputeRel(root, recursive, r.abs.value);
      if rel.None? { return null; }
      n := new Node(RawEvent(r.typ, rel.value, r.inode), at);
    }

    lemma ItemsNext(rs: seq<Record>, i: nat)
      requires i < |rs|
      ensures Items(root, recursive, rs[..i + 1]) == Items(root, recursive, rs[..i]) + ItemOf(root, recursive, rs[i])
      ensures |ItemOf(root, recursive, rs[i])| <= 1
      ensures Dropped(rs[..i + 1]) == (Dropped(rs[..i]) || rs[i].dropped)
    {
      assert rs[..i + 1][..i] == rs[..i];
      assert forall x :: x in rs[..i + 1] <==> x in rs[..i] || x == rs[i];
    }

    /** One turn of the callback's loop. */
    method Extend(r: Record, first: Node?, last: Node?, ghost chain: seq<Node>, ghost items: seq<RawEvent>, ghost base: nat)
      returns (first': Node?, last': Node?, ghost chain': seq<Node>)
      requires Chain(first, last, chain, 0) && Numbered(chain, base) && Carries(chain, items)
      modifies last
      ensures Chain(first', last', chain', 0) && Numbered(chain', base)
      ensures Carries(chain', items + ItemOf(root, recursive, r))
      ensures forall n :: n in chain' ==> n in chain || fresh(n)
    {
      first', last', chain' := first, last, chain;
      var node := NodeOf(r, base + |chain|);
      if node != null {
        first', last' := Splice(first, last, node, node, chain, 0, [node], base);
        CarriesConcat(chain, items, [node], [node.item]);
        chain' := chain + [node];
      } else {
        assert items + [] == items;
      }
    }

    /** The callback's local list, built before the lock is taken. */
    method BuildList(rs: seq<Record>, ghost base: nat) returns (first: Node?, last: Node?, over: bool, ghost chain: seq<Node>)
      ensures Chain(first, last, chain, 0) && Numbered(chain, base) && Carries(chain, Items(root, recursive, rs))
      ensures forall n :: n in chain ==> fresh(n)
      ensures over == Dropped(rs)
    {
      first, last, over, chain := null, null, false, [];
      ghost var items := [];
      var i := 0;
      while i < |rs|
        invariant 0 <= i <= |rs|
        invariant items == Items(root, recursive, rs[..i])
        invariant Chain(first, last, chain, 0) && Numbered(chain, base) && Carries(chain, items)
        invariant forall n :: n in chain ==> fresh(n)
        invariant over == Dropped(rs[..i])
      {
        ItemsNext(rs, i);
        if rs[i].dropped { over := true; }
        assert last != null ==> last in chain;
        first, last, chain := Extend(rs[i], first, last, chain, items, base);
        items := items + ItemOf(root, recursive, rs[i]);
        i := i + 1;
      }
      assert rs[..i] == rs;
    }

    /** The callback's critical section: splice the list in, or drop it once closing. */
    method Land(first: Node?, last: Node?, over: bool, ghost chain: seq<Node>, ghost batch: seq<RawEvent>)
      requires Valid() && Chain(first, last, chain, 0) && Numbered(chain, |list.ever|) && Carries(chain, batch)
      modifies this, list, list.tail, chain
      ensures Valid()
      ensures Abs() == Offer(old(Abs()), batch, over)
      ensures list.popped == old(list.popped) && old(list.ever) <= list.ever && old(list.items) <= list.items
    {
      if closing {
        Discard(first, last, chain);
        return;
      }
      SuffixConcat(list.items, batch, list.popped);
      list.Append(first, last, chain, batch);
      if over { overflowPending := true; }
      if first != null || over { parked := false; }
    }

    method Discard(first: Node?, ghost last: Node?, ghost chain: seq<Node>)
      requires Valid() && Chain(first, last, chain, 0) && Numbered(chain, |list.ever|)
      modifies chain
      ensures Valid()
    {
      FreeList(first, last, chain, 0, |list.ever|);
    }

    /** fsevents_cb. */
    method Callback(rs: seq<Record>)
      requires Valid()
      modifies this, list, list.tail
      ensures Valid()
      ensures Abs() == Offer(old(Abs()), Items(root, recursive, rs), Dropped(rs))
      ensures list.popped == old(list.popped) && old(list.ever) <= list.ever && old(list.items) <= list.items
    {
      var first, last, over, chain := BuildList(rs, |list.ever|);
      assert forall i {:trigger chain[i]} :: 0 <= i < |chain| ==> chain[i] in chain;
      Land(first, last, over, chain, Items(root, recursive, rs));
    }

    /** filecat_next_event under the lock: an answer, or the node popped off the list, which
        is the consumer's from here on. Parked means that it waits. */
    method TakeNext() returns (a: Option<Answer>, n: Node?)
      requires Valid() && !parked && list.freed == list.popped
      modifies this`overflowPending, this`parked, list
      ensures Valid() && Abs() == Take(old(Abs()))
      ensures TakeAnswer(old(Abs())) == if a.Some? then [a.value] else []
      ensures if a.Some? then list.freed == list.popped else n != null && list.Holds(n)
      ensures list.ever == old(list.ever) && list.items == old(list.items)
    {
      if closing { return Some(Closed), null; }
      if overflowPending {
        overflowPending := false;
        return Some(Overflow), null;
      }
      if list.head == null {
        parked := true;
        return Some(Parked), null;
      }
      n := list.Pop();
      a := None;
    }

    /** The rest of filecat_next_event, without the lock: the path is copied and the node
        freed. Callbacks and a close may have come in between. */
    method ReturnNode(n: Node, alloc: bool) returns (a: Answer)
      requires Valid() && list.Holds(n)
      modifies this`scratch, list`freed, n
      ensures Valid() && list.freed == list.popped && Abs() == Finish(old(Abs()), alloc)
      ensures a == FinishAnswer(old(Abs()), alloc)
    {
      var need := |n.item.path| + 1;
      a := Event(n.item);
      if need > scratch {
        if alloc {
          scratch := need;
        } else {
          a := NoMemory;
        }
      }
      list.Release(n);
    }

    /** A wake-up without a reason. */
    method Wakeup()
      requires Valid()
      modifies this
      ensures Valid() && Abs() == Step(old(Abs()), MacSpec.Wakeup)
    {
      parked := false;
    }

    method Close()
      requires Valid()
      modifies this
      ensures Valid() && Abs() == Shut(old(Abs()))
    {
      closing := true;
      parked := false;
    }

    /** The consumer has gone, no callback is left. Every node that was ever in the
        list has been freed by then; Free asks that it was not freed before. */
    method Destroy()
      requires Valid() && !parked && list.freed == list.popped
      modifies this, list.ever
      ensures closing && list.ever == old(list.ever) && Numbered(list.ever, 0)
      ensures forall i :: 0 <= i < |list.ever| ==> !list.ever[i].live
    {
      closing := true;
      list.FreeAll();
    }
  }
}
