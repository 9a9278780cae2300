/** Open addressing on values: slots, probe paths, and the map they stand for. */
module WdSlots {
  import opened Events

  // Values of `wd` that are not live watch descriptors.
  const EMPTY := -1
  const TOMBSTONE := -2

  const INITIAL_CAPACITY := 16

  datatype Slot = Slot(wd: int, path: Path)

  const FREE := Slot(EMPTY, "")

  // ---- the mask ----------------------------------------------------------

  /** Bitwise and of two unsigned words. */
  function And(a: nat, b: nat): (r: nat)
    ensures r <= b
  {
    if a == 0 || b == 0 then 0
    else 2 * And(a / 2, b / 2) + if a % 2 == 1 && b % 2 == 1 then 1 else 0
  }

  function Pow2(k: nat): nat {
    if k == 0 then 1 else 2 * Pow2(k - 1)
  }

  ghost predicate PowerOfTwo(n: nat) {
    exists k: nat :: Pow2(k) == n
  }

  /** Masking with `cap - 1` wraps an index once around. */
  lemma MaskWraps(i: nat, cap: nat)
    requires PowerOfTwo(cap) && i <= cap
    ensures cap > 0 && And(i, cap - 1) == if i == cap then 0 else i
  {
    var k: nat :| Pow2(k) == cap;
    MaskWrapsPow2(i, k);
  }

  lemma {:induction false} MaskWrapsPow2(i: nat, k: nat)
    requires i <= Pow2(k)
    ensures Pow2(k) > 0 && And(i, Pow2(k) - 1) == if i == Pow2(k) then 0 else i
  {
    if k > 0 {
      MaskWrapsPow2(i / 2, k - 1);
    }
  }

  lemma PowerOfTwoDoubles(cap: nat)
    requires PowerOfTwo(cap)
    ensures PowerOfTwo(2 * cap)
  {
    var k: nat :| Pow2(k) == cap;
    assert Pow2(k + 1) == 2 * cap;
  }

  lemma Pow2Quarter(k: nat)
    ensures Pow2(k) >= INITIAL_CAPACITY ==> Pow2(k) % 4 == 0
  {
    if k >= 2 {
      var q := Pow2(k - 2);
      assert Pow2(k - 1) == 2 * q;
      assert Pow2(k) == 4 * q;
    } else {
      assert Pow2(k) <= 2;
    }
  }

  /** A capacity is a multiple of four, so a put that must grow finds the table
      exactly three quarters used. */
  lemma FullTable(cap: nat, used: nat)
    requires PowerOfTwo(cap) && cap >= INITIAL_CAPACITY && 4 * (used + 1) > 3 * cap
    ensures 4 * used >= 3 * cap
  {
    var k: nat :| Pow2(k) == cap;
    Pow2Quarter(k);
  }

  // ---- probing -----------------------------------------------------------

  function Home(wd: nat, cap: nat): (h: nat)
    requires cap > 0
    ensures h < cap
  {
    And(wd, cap - 1)
  }

  /** The slot `d` steps after `home`, circularly. */
  function At(home: nat, d: nat, cap: nat): (i: nat)
    requires home < cap && d < cap
    ensures i < cap
  {
    if home + d < cap then home + d else home + d - cap
  }

  function Distance(home: nat, i: nat, cap: nat): (d: nat)
    requires home < cap && i < cap
    ensures d < cap && At(home, d, cap) == i
  {
    if home <= i then i - home else i + cap - home
  }

  function Key(s: seq<Slot>, i: nat): int
    requires i < |s|
  {
    s[i].wd
  }

  /** No empty slot within `d` steps of the home slot of `wd`. */
  ghost predicate Unbroken(s: seq<Slot>, wd: nat, d: nat)
    requires d <= |s|
  {
    forall e: nat :: e < d ==> Key(s, At(Home(wd, |s|), e, |s|)) != EMPTY
  }

  /** Slot `i` can be found, or used, for `wd`. */
  ghost predicate OnPath(s: seq<Slot>, wd: nat, i: nat)
    requires i < |s|
  {
    Unbroken(s, wd, Distance(Home(wd, |s|), i, |s|))
  }

  ghost predicate Absent(s: seq<Slot>, wd: nat) {
    forall i: nat :: i < |s| ==> Key(s, i) != wd
  }

  ghost predicate Unique(s: seq<Slot>) {
    forall i: nat, j: nat :: i < |s| && j < |s| && Key(s, i) == Key(s, j) >= 0 ==> i == j
  }

  /** Keys are unique and every live key is reachable from its home slot. */
  ghost predicate Tidy(s: seq<Slot>) {
    && (forall i: nat :: i < |s| ==> Key(s, i) >= TOMBSTONE)
    && Unique(s)
    && (forall i: nat :: i < |s| && Key(s, i) >= 0 ==> OnPath(s, Key(s, i), i))
  }

  /** The finite map the slots stand for. */
  function Entries(s: seq<Slot>): map<nat, Path> {
    if s == [] then map[]
    else
      var front, last := Entries(s[..|s| - 1]), s[|s| - 1];
      if last.wd >= 0 then front[last.wd := last.path] else front
  }

  /** What a probe for `wd` answers: its slot, or the one a put should take. */
  ghost predicate Finds(s: seq<Slot>, wd: nat, i: nat) {
    && i < |s|
    && OnPath(s, wd, i)
    && (s[i].wd == wd || ((s[i].wd == EMPTY || s[i].wd == TOMBSTONE) && Absent(s, wd)))
  }

  /** A probe for `wd` has passed `d` slots: none was empty, none held the key. */
  ghost predicate Passed(s: seq<Slot>, wd: nat, d: nat)
    requires d <= |s|
  {
    Unbroken(s, wd, d) && forall e: nat :: e < d ==> Key(s, At(Home(wd, |s|), e, |s|)) != wd
  }

  lemma PassOne(s: seq<Slot>, wd: nat, d: nat, empty: nat)
    requires d < |s| && Passed(s, wd, d) && empty < |s| && s[empty].wd == EMPTY
    requires var i := At(Home(wd, |s|), d, |s|); s[i].wd != wd && s[i].wd != EMPTY
    ensures d + 1 < |s| && Passed(s, wd, d + 1)
  {
    ProbeStops(s, wd, empty);
  }

  /** A probe that meets an empty slot has proved the key absent. */
  lemma ProbeEnds(s: seq<Slot>, wd: nat, d: nat)
    requires Tidy(s) && d < |s| && Passed(s, wd, d)
    requires s[At(Home(wd, |s|), d, |s|)].wd == EMPTY
    ensures Absent(s, wd)
  {
    var home := Home(wd, |s|);
    forall i: nat | i < |s|
      ensures Key(s, i) != wd
    {
      var e := Distance(home, i, |s|);
      assert At(home, e, |s|) == i;
      assert Key(s, i) == wd ==> OnPath(s, wd, i);
    }
  }

  /** While an empty slot exists, no probe goes all the way round. */
  lemma ProbeStops(s: seq<Slot>, wd: nat, empty: nat)
    requires empty < |s| && s[empty].wd == EMPTY
    ensures !Unbroken(s, wd, |s|)
  {
    assert At(Home(wd, |s|), Distance(Home(wd, |s|), empty, |s|), |s|) == empty;
  }

  // ---- updates -----------------------------------------------------------

  lemma FillKeepsPaths(s: seq<Slot>, i: nat, x: Slot, wd: nat, j: nat)
    requires i < |s| && j < |s| && x.wd != EMPTY && OnPath(s, wd, j)
    ensures OnPath(s[i := x], wd, j)
  {
  }

  /** `m` lists exactly the live slots. */
  ghost predicate Lists(s: seq<Slot>, m: map<nat, Path>) {
    && (forall i: nat :: i < |s| && Key(s, i) >= 0 ==> Key(s, i) in m && m[Key(s, i)] == s[i].path)
    && (forall k :: k in m ==> exists i: nat :: i < |s| && Key(s, i) == k)
  }

  lemma ListsUnique(s: seq<Slot>, m: map<nat, Path>, n: map<nat, Path>)
    requires Lists(s, m) && Lists(s, n)
    ensures m == n
  {
    forall k
      ensures k in m <==> k in n
    {
    }
    forall k | k in m
      ensures m[k] == n[k]
    {
      var i: nat :| i < |s| && Key(s, i) == k;
    }
  }

  lemma AppendLists(p: seq<Slot>, x: Slot, m: map<nat, Path>)
    requires Unique(p + [x]) && Lists(p, m)
    ensures Lists(p + [x], if x.wd >= 0 then m[x.wd := x.path] else m)
    ensures x.wd >= 0 ==> x.wd !in m
  {
    var q := p + [x];
    assert Key(q, |p|) == x.wd;
    assert forall i: nat :: i < |p| ==> Key(q, i) == Key(p, i);
    forall k | k in m
      ensures k != x.wd && exists i: nat :: i < |q| && Key(q, i) == k
    {
      var i: nat :| i < |p| && Key(p, i) == k;
      assert Key(q, i) == k;
    }
  }

  lemma {:induction false} EntriesLists(s: seq<Slot>)
    requires Unique(s)
    ensures Lists(s, Entries(s))
  {
    if s != [] {
      UniquePrefix(s, |s| - 1);
      EntriesLists(s[..|s| - 1]);
      SplitLast(s);
      AppendLists(s[..|s| - 1], s[|s| - 1], Entries(s[..|s| - 1]));
    }
  }

  lemma SplitLast(s: seq<Slot>)
    requires s != []
    ensures s[..|s| - 1] + [s[|s| - 1]] == s
  {
  }

  lemma UniquePrefix(s: seq<Slot>, j: nat)
    requires j <= |s| && Unique(s)
    ensures Unique(s[..j])
  {
    assert forall i: nat :: i < j ==> Key(s[..j], i) == Key(s, i);
  }

  lemma InsertLists(s: seq<Slot>, wd: nat, i: nat, path: Path, m: map<nat, Path>)
    requires i < |s| && Unique(s[i := Slot(wd, path)])
    requires (s[i].wd < 0 || s[i].wd == wd) && Lists(s, m)
    ensures Lists(s[i := Slot(wd, path)], m[wd := path])
  {
    var t := s[i := Slot(wd, path)];
    assert Key(t, i) == wd;
    assert forall j: nat :: j < |s| && j != i ==> Key(t, j) == Key(s, j);
    forall k | k in m && k != wd
      ensures exists j: nat :: j < |t| && Key(t, j) == k
    {
      var j: nat :| j < |s| && Key(s, j) == k;
      assert Key(t, j) == k;
    }
  }

  lemma RemoveLists(s: seq<Slot>, i: nat, m: map<nat, Path>)
    requires i < |s| && Unique(s) && s[i].wd >= 0 && Lists(s, m)
    ensures Lists(s[i := Slot(TOMBSTONE, "")], m - {s[i].wd})
  {
    var t := s[i := Slot(TOMBSTONE, "")];
    assert Key(s, i) == s[i].wd;
    assert forall j: nat :: j < |s| && j != i ==> Key(t, j) == Key(s, j);
    forall k | k in m && k != s[i].wd
      ensures exists j: nat :: j < |t| && Key(t, j) == k
    {
      var j: nat :| j < |s| && Key(s, j) == k;
      assert Key(t, j) == k;
    }
  }

  lemma InsertEntries(s: seq<Slot>, wd: nat, i: nat, path: Path)
    requires i < |s| && Unique(s) && Unique(s[i := Slot(wd, path)])
    requires s[i].wd < 0 || s[i].wd == wd
    ensures Entries(s[i := Slot(wd, path)]) == Entries(s)[wd := path]
  {
    var t := s[i := Slot(wd, path)];
    EntriesLists(s);
    EntriesLists(t);
    InsertLists(s, wd, i, path, Entries(s));
    ListsUnique(t, Entries(t), Entries(s)[wd := path]);
  }

  lemma RemoveEntries(s: seq<Slot>, i: nat)
    requires i < |s| && Unique(s) && Unique(s[i := Slot(TOMBSTONE, "")]) && s[i].wd >= 0
    ensures Entries(s[i := Slot(TOMBSTONE, "")]) == Entries(s) - {s[i].wd}
  {
    var t := s[i := Slot(TOMBSTONE, "")];
    EntriesLists(s);
    EntriesLists(t);
    RemoveLists(s, i, Entries(s));
    ListsUnique(t, Entries(t), Entries(s) - {s[i].wd});
  }

  /** A probe's answer decides whether the key is in the map. */
  lemma FindsDecides(s: seq<Slot>, wd: nat, i: nat)
    requires Unique(s) && Finds(s, wd, i)
    ensures s[i].wd == wd <==> wd in Entries(s)
    ensures s[i].wd == wd ==> Entries(s)[wd] == s[i].path
  {
    EntriesLists(s);
    assert Key(s, i) == s[i].wd;
  }

  /** Overwriting a slot keeps every path when the slot stays used. */
  lemma OverwriteKeepsPaths(s: seq<Slot>, i: nat, x: Slot)
    requires Tidy(s) && i < |s| && x.wd != EMPTY && x.wd >= TOMBSTONE
    requires x.wd >= 0 ==> OnPath(s, x.wd, i) && (s[i].wd == x.wd || Absent(s, x.wd))
    ensures Tidy(s[i := x])
  {
    var t := s[i := x];
    assert Key(t, i) == x.wd && Key(s, i) == s[i].wd;
    assert forall j: nat :: j < |s| && j != i ==> Key(t, j) == Key(s, j);
    forall j: nat | j < |t| && Key(t, j) >= 0
      ensures OnPath(t, Key(t, j), j)
    {
      FillKeepsPaths(s, i, x, Key(t, j), j);
    }
  }

  /** Taking a free slot on the probe path adds the key, and shadows none. */
  lemma InsertTidy(s: seq<Slot>, wd: nat, i: nat, path: Path)
    requires Tidy(s) && Finds(s, wd, i)
    ensures Tidy(s[i := Slot(wd, path)])
    ensures Entries(s[i := Slot(wd, path)]) == Entries(s)[wd := path]
  {
    OverwriteKeepsPaths(s, i, Slot(wd, path));
    InsertEntries(s, wd, i, path);
  }

  /** A tombstone removes the key and breaks no other key's path. */
  lemma RemoveTidy(s: seq<Slot>, i: nat)
    requires Tidy(s) && i < |s| && s[i].wd >= 0
    ensures Tidy(s[i := Slot(TOMBSTONE, "")])
    ensures Entries(s[i := Slot(TOMBSTONE, "")]) == Entries(s) - {s[i].wd}
  {
    OverwriteKeepsPaths(s, i, Slot(TOMBSTONE, ""));
    RemoveEntries(s, i);
  }

  // ---- counting ----------------------------------------------------------

  /** Live entries. */
  function CountLive(s: seq<Slot>): nat {
    if s == [] then 0 else CountLive(s[..|s| - 1]) + B2N(s[|s| - 1].wd >= 0)
  }

  /** Live entries and tombstones. */
  function CountUsed(s: seq<Slot>): nat {
    if s == [] then 0 else CountUsed(s[..|s| - 1]) + B2N(s[|s| - 1].wd != EMPTY)
  }

  lemma {:induction false} CountUpdate(s: seq<Slot>, i: nat, x: Slot)
    requires i < |s|
    ensures CountLive(s[i := x]) + B2N(s[i].wd >= 0) == CountLive(s) + B2N(x.wd >= 0)
    ensures CountUsed(s[i := x]) + B2N(s[i].wd != EMPTY) == CountUsed(s) + B2N(x.wd != EMPTY)
  {
    var t := s[i := x];
    if i == |s| - 1 {
      assert t[..|s| - 1] == s[..|s| - 1];
    } else {
      assert t[..|s| - 1] == s[..|s| - 1][i := x];
      CountUpdate(s[..|s| - 1], i, x);
    }
  }

  lemma {:induction false} SomeEmpty(s: seq<Slot>) returns (i: nat)
    requires CountUsed(s) < |s|
    ensures i < |s| && s[i].wd == EMPTY
  {
    if s[|s| - 1].wd == EMPTY {
      return |s| - 1;
    }
    i := SomeEmpty(s[..|s| - 1]);
  }

  lemma {:induction false} LiveAtMostUsed(s: seq<Slot>)
    ensures CountLive(s) <= CountUsed(s) <= |s|
  {
    if s != [] {
      LiveAtMostUsed(s[..|s| - 1]);
    }
  }

  // ---- rehashing -----------------------------------------------------------

  /** `t` holds the map `m` of `n` entries, and no tombstone. */
  ghost predicate Clean(t: seq<Slot>, m: map<nat, Path>, n: nat) {
    && Tidy(t)
    && (forall i: nat :: i < |t| ==> Key(t, i) != TOMBSTONE)
    && Entries(t) == m && CountUsed(t) == CountLive(t) == n
  }

  lemma PrefixStep(s: seq<Slot>, j: nat)
    requires j < |s| && Unique(s)
    ensures Entries(s[..j + 1]) == if s[j].wd >= 0 then Entries(s[..j])[s[j].wd := s[j].path] else Entries(s[..j])
    ensures CountLive(s[..j + 1]) == CountLive(s[..j]) + B2N(s[j].wd >= 0)
    ensures s[j].wd >= 0 ==> s[j].wd !in Entries(s[..j])
  {
    var p, q := s[..j], s[..j + 1];
    assert q[..j] == p && q == p + [s[j]];
    UniquePrefix(s, j);
    UniquePrefix(s, j + 1);
    EntriesLists(p);
    AppendLists(p, s[j], Entries(p));
  }

  lemma MoveIn(t: seq<Slot>, x: Slot, i: nat, m: map<nat, Path>, n: nat)
    requires Clean(t, m, n) && x.wd >= 0 && Finds(t, x.wd, i) && x.wd !in m
    ensures Clean(t[i := x], m[x.wd := x.path], n + 1)
  {
    var u := t[i := x];
    FindsDecides(t, x.wd, i);
    CountUpdate(t, i, x);
    InsertTidy(t, x.wd, i, x.path);
    assert Key(t, i) == t[i].wd && Key(u, i) == x.wd;
    assert forall j: nat :: j < |t| && j != i ==> Key(u, j) == Key(t, j);
  }

  /** `t` holds what the first `j` slots of `s` hold. */
  ghost predicate Rehashed(s: seq<Slot>, j: nat, t: seq<Slot>) {
    j <= |s| && Clean(t, Entries(s[..j]), CountLive(s[..j]))
  }

  lemma RehashSkips(s: seq<Slot>, j: nat, t: seq<Slot>)
    requires Unique(s) && j < |s| && Rehashed(s, j, t) && s[j].wd < 0
    ensures Rehashed(s, j + 1, t)
  {
    PrefixStep(s, j);
  }

  lemma RehashMoves(s: seq<Slot>, j: nat, t: seq<Slot>, i: nat)
    requires Unique(s) && j < |s| && Rehashed(s, j, t) && s[j].wd >= 0 && Finds(t, s[j].wd, i)
    ensures Rehashed(s, j + 1, t[i := s[j]])
  {
    PrefixStep(s, j);
    MoveIn(t, s[j], i, Entries(s[..j]), CountLive(s[..j]));
  }

  lemma RehashRoom(s: seq<Slot>, j: nat, t: seq<Slot>)
    requires Rehashed(s, j, t)
    ensures CountUsed(t) <= |s|
  {
    LiveAtMostUsed(s[..j]);
  }

  lemma {:induction false} AllFree(s: seq<Slot>)
    requires forall i :: 0 <= i < |s| ==> s[i] == FREE
    ensures Clean(s, map[], 0)
  {
    assert forall i: nat :: i < |s| ==> Key(s, i) == EMPTY;
    if s != [] {
      AllFree(s[..|s| - 1]);
    }
  }
}
