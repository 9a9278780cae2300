/** inotify records as bytes, and the read buffer they are taken from. Bytes are
    characters below 256. */
module Framing {

  /** A record, and the NUL bytes its name is padded with. */
  datatype Record = Record(wd: int, mask: nat, cookie: nat, name: string, pad: nat)

  const WORD := 0x1_0000_0000
  const HEADER := 16

  function Len(r: Record): nat {
    |r.name| + r.pad
  }

  /** A record the kernel can write: fields of their width, and a name, if there is one,
      that ends in at least one NUL. */
  predicate Sound(r: Record) {
    && -0x8000_0000 <= r.wd < 0x8000_0000 && r.mask < WORD && r.cookie < WORD && Len(r) < WORD
    && '\0' !in r.name
    && (r.name == "" <==> r.pad == 0)
  }

  // ---- words -------------------------------------------------------------------

  function Byte(x: nat): char {
    (x % 256) as char
  }

  /** A 32-bit word, least significant byte first. */
  function Word(x: nat): (s: string)
    ensures |s| == 4
  {
    [Byte(x), Byte(x / 256), Byte(x / 256 / 256), Byte(x / 256 / 256 / 256)]
  }

  function Unsigned(a: char, b: char, c: char, d: char): nat {
    (a as int) + 0x100 * (b as int) + 0x1_0000 * (c as int) + 0x100_0000 * (d as int)
  }

  lemma WordRoundTrip(x: nat)
    requires x < WORD
    ensures Unsigned(Word(x)[0], Word(x)[1], Word(x)[2], Word(x)[3]) == x
  {
    var q1 := x / 256;
    var q2 := q1 / 256;
    var q3 := q2 / 256;
    assert x == 256 * q1 + x % 256 && q1 == 256 * q2 + q1 % 256 && q2 == 256 * q3 + q2 % 256;
    assert q3 < 256;
  }

  /** Two's complement. */
  function ToUnsigned(i: int): int {
    if i < 0 then i + WORD else i
  }

  function ToSigned(x: nat): int {
    if x >= 0x8000_0000 then x - WORD else x
  }

  // ---- records -----------------------------------------------------------------

  function Nuls(n: nat): string {
    seq(n, _ => '\0')
  }

  function Encode(r: Record): string
    requires Sound(r)
  {
    Word(ToUnsigned(r.wd)) + Word(r.mask) + Word(r.cookie) + Word(Len(r)) + r.name + Nuls(r.pad)
  }

  predicate AllSound(rs: seq<Record>) {
    forall r :: r in rs ==> Sound(r)
  }

  function EncodeAll(rs: seq<Record>): string
    requires AllSound(rs)
  {
    if rs == [] then "" else Encode(rs[0]) + EncodeAll(rs[1..])
  }

  function WordAt(b: string, i: nat): nat
    requires i + 4 <= |b|
  {
    Unsigned(b[i], b[i + 1], b[i + 2], b[i + 3])
  }

  lemma EncodeLength(r: Record)
    requires Sound(r)
    ensures |Encode(r)| == HEADER + Len(r)
  {
  }

  /** A word inside an encoding that starts at `i` is read back where it lies. */
  lemma WordReads(b: string, i: nat, e: string, k: nat, x: nat)
    requires x < WORD && i + |e| <= |b| && b[i..i + |e|] == e
    requires k + 4 <= |e| && e[k..k + 4] == Word(x)
    ensures WordAt(b, i + k) == x
  {
    WordRoundTrip(x);
    var w := e[k..k + 4];
    var f := b[i..i + |e|];
    assert f[k] == b[i + k] && f[k + 1] == b[i + k + 1] && f[k + 2] == b[i + k + 2] && f[k + 3] == b[i + k + 3];
    assert w[0] == e[k] && w[1] == e[k + 1] && w[2] == e[k + 2] && w[3] == e[k + 3];
  }

  lemma Fields(r: Record)
    requires Sound(r)
    ensures var e := Encode(r);
      && e[0..4] == Word(ToUnsigned(r.wd)) && e[4..8] == Word(r.mask)
      && e[8..12] == Word(r.cookie) && e[12..16] == Word(Len(r))
  {
  }

  /** The layout of struct inotify_event: four words of four bytes, the lowest byte first -
      the descriptor in two's complement, the mask, the cookie, the length of the name with its
      padding - and then the name. */
  lemma Layout(r: Record)
    requires Sound(r)
    ensures var e := Encode(r);
      && |e| == 16 + |r.name| + r.pad
      && (e[0] as int) + 256 * (e[1] as int) + 65536 * (e[2] as int) + 16777216 * (e[3] as int)
           == (if r.wd < 0 then r.wd + 4294967296 else r.wd)
      && (e[4] as int) + 256 * (e[5] as int) + 65536 * (e[6] as int) + 16777216 * (e[7] as int) == r.mask
      && (e[8] as int) + 256 * (e[9] as int) + 65536 * (e[10] as int) + 16777216 * (e[11] as int) == r.cookie
      && (e[12] as int) + 256 * (e[13] as int) + 65536 * (e[14] as int) + 16777216 * (e[15] as int) == |r.name| + r.pad
      && e[16..16 + |r.name|] == r.name && forall i :: 16 + |r.name| <= i < |e| ==> e[i] == '\0'
  {
    Fields(r);
    var e := Encode(r);
    WordIs(e, 0, ToUnsigned(r.wd));
    WordIs(e, 4, r.mask);
    WordIs(e, 8, r.cookie);
    WordIs(e, 12, Len(r));
  }

  lemma WordIs(e: string, k: nat, x: nat)
    requires x < WORD && k + 4 <= |e| && e[k..k + 4] == Word(x)
    ensures (e[k] as int) + 256 * (e[k + 1] as int) + 65536 * (e[k + 2] as int) + 16777216 * (e[k + 3] as int) == x
  {
    WordRoundTrip(x);
    var w := e[k..k + 4];
    assert w[0] == e[k] && w[1] == e[k + 1] && w[2] == e[k + 2] && w[3] == e[k + 3];
  }

  /** The header fields of a record that starts at `i`. */
  lemma HeaderReads(b: string, i: nat, r: Record)
    requires Sound(r) && i + HEADER + Len(r) <= |b| && b[i..i + HEADER + Len(r)] == Encode(r)
    ensures ToSigned(WordAt(b, i)) == r.wd && WordAt(b, i + 4) == r.mask
    ensures WordAt(b, i + 8) == r.cookie && WordAt(b, i + 12) == Len(r)
  {
    var e := Encode(r);
    Fields(r);
    WordReads(b, i, e, 0, ToUnsigned(r.wd));
    WordReads(b, i, e, 4, r.mask);
    WordReads(b, i, e, 8, r.cookie);
    WordReads(b, i, e, 12, Len(r));
  }

  /** A padded name ends at its first NUL. */
  lemma NulsFollow(a: string, p: nat)
    requires '\0' !in a
    ensures forall k :: 0 <= k < |a| + p ==> ((a + Nuls(p))[k] == '\0' <==> k >= |a|)
  {
    assert forall k :: 0 <= k < |a| ==> a[k] in a;
  }

  lemma PaddedDetermines(a: string, p: nat, b: string, q: nat)
    requires '\0' !in a && '\0' !in b && p > 0 && q > 0 && a + Nuls(p) == b + Nuls(q)
    ensures a == b && p == q
  {
    NulsFollow(a, p);
    NulsFollow(b, q);
    var f := a + Nuls(p);
    assert f[|a|] == '\0' && f[|b|] == '\0' && |a| == |b|;
    assert a == f[..|a|] && b == f[..|b|];
  }

  lemma HeadReads(r: Record, x: string)
    requires Sound(r)
    ensures var b := Encode(r) + x;
      && |b| >= HEADER && ToSigned(WordAt(b, 0)) == r.wd && WordAt(b, 4) == r.mask
      && WordAt(b, 8) == r.cookie && WordAt(b, 12) == Len(r)
  {
    var b := Encode(r) + x;
    EncodeLength(r);
    assert b[0..0 + HEADER + Len(r)] == Encode(r);
    HeaderReads(b, 0, r);
  }

  lemma SplitEqual<T>(a: seq<T>, x: seq<T>, b: seq<T>, y: seq<T>)
    requires a + x == b + y && |a| == |b|
    ensures a == b && x == y
  {
    assert a == (a + x)[..|a|] && b == (b + y)[..|b|];
    assert x == (a + x)[|a|..] && y == (b + y)[|b|..];
  }

  lemma HeadsEqual(r: Record, x: string, s: Record, y: string)
    requires Sound(r) && Sound(s) && Encode(r) + x == Encode(s) + y
    ensures r == s && x == y
  {
    HeadReads(r, x);
    HeadReads(s, y);
    EncodeLength(r);
    EncodeLength(s);
    SplitEqual(Encode(r), x, Encode(s), y);
    assert Encode(r)[HEADER..] == r.name + Nuls(r.pad) && Encode(s)[HEADER..] == s.name + Nuls(s.pad);
    if Len(r) > 0 {
      PaddedDetermines(r.name, r.pad, s.name, s.pad);
    }
  }

  /** The bytes determine the records: framing loses nothing and is never ambiguous. */
  lemma {:induction false} EncodingDeterminesRecords(rs: seq<Record>, ss: seq<Record>)
    requires AllSound(rs) && AllSound(ss) && EncodeAll(rs) == EncodeAll(ss)
    ensures rs == ss
  {
    if rs != [] {
      EncodeLength(rs[0]);
    }
    if ss != [] {
      EncodeLength(ss[0]);
    }
    if rs != [] && ss != [] {
      HeadsEqual(rs[0], EncodeAll(rs[1..]), ss[0], EncodeAll(ss[1..]));
      EncodingDeterminesRecords(rs[1..], ss[1..]);
      assert rs == [rs[0]] + rs[1..] && ss == [ss[0]] + ss[1..];
    }
  }

  /** What the bytes from `i` on say about their first record. */
  lemma FirstRecord(b: string, i: nat, n: nat, r: Record, rest: string)
    requires Sound(r) && i <= n <= |b| && b[i..n] == Encode(r) + rest
    ensures i + HEADER + Len(r) <= n && b[i + HEADER + Len(r)..n] == rest
    ensures ToSigned(WordAt(b, i)) == r.wd && WordAt(b, i + 4) == r.mask
    ensures WordAt(b, i + 8) == r.cookie && WordAt(b, i + 12) == Len(r)
    ensures b[i + HEADER..i + HEADER + Len(r)] == r.name + Nuls(r.pad)
  {
    EncodeLength(r);
    var m := HEADER + Len(r);
    Slices(b, i, n, m);
    SplitEqual(b[i..i + m], b[i + m..n], Encode(r), rest);
    HeaderReads(b, i, r);
    Slices(b, i, i + m, HEADER);
    assert Encode(r)[HEADER..] == r.name + Nuls(r.pad);
    assert b[i..i + m][HEADER..] == b[i + HEADER..i + m];
  }

  lemma Slices<T>(b: seq<T>, i: nat, n: nat, m: nat)
    requires i <= n <= |b| && m <= n - i
    ensures b[i..n] == b[i..i + m] + b[i + m..n]
  {
  }

  // ---- the buffer --------------------------------------------------------------

  const BUFFER_SIZE := 64 * 1024

  /** What next_event reads off the header it points at. */
  datatype View = View(wd: int, mask: nat, cookie: nat, len: nat, nameAt: nat)

  class ReadBuffer {
    var bytes: array<char>
    var len: nat
    var offset: nat
    /** The records not yet taken. */
    ghost var pending: seq<Record>

    ghost predicate Valid()
      reads this, bytes
    {
      && offset <= len <= bytes.Length == BUFFER_SIZE
      && AllSound(pending)
      && bytes[offset..len] == EncodeAll(pending)
    }

    constructor ()
      ensures Valid() && pending == [] && fresh(bytes)
    {
      bytes := new char[BUFFER_SIZE](_ => '\0');
      len, offset, pending := 0, 0, [];
    }

    /** `offset >= len`: everything was taken. */
    method IsDrained() returns (drained: bool)
      requires Valid()
      ensures drained <==> pending == []
    {
      drained := offset >= len;
      if pending != [] {
        EncodeLength(pending[0]);
      }
    }

    /** One read: whole records, as many as the kernel chose to hand over. */
    method Fill(data: string, ghost rs: seq<Record>)
      requires Valid() && pending == []
      requires AllSound(rs) && data == EncodeAll(rs) && |data| <= BUFFER_SIZE
      modifies this`len, this`offset, this`pending, bytes
      ensures Valid() && pending == rs
    {
      for i := 0 to |data|
        invariant bytes[..i] == data[..i]
      {
        bytes[i] := data[i];
      }
      len, offset, pending := |data|, 0, rs;
      assert bytes[0..len] == data;
    }

    /** Little-endian load of a header field. */
    method Load(i: nat) returns (x: nat)
      requires i + 4 <= bytes.Length
      ensures x == WordAt(bytes[..], i)
    {
      x := (bytes[i] as int) + 0x100 * (bytes[i + 1] as int)
        + 0x1_0000 * (bytes[i + 2] as int) + 0x100_0000 * (bytes[i + 3] as int);
    }

    /** Reads the next record's header and steps over the record. */
    method Next() returns (v: View)
      requires Valid() && pending != []
      modifies this`offset, this`pending
      ensures Valid() && pending == old(pending)[1..]
      ensures var r := old(pending)[0];
        && v.wd == r.wd && v.mask == r.mask && v.cookie == r.cookie && v.len == Len(r)
        && v.nameAt + Len(r) == offset
        && bytes[v.nameAt..offset] == r.name + Nuls(r.pad)
    {
      ghost var b, r := bytes[..], pending[0];
      assert b[offset..len] == bytes[offset..len];
      FirstRecord(b, offset, len, r, EncodeAll(pending[1..]));
      var wd := Load(offset);
      var mask := Load(offset + 4);
      var cookie := Load(offset + 8);
      var n := Load(offset + 12);
      v := View(ToSigned(wd), mask, cookie, n, offset + HEADER);
      offset := offset + HEADER + n;
      pending := pending[1..];
      assert bytes[v.nameAt..offset] == b[v.nameAt..offset] && bytes[offset..len] == b[offset..len];
    }

    /** strlen and copy: the name the view points at. */
    method Name(v: View, ghost r: Record) returns (name: string)
      requires Valid() && Sound(r) && r.name != "" && v.nameAt + Len(r) <= bytes.Length
      requires bytes[v.nameAt..v.nameAt + Len(r)] == r.name + Nuls(r.pad)
      ensures name == r.name
    {
      ghost var field := bytes[v.nameAt..v.nameAt + Len(r)];
      NulsFollow(r.name, r.pad);
      assert forall k :: 0 <= k < Len(r) ==> bytes[v.nameAt + k] == field[k];
      var n := 0;
      while bytes[v.nameAt + n] != '\0'
        invariant 0 <= n <= |r.name|
        decreases |r.name| - n
      {
        assert field[n] == bytes[v.nameAt + n] && (r.name + Nuls(r.pad))[n] != '\0';
        n := n + 1;
      }
      name := bytes[v.nameAt..v.nameAt + n];
      assert n == |r.name| by {
        assert field[n] == '\0';
      }
      assert name == field[..n] == r.name;
    }
  }
}
