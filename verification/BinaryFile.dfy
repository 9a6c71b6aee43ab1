/**
 Byte files as the dump scripts use them: a sequence of bytes with a cursor, little-endian
 unsigned 32-bit fields, and fixed-width records laid end to end.
 */
module BinaryFile {

  type Byte = x: int | 0 <= x < 0x100
  type U32 = x: int | 0 <= x < 0x1_0000_0000

  const MAX_U32: U32 := 0xFFFF_FFFF

  // ----- unsigned 32-bit fields, least significant byte first

  function Digits(n: nat, width: nat): (b: seq<Byte>)
    ensures |b| == width
  {
    if width == 0 then [] else [n % 0x100] + Digits(n / 0x100, width - 1)
  }

  function Value(b: seq<Byte>): (n: nat) {
    if b == [] then 0 else b[0] as int + 0x100 * Value(b[1..])
  }

  lemma {:induction false} ValueOfDigits(n: nat, width: nat)
    requires width <= 4
    requires n < match width case 0 => 1 case 1 => 0x100 case 2 => 0x1_0000 case 3 => 0x100_0000 case _ => 0x1_0000_0000
    ensures Value(Digits(n, width)) == n
  {
    if width > 0 {
      ValueOfDigits(n / 0x100, width - 1);
      assert Digits(n, width)[1..] == Digits(n / 0x100, width - 1);
    }
  }

  lemma ValueBound(b: seq<Byte>)
    requires |b| == 4
    ensures Value(b) < 0x1_0000_0000
  {
    assert b[1..][1..] == b[2..] && b[2..][1..] == b[3..] && b[3..][1..] == [];
    assert Value(b[3..]) < 0x100;
    assert Value(b[2..]) < 0x1_0000;
    assert Value(b[1..]) < 0x100_0000;
  }

  function Pack(n: U32): (b: seq<Byte>)
    ensures |b| == 4
  {
    Digits(n, 4)
  }

  function Unpack(b: seq<Byte>): (n: U32)
    requires |b| == 4
  {
    ValueBound(b);
    Value(b)
  }

  lemma UnpackPack(n: U32)
    ensures Unpack(Pack(n)) == n
  {
    ValueOfDigits(n, 4);
  }

  /** The least significant byte comes first. */
  lemma PackBytes(n: U32)
    ensures Pack(n) == [n % 0x100, n / 0x100 % 0x100, n / 0x1_0000 % 0x100, n / 0x100_0000 % 0x100]
  {
    assert Digits(n, 1) == [n % 0x100] + Digits(n / 0x100, 0);
    var a, b, c := n / 0x100, n / 0x1_0000, n / 0x100_0000;
    assert a / 0x100 == b && b / 0x100 == c;
    assert Digits(c, 1) == [c % 0x100];
    assert Digits(b, 2) == [b % 0x100] + Digits(c, 1);
    assert Digits(a, 3) == [a % 0x100] + Digits(b, 2);
    assert Digits(n, 4) == [n % 0x100] + Digits(a, 3);
  }

  // ----- writing at a position

  /** The bytes of a file after `b` is written at position `p`; a gap before `p` reads as zeros. */
  function Overwrite(s: seq<Byte>, p: nat, b: seq<Byte>): (r: seq<Byte>)
    ensures |r| == if p + |b| <= |s| then |s| else p + |b|
  {
    var base := if p <= |s| then s else s + seq(p - |s|, _ => 0);
    base[..p] + b + (if p + |b| < |base| then base[p + |b|..] else [])
  }

  /** Byte by byte: the new ones where they are written, else the old ones, and zeros in a gap. */
  lemma OverwriteAt(s: seq<Byte>, p: nat, b: seq<Byte>, i: nat)
    requires i < |Overwrite(s, p, b)|
    ensures Overwrite(s, p, b)[i] == if p <= i < p + |b| then b[i - p] else if i < |s| then s[i] else 0
  {
  }

  lemma OverwriteLeft(a: seq<Byte>, c: seq<Byte>, p: nat, b: seq<Byte>)
    requires p + |b| <= |a|
    ensures Overwrite(a + c, p, b) == Overwrite(a, p, b) + c
  {
  }

  lemma OverwriteRight(a: seq<Byte>, c: seq<Byte>, p: nat, b: seq<Byte>)
    requires p + |b| <= |c|
    ensures Overwrite(a + c, |a| + p, b) == a + Overwrite(c, p, b)
  {
  }

  class File {
    var bytes: seq<Byte>
    var pos: nat

    constructor (bytes: seq<Byte>)
      ensures this.bytes == bytes && pos == 0
    {
      this.bytes, pos := bytes, 0;
    }

    method Seek(p: nat)
      modifies this`pos
      ensures pos == p
    {
      pos := p;
    }

    /** Reads up to `n` bytes; fewer come back when the end of the file is in the way. */
    method Read(n: nat) returns (b: seq<Byte>)
      modifies this`pos
      ensures pos == old(pos) + |b|
      ensures |b| == if old(pos) + n <= |bytes| then n else if old(pos) <= |bytes| then |bytes| - old(pos) else 0
      ensures b == if |b| == 0 then [] else bytes[old(pos)..old(pos) + |b|]
    {
      var stop := if pos + n <= |bytes| then pos + n else if pos <= |bytes| then |bytes| else pos;
      b := if stop == pos then [] else bytes[pos..stop];
      pos := stop;
    }

    method Write(b: seq<Byte>)
      modifies this
      ensures bytes == Overwrite(old(bytes), old(pos), b)
      ensures pos == old(pos) + |b|
    {
      bytes := Overwrite(bytes, pos, b);
      pos := pos + |b|;
    }
  }

  // ----- records of one width laid end to end

  ghost predicate Uniform(w: nat, parts: seq<seq<Byte>>) {
    forall i :: 0 <= i < |parts| ==> |parts[i]| == w
  }

  function Flatten(parts: seq<seq<Byte>>): seq<Byte> {
    if parts == [] then []
    else Flatten(parts[..|parts| - 1]) + parts[|parts| - 1]
  }

  lemma {:induction false} FlattenLength(w: nat, parts: seq<seq<Byte>>)
    requires Uniform(w, parts)
    ensures |Flatten(parts)| == w * |parts|
  {
    if parts != [] {
      var n := |parts| - 1;
      FlattenLength(w, parts[..n]);
      assert w * (n + 1) == w * n + w;
    }
  }

  lemma {:induction false} FlattenSlice(w: nat, parts: seq<seq<Byte>>, i: nat)
    requires Uniform(w, parts) && i < |parts|
    ensures |Flatten(parts)| == w * |parts|
    ensures 0 <= w * i && w * i + w <= w * |parts|
    ensures Flatten(parts)[w * i..w * i + w] == parts[i]
  {
    FlattenLength(w, parts);
    var n := |parts| - 1;
    var front := parts[..n];
    FlattenLength(w, front);
    assert w * |parts| == w * n + w;
    if i < n {
      FlattenSlice(w, front, i);
      assert Flatten(parts)[w * i..w * i + w] == Flatten(front)[w * i..w * i + w];
    }
  }

  lemma {:induction false} RecordFits(w: nat, i: nat, n: nat)
    requires i < n
    ensures 0 <= w * i && w * i + w <= w * n
  {
    assert w * n == w * (n - 1) + w;
    if i < n - 1 {
      RecordFits(w, i, n - 1);
    } else {
      assert w * i >= 0;
    }
  }

  /** Writing inside one record changes that record and no other byte. */
  lemma {:induction false} FlattenPatch(w: nat, parts: seq<seq<Byte>>, i: nat, o: nat, b: seq<Byte>)
    requires Uniform(w, parts) && i < |parts| && o + |b| <= w
    ensures 0 <= w * i
    ensures Overwrite(Flatten(parts), w * i + o, b) == Flatten(parts[i := Overwrite(parts[i], o, b)])
  {
    var n := |parts| - 1;
    var front, last, part' := parts[..n], parts[n], Overwrite(parts[i], o, b);
    var at := w * i;
    RecordFits(w, i, |parts|);
    FlattenLength(w, front);
    if i == n {
      assert parts[i := part'][..n] == front;
      OverwriteRight(Flatten(front), last, o, b);
    } else {
      RecordFits(w, i, n);
      FlattenPatch(w, front, i, o, b);
      assert parts[i := part'][..n] == front[i := part'];
      OverwriteLeft(Flatten(front), last, at + o, b);
    }
  }

  lemma FlattenReplace(w: nat, parts: seq<seq<Byte>>, i: nat, b: seq<Byte>)
    requires Uniform(w, parts) && i < |parts| && |b| == w
    ensures 0 <= w * i
    ensures Overwrite(Flatten(parts), w * i, b) == Flatten(parts[i := b])
  {
    FlattenPatch(w, parts, i, 0, b);
    assert Overwrite(parts[i], 0, b) == b;
  }

  /** Writing a record at the end of the file appends it. */
  lemma FlattenAppend(parts: seq<seq<Byte>>, b: seq<Byte>)
    ensures Overwrite(Flatten(parts), |Flatten(parts)|, b) == Flatten(parts + [b])
  {
    assert (parts + [b])[..|parts|] == parts;
  }
}
