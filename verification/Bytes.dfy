/** Byte strings, flattening, and the fixed-width integers of the wire formats.

    A Go byte slice that is only read is a `bytes` value.  Bit operations on a byte are written
    as arithmetic: `c & 0x7f` is `c % 128`, `v >> 7` is `v / 128`, and a flag bit is `Bit`. */
module Bytes {

  datatype Option<+T> = None | Some(value: T)

  type byte = x: int | 0 <= x < 256

  type bytes = seq<byte>

  const TWO32: nat := 0x1_0000_0000
  const TWO64: nat := 0x1_0000_0000_0000_0000

  /** Whether the flag bit with value `mask` (a power of two) is set. */
  predicate Bit(flags: byte, mask: nat)
    requires mask > 0
  {
    (flags / mask) % 2 == 1
  }

  /** All parts, one after the other (`bytes.Join(parts, nil)`). */
  function Flatten<T>(parts: seq<seq<T>>): seq<T> {
    if parts == [] then [] else parts[0] + Flatten(parts[1..])
  }

  /** `b` ends with `left`. */
  predicate IsTail(left: bytes, b: bytes) {
    |left| <= |b| && left == b[|b| - |left|..]
  }

  lemma TailOf(front: bytes, left: bytes, b: bytes)
    requires front + left == b
    ensures IsTail(left, b)
  {
  }

  lemma TailOfTail(x: bytes, y: bytes, z: bytes)
    requires IsTail(x, y) && IsTail(y, z)
    ensures IsTail(x, z)
  {
  }

  lemma Assoc<T>(x: seq<T>, y: seq<T>, z: seq<T>)
    ensures (x + y) + z == x + (y + z)
  {
  }

  lemma {:induction false} FlattenConcat<T>(a: seq<seq<T>>, b: seq<seq<T>>)
    ensures Flatten(a + b) == Flatten(a) + Flatten(b)
  {
    if a == [] {
      assert a + b == b;
    } else {
      FlattenConcat(a[1..], b);
      assert (a + b)[1..] == a[1..] + b;
      assert a[0] + (Flatten(a[1..]) + Flatten(b)) == a[0] + Flatten(a[1..]) + Flatten(b);
    }
  }

  lemma FlattenSnoc<T>(a: seq<seq<T>>, x: seq<T>)
    ensures Flatten(a + [x]) == Flatten(a) + x
  {
    FlattenConcat(a, [x]);
    assert Flatten([x]) == x + Flatten<T>([]);
  }

  lemma {:induction false} FlattenPart<T>(parts: seq<seq<T>>, i: nat)
    requires i < |parts|
    ensures |parts[i]| <= |Flatten(parts)|
  {
    if i > 0 { FlattenPart(parts[1..], i - 1); }
  }

  /** The result of a parser with items already read put in front. */
  function Prepend<T>(xs: seq<T>, r: Option<seq<T>>): Option<seq<T>> {
    match r case None => None case Some(ys) => Some(xs + ys)
  }

  lemma PrependNone<T>(r: Option<seq<T>>)
    ensures Prepend([], r) == r
  {
    if r.Some? { assert [] + r.value == r.value; }
  }

  lemma PrependTwice<T>(xs: seq<T>, x: T, r: Option<seq<T>>)
    ensures Prepend(xs, Prepend([x], r)) == Prepend(xs + [x], r)
  {
    if r.Some? { assert xs + ([x] + r.value) == xs + [x] + r.value; }
  }

  lemma PrependFirst<T>(x: T, xs: seq<T>, r: Option<seq<T>>)
    ensures Prepend([x], Prepend(xs, r)) == Prepend([x] + xs, r)
  {
    if r.Some? { assert [x] + (xs + r.value) == [x] + xs + r.value; }
  }

  lemma SliceOfRest<T>(s: seq<T>, k: nat, lo: nat, hi: nat)
    requires k <= lo <= hi <= |s|
    ensures s[k..][lo - k..hi - k] == s[lo..hi]
  {
  }

  /** `binary.BigEndian.Uint32`. */
  function BE32(b: bytes): (v: nat)
    requires |b| == 4
    ensures v < TWO32
  {
    ((b[0] as int * 256 + b[1]) * 256 + b[2]) * 256 + b[3]
  }

  /** `binary.BigEndian.PutUint32` of `uint32(v)`, the conversion truncating. */
  function PutBE32(v: nat): (b: bytes)
    ensures |b| == 4 && BE32(b) == v % TWO32
  {
    var w := v % TWO32;
    var b := [w / 0x100_0000, w / 0x1_0000 % 256, w / 0x100 % 256, w % 256];
    assert w == w / 0x100 * 0x100 + w % 0x100;
    assert w / 0x100 == w / 0x1_0000 * 0x100 + w / 0x100 % 0x100;
    assert w / 0x1_0000 == w / 0x100_0000 * 0x100 + w / 0x1_0000 % 0x100;
    b
  }

  lemma LastDigit(x: nat, c: byte, y: nat, d: byte)
    requires x * 256 + c == y * 256 + d
    ensures x == y && c == d
  {
  }

  /** Four bytes are determined by the number they spell. */
  lemma BE32Injective(a: bytes, b: bytes)
    requires |a| == |b| == 4
    requires BE32(a) == BE32(b)
    ensures a == b
  {
    LastDigit((a[0] as int * 256 + a[1]) * 256 + a[2], a[3], (b[0] as int * 256 + b[1]) * 256 + b[2], b[3]);
    LastDigit(a[0] as int * 256 + a[1], a[2], b[0] as int * 256 + b[1], b[2]);
    LastDigit(a[0], a[1], b[0], b[1]);
    assert a == [a[0], a[1], a[2], a[3]];
    assert b == [b[0], b[1], b[2], b[3]];
  }
}
