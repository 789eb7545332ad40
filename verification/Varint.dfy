/** Base-128 varints: `varintAt` and `appendVarint` (internal/proxy/grpcfilter.go). */
module Varints {
  import opened Bytes

  datatype Varint = Varint(value: nat, len: nat)

  /** 2^s, the weight of a bit shifted left by `s`. */
  function Pow2(s: nat): (p: nat)
    ensures p > 0
  {
    if s == 0 then 1 else 2 * Pow2(s - 1)
  }

  /** `c << s`, not yet cut to a word. */
  function Shl(c: nat, s: nat): nat {
    c * Pow2(s)
  }

  /** The varint at the front of `b`, its lowest bit having weight 2^s.  Bits shifted out of a
      64-bit word are lost; a varint that continues past bit 63, or is cut short, is rejected. */
  function VarintFrom(b: bytes, s: nat): (r: Option<Varint>)
    ensures r.Some? ==> 1 <= r.value.len <= |b|
  {
    if b == [] || s >= 64 then None
    else if b[0] < 128 then Some(Varint(Shl(b[0], s) % TWO64, 1))
    else match VarintFrom(b[1..], s + 7)
      case None => None
      case Some(rest) => Some(Varint(Shl(b[0] - 128, s) + rest.value, rest.len + 1))
  }

  /** The encoding: seven bits a byte, lowest first, the top bit set on all but the last byte. */
  function Encoded(v: nat): (e: bytes)
    ensures |e| >= 1
  {
    if v < 128 then [v] else [v % 128 + 128] + Encoded(v / 128)
  }

  lemma Pow2Add7(s: nat)
    ensures Pow2(s + 7) == 128 * Pow2(s)
  {
    assert Pow2(s + 7) == 2 * Pow2(s + 6) == 4 * Pow2(s + 5) == 8 * Pow2(s + 4);
    assert Pow2(s + 4) == 2 * Pow2(s + 3) == 4 * Pow2(s + 2) == 8 * Pow2(s + 1) == 16 * Pow2(s);
  }

  lemma Pow2Constants()
    ensures Pow2(0) == 1 && Pow2(63) == 0x8000_0000_0000_0000 && Pow2(64) == TWO64
  {
    Pow2Add7(0); Pow2Add7(7); Pow2Add7(14); Pow2Add7(21); Pow2Add7(28);
    Pow2Add7(35); Pow2Add7(42); Pow2Add7(49); Pow2Add7(56);
    assert Pow2(64) == 2 * Pow2(63);
  }

  lemma {:induction false} Pow2Monotone(s: nat, t: nat)
    requires s <= t
    ensures Pow2(s) <= Pow2(t)
    decreases t - s
  {
    if s < t { Pow2Monotone(s, t - 1); }
  }

  /** Seven bits at weight 2^s stay below 2^(s+7). */
  lemma SevenBits(c: nat, s: nat)
    requires c < 128
    ensures Shl(c, s) + Pow2(s) <= Pow2(s + 7)
  {
    Pow2Add7(s);
    assert (127 - c) * Pow2(s) >= 0;
  }

  /** The last byte of the longest varint: only its lowest bit fits the word. */
  lemma TopBits(c: nat)
    ensures Shl(c, 63) % TWO64 + Pow2(63) <= TWO64
  {
    Pow2Constants();
    var top: nat := 0x8000_0000_0000_0000;
    assert c * top == c / 2 * TWO64 + c % 2 * top;
  }

  lemma Below64(s: nat)
    requires s % 7 == 0 && s < 63
    ensures Pow2(s + 7) < TWO64
  {
    Pow2Constants();
    Pow2Monotone(s + 7, 63);
  }

  /** A decoded value leaves room for all lower bits: in particular it fits 64 bits. */
  lemma {:induction false} VarintBound(b: bytes, s: nat)
    requires s % 7 == 0 && s <= 63
    requires VarintFrom(b, s).Some?
    ensures VarintFrom(b, s).value.value + Pow2(s) <= TWO64
  {
    hide Shl;
    if s == 63 {
      TopBits(b[0]);
    } else {
      Below64(s);
      SevenBits(b[0] % 128, s);
      if b[0] >= 128 {
        VarintBound(b[1..], s + 7);
        assert b[0] % 128 == b[0] - 128;
      }
    }
  }

  /** Decoding looks at no byte past the ones it reports as consumed. */
  lemma {:induction false} VarintPrefix(b: bytes, s: nat, suffix: bytes)
    requires VarintFrom(b, s).Some?
    ensures VarintFrom(b[..VarintFrom(b, s).value.len] + suffix, s) == VarintFrom(b, s)
  {
    var n := VarintFrom(b, s).value.len;
    if b[0] >= 128 {
      VarintPrefix(b[1..], s + 7, suffix);
      assert (b[..n] + suffix)[1..] == b[1..][..n - 1] + suffix;
    }
  }

  /** A number is its lowest seven bits and the rest, at any weight. */
  lemma SplitSeven(v: nat, s: nat)
    ensures Shl(v, s) == Shl(v % 128, s) + Shl(v / 128, s + 7)
  {
    Pow2Add7(s);
    var p, q := Pow2(s), v / 128;
    assert v == v % 128 + q * 128;
    calc {
      v * p;
      (v % 128 + q * 128) * p;
      v % 128 * p + q * 128 * p;
      v % 128 * p + q * (128 * p);
    }
  }

  lemma {:induction false} EncodedDecodesAt(v: nat, s: nat, suffix: bytes)
    requires s % 7 == 0 && s < 64
    requires Shl(v, s) < TWO64
    ensures VarintFrom(Encoded(v) + suffix, s) == Some(Varint(Shl(v, s), |Encoded(v)|))
    decreases v
  {
    hide Shl;
    var e := Encoded(v) + suffix;
    if v >= 128 {
      SplitSeven(v, s);
      if s == 63 { TooWide(v / 128); }
      EncodedDecodesAt(v / 128, s + 7, suffix);
      assert e[1..] == Encoded(v / 128) + suffix;
    } else {
      assert e[0] == v;
    }
  }

  lemma TooWide(q: nat)
    requires q > 0
    ensures Shl(q, 70) >= TWO64
  {
    Pow2Constants();
    Pow2Monotone(64, 70);
    assert (q - 1) * Pow2(70) >= 0;
  }

  lemma OneByteVarint(b: bytes)
    requires b != [] && b[0] < 128
    ensures VarintFrom(b, 0) == Some(Varint(b[0], 1))
  {
    assert Shl(b[0], 0) == b[0];
  }

  /** `varintAt` undoes `appendVarint` for every 64-bit value in front of any suffix, and
      consumes exactly the bytes the encoder produced. */
  lemma VarintRoundTrip(v: nat, suffix: bytes)
    requires v < TWO64
    ensures VarintFrom(Encoded(v) + suffix, 0) == Some(Varint(v, |Encoded(v)|))
  {
    assert Shl(v, 0) == v;
    EncodedDecodesAt(v, 0, suffix);
  }

  /** Two values never share an encoding, not even as a prefix of a longer message. */
  lemma EncodingUnambiguous(v: nat, w: nat, x: bytes, y: bytes)
    requires v < TWO64 && w < TWO64
    requires Encoded(v) + x == Encoded(w) + y
    ensures v == w && x == y
  {
    VarintRoundTrip(v, x);
    VarintRoundTrip(w, y);
    assert x == (Encoded(v) + x)[|Encoded(v)|..];
    assert y == (Encoded(w) + y)[|Encoded(w)|..];
  }

  /** The number whose digits to the base 128 are the low seven bits of the bytes, lowest first. */
  function Numeral(b: bytes): nat {
    if b == [] then 0 else b[0] % 128 + 128 * Numeral(b[1..])
  }

  /** The top bit is set on all bytes but the last. */
  predicate Continues(b: bytes) {
    b != [] && b[|b| - 1] < 128 && forall i | 0 <= i < |b| - 1 :: b[i] >= 128
  }

  /** What is written is the number itself in base 128, without leading zeros. */
  lemma {:induction false} EncodedIs(v: nat)
    ensures Continues(Encoded(v)) && Numeral(Encoded(v)) == v
    ensures |Encoded(v)| > 1 ==> Encoded(v)[|Encoded(v)| - 1] != 0
  {
    if v >= 128 {
      EncodedIs(v / 128);
      assert Encoded(v)[1..] == Encoded(v / 128);
    } else {
      assert [v][1..] == [];
    }
  }

  lemma OneDigit(c: byte)
    ensures Numeral([c]) == c % 128
  {
    assert [c][1..] == [];
  }

  /** What is read is the number spelled by the bytes up to the first without the top bit, cut to 64 bits,
      however it is encoded, if that byte is among the first ten. */
  lemma VarintReads(b: bytes, n: nat)
    requires n <= |b| && Continues(b[..n])
    ensures n <= 10 ==> VarintFrom(b, 0) == Some(Varint(Numeral(b[..n]) % TWO64, n))
    ensures n > 10 ==> VarintFrom(b, 0) == None
  {
    ReadsAt(b, n, 0);
    assert Shl(Numeral(b[..n]), 0) == Numeral(b[..n]);
  }

  /** Cut short: no byte without the top bit. */
  lemma {:induction false} CutVarint(b: bytes, s: nat)
    requires forall i | 0 <= i < |b| :: b[i] >= 128
    ensures VarintFrom(b, s) == None
  {
    if b != [] { CutVarint(b[1..], s + 7); }
  }

  /** The number at the front of `b` takes `n` bytes. */
  predicate NumberOf(b: bytes, n: nat) {
    n <= |b| && n <= 10 && Continues(b[..n])
  }

  lemma {:induction false} FirstStop(b: bytes) returns (n: nat)
    ensures n <= |b|
    ensures if n == 0 then forall i | 0 <= i < |b| :: b[i] >= 128 else Continues(b[..n])
  {
    if b == [] {
      n := 0;
    } else if b[0] < 128 {
      n := 1;
    } else {
      var k := FirstStop(b[1..]);
      n := if k == 0 then 0 else k + 1;
      if k != 0 {
        assert b[..n][1..] == b[1..][..k];
        forall i | 0 <= i < n - 1 ensures b[..n][i] >= 128 {
          assert i > 0 ==> b[..n][i] == b[1..][..k][i - 1];
        }
        assert b[..n][n - 1] == b[1..][..k][k - 1];
      } else {
        forall i | 0 <= i < |b| ensures b[i] >= 128 {
          assert i > 0 ==> b[i] == b[1..][i - 1];
        }
      }
    }
  }

  /** Exactly when there is a number at all. */
  lemma NumberIff(b: bytes)
    ensures VarintFrom(b, 0).Some? <==> exists n: nat :: NumberOf(b, n)
    ensures forall n: nat | NumberOf(b, n) :: VarintFrom(b, 0) == Some(Varint(Numeral(b[..n]) % TWO64, n))
  {
    forall n: nat | NumberOf(b, n) ensures VarintFrom(b, 0) == Some(Varint(Numeral(b[..n]) % TWO64, n)) {
      VarintReads(b, n);
    }
    var n := FirstStop(b);
    if n == 0 {
      CutVarint(b, 0);
    } else {
      VarintReads(b, n);
      assert n <= 10 ==> NumberOf(b, n);
    }
  }

  lemma {:induction false} ReadsAt(b: bytes, n: nat, s: nat)
    requires n <= |b| && Continues(b[..n]) && s % 7 == 0 && s <= 70
    ensures s + 7 * n <= 70 ==> VarintFrom(b, s) == Some(Varint(Shl(Numeral(b[..n]), s) % TWO64, n))
    ensures s + 7 * n > 70 ==> VarintFrom(b, s) == None
    decreases n
  {
    hide Shl;
    assert b[..n][n - 1] == b[n - 1];
    if n == 1 {
      assert b[..1] == [b[0]];
      OneDigit(b[0]);
    } else if s < 64 {
      TailContinues(b, n);
      ReadsAt(b[1..], n - 1, s + 7);
      if s + 7 * n <= 70 {
        OneMoreDigit(b[0] - 128, Numeral(b[1..][..n - 1]), s);
        VarintBound(b, s);
      }
    }
  }

  lemma TailContinues(b: bytes, n: nat)
    requires 1 < n <= |b| && Continues(b[..n])
    ensures b[0] >= 128 && Continues(b[1..][..n - 1])
    ensures Numeral(b[..n]) == b[0] - 128 + 128 * Numeral(b[1..][..n - 1])
  {
    assert b[..n][0] == b[0];
    assert b[..n][1..] == b[1..][..n - 1];
  }

  lemma OneMoreDigit(c: nat, rest: nat, s: nat)
    requires c < 128
    ensures (Shl(c, s) + Shl(rest, s + 7) % TWO64) % TWO64 == Shl(c + 128 * rest, s) % TWO64
  {
    SplitSeven(c + 128 * rest, s);
    assert (c + 128 * rest) % 128 == c && (c + 128 * rest) / 128 == rest;
    hide Shl;
    AddCut(Shl(c, s), Shl(rest, s + 7));
  }

  lemma AddCut(x: nat, y: nat)
    ensures (x + y % TWO64) % TWO64 == (x + y) % TWO64
  {
    assert y == y % TWO64 + y / TWO64 * TWO64;
    CutMultiples(x + y % TWO64, y / TWO64);
  }

  lemma {:induction false} CutMultiples(x: nat, k: nat)
    ensures (x + k * TWO64) % TWO64 == x % TWO64
  {
    if k > 0 {
      CutMultiples(x, k - 1);
      assert (x + (k - 1) * TWO64 + TWO64) % TWO64 == (x + (k - 1) * TWO64) % TWO64;
    }
  }

  /** `appendVarint`: the loop emits low bytes first. */
  method AppendVarint(dst: bytes, v: nat) returns (out: bytes)
    requires v < TWO64
    ensures out == dst + Encoded(v)
  {
    out := dst;
    var w := v;
    while w >= 128
      invariant out + Encoded(w) == dst + Encoded(v)
    {
      assert Encoded(w) == [w % 128 + 128] + Encoded(w / 128);
      out := out + [w % 128 + 128];
      w := w / 128;
    }
    out := out + [w];
  }

  /** `varintAt`: the value and length of the varint at `b[i]`, or (0, 0). */
  method VarintAt(b: bytes, i: nat) returns (v: nat, n: nat)
    requires i <= |b|
    ensures match VarintFrom(b[i..], 0)
            case Some(x) => v == x.value && n == x.len
            case None => v == 0 && n == 0
  {
    hide Shl;
    v := 0;
    var s := 0;
    var k := i;
    while k < |b|
      invariant i <= k <= |b| && s < 64
      invariant VarintFrom(b[i..], 0) ==
                match VarintFrom(b[k..], s)
                case None => None
                case Some(x) => Some(Varint(v + x.value, k - i + x.len))
    {
      var c := b[k];
      assert b[k..][0] == c && b[k..][1..] == b[k + 1..];
      if c < 128 {
        return v + Shl(c, s) % TWO64, k - i + 1;
      }
      v := v + Shl(c % 128, s);
      s := s + 7;
      if s >= 64 {
        return 0, 0;
      }
      k := k + 1;
    }
    return 0, 0;
  }
}
