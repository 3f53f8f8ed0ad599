/** Bytes and the bit operations of the codecs, on natural numbers. */
module Bits {
  import opened Seqs

  type byte = b: int | 0 <= b < 256

  function Pow2(k: nat): (p: nat)
    ensures p > 0
  {
    if k == 0 then 1 else 2 * Pow2(k - 1)
  }

  /** `a << k` */
  function ShiftLeft(a: nat, k: nat): nat {
    if k == 0 then a else 2 * ShiftLeft(a, k - 1)
  }

  lemma ShiftSeven(a: nat)
    ensures ShiftLeft(a, 7) == 128 * a
  {
    assert ShiftLeft(a, 7) == 2 * ShiftLeft(a, 6) && ShiftLeft(a, 6) == 2 * ShiftLeft(a, 5);
    assert ShiftLeft(a, 5) == 2 * ShiftLeft(a, 4) && ShiftLeft(a, 4) == 2 * ShiftLeft(a, 3);
    assert ShiftLeft(a, 3) == 2 * ShiftLeft(a, 2) && ShiftLeft(a, 2) == 2 * ShiftLeft(a, 1);
  }

  /** The low seven bits and the rest, shifted apart. */
  lemma {:induction false} ShiftSplit(a: nat, k: nat)
    ensures ShiftLeft(a, k) == ShiftLeft(a % 128, k) + ShiftLeft(a / 128, k + 7)
  {
    if k == 0 {
      ShiftSeven(a / 128);
    } else {
      ShiftSplit(a, k - 1);
    }
  }

  lemma {:induction false} ShiftBound(a: nat, k: nat)
    requires a < 128
    ensures ShiftLeft(a, k) <= 127 * Pow2(k)
  {
    if k > 0 {
      ShiftBound(a, k - 1);
    }
  }

  /** `a | b` */
  function BitOr(a: nat, b: nat): nat {
    if a == 0 then b
    else if b == 0 then a
    else 2 * BitOr(a / 2, b / 2) + if a % 2 == 1 || b % 2 == 1 then 1 else 0
  }

  /** `a ^ b` */
  function BitXor(a: nat, b: nat): nat
    decreases a + b
  {
    if a == 0 && b == 0 then 0
    else 2 * BitXor(a / 2, b / 2) + if a % 2 != b % 2 then 1 else 0
  }

  /** Bit `k` of a number. */
  predicate Bit(n: nat, k: nat) {
    if k == 0 then n % 2 == 1 else Bit(n / 2, k - 1)
  }

  /** `|` and `^` bit by bit. */
  lemma {:induction false} OrBits(a: nat, b: nat, k: nat)
    ensures Bit(BitOr(a, b), k) == (Bit(a, k) || Bit(b, k))
  {
    if a == 0 {
      NoBits(k);
    } else if b == 0 {
      NoBits(k);
    } else if k > 0 {
      OrBits(a / 2, b / 2, k - 1);
    }
  }

  lemma {:induction false} XorBits(a: nat, b: nat, k: nat)
    ensures Bit(BitXor(a, b), k) == (Bit(a, k) != Bit(b, k))
  {
    if a == 0 && b == 0 {
      NoBits(k);
    } else if k > 0 {
      XorBits(a / 2, b / 2, k - 1);
    }
  }

  lemma {:induction false} NoBits(k: nat)
    ensures !Bit(0, k)
  {
    if k > 0 {
      NoBits(k - 1);
    }
  }

  /** Disjoint bits: a number below 2^k or-ed with one shifted left by k is their sum. */
  lemma {:induction false} OrIsPlus(a: nat, b: nat, k: nat)
    requires a < Pow2(k)
    ensures BitOr(a, ShiftLeft(b, k)) == a + ShiftLeft(b, k)
  {
    if k > 0 && a > 0 && ShiftLeft(b, k) > 0 {
      OrIsPlus(a / 2, b, k - 1);
    }
  }

  /** `low | 0x80` sets the eighth bit. */
  lemma OrHighBit(low: nat)
    requires low < 128
    ensures BitOr(low, 0x80) == low + 0x80
  {
    Pow2Seven(0);
    ShiftSeven(1);
    OrIsPlus(low, 1, 7);
  }

  lemma Pow2Seven(k: nat)
    ensures Pow2(k + 7) == 128 * Pow2(k)
  {
    assert Pow2(k + 7) == 2 * Pow2(k + 6) && Pow2(k + 6) == 2 * Pow2(k + 5) && Pow2(k + 5) == 2 * Pow2(k + 4);
    assert Pow2(k + 4) == 2 * Pow2(k + 3) && Pow2(k + 3) == 2 * Pow2(k + 2) && Pow2(k + 2) == 2 * Pow2(k + 1);
  }

  /** Masking twice with the same key changes nothing. */
  lemma {:induction false} XorTwice(a: nat, key: nat)
    ensures BitXor(BitXor(a, key), key) == a
    decreases a + key
  {
    if a != 0 || key != 0 {
      XorTwice(a / 2, key / 2);
      var x := BitXor(a, key);
      assert x / 2 == BitXor(a / 2, key / 2);
      assert x % 2 == if a % 2 != key % 2 then 1 else 0;
    }
  }

  lemma {:induction false} XorBound(a: nat, b: nat, k: nat)
    requires a < Pow2(k) && b < Pow2(k)
    ensures BitXor(a, b) < Pow2(k)
  {
    if k > 0 && (a != 0 || b != 0) {
      XorBound(a / 2, b / 2, k - 1);
    }
  }

  /** One byte masked with another. */
  function XorByte(a: byte, b: byte): byte {
    assert Pow2(8) == 256 by {
      Pow2Seven(1);
    }
    XorBound(a, b, 8);
    BitXor(a, b)
  }

  /** `struct.pack` big-endian on `width` bytes. */
  function BigEndian(n: nat, width: nat): (s: seq<byte>)
    ensures |s| == width
  {
    if width == 0 then [] else BigEndian(n / 256, width - 1) + [n % 256]
  }

  /** `struct.unpack` big-endian. */
  function FromBigEndian(s: seq<byte>): nat {
    if s == [] then 0 else 256 * FromBigEndian(s[..|s| - 1]) + s[|s| - 1]
  }

  function Pow256(width: nat): (p: nat)
    ensures p > 0
  {
    if width == 0 then 1 else 256 * Pow256(width - 1)
  }

  lemma DivideTwice(n: nat, p: nat)
    requires p > 0
    ensures 256 * p > 0 && n / 256 / p == n / (256 * p)
  {
    var q, r := n / 256, n % 256;
    var t, u := q / p, q % p;
    assert n == 256 * (p * t + u) + r == (256 * p) * t + (256 * u + r);
    assert 0 <= 256 * u + r < 256 * p;
    QuotientIs(n, 256 * p, t, 256 * u + r);
  }

  lemma QuotientIs(n: nat, d: nat, q: nat, r: nat)
    requires d > 0 && n == d * q + r && r < d
    ensures n / d == q
  {
    var k, z := n / d, q - n / d;
    assert n == d * k + n % d;
    assert d * z == n % d - r;
    if z > 0 {
      Grows(d, z);
    } else if z < 0 {
      Grows(d, -z);
    }
  }

  lemma Grows(d: nat, z: nat)
    requires z > 0
    ensures d * z >= d
  {
  }

  /** The most significant byte comes first. */
  lemma {:induction false} BigEndianDigit(n: nat, width: nat, i: nat)
    requires i < width
    ensures BigEndian(n, width)[i] == n / Pow256(width - 1 - i) % 256
  {
    if i == width - 1 {
      assert Pow256(0) == 1;
    } else {
      BigEndianDigit(n / 256, width - 1, i);
      DivideTwice(n, Pow256(width - 2 - i));
    }
  }

  lemma {:induction false} BigEndianRoundTrip(n: nat, width: nat)
    requires n < Pow256(width)
    ensures FromBigEndian(BigEndian(n, width)) == n
  {
    if width > 0 {
      BigEndianRoundTrip(n / 256, width - 1);
      CutMiddle(BigEndian(n / 256, width - 1), [n % 256]);
    }
  }
}
