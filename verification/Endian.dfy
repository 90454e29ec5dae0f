/** Integers as bytes: network order for TCP (Buffer.h) and host order, little-endian, for RDMA frames. */
module Endian {
  import opened Base

  function Pow256(w: nat): nat {
    if w == 0 then 1 else 256 * Pow256(w - 1)
  }

  /** Most significant byte first. */
  function Big(v: nat, w: nat): (b: Bytes)
    ensures |b| == w
  {
    if w == 0 then [] else Big(v / 256, w - 1) + [v % 256]
  }

  function FromBig(b: Bytes): (v: nat) {
    if b == [] then 0 else FromBig(ButLast(b)) * 256 + Last(b)
  }

  function Reversed(b: Bytes): (r: Bytes)
    ensures |r| == |b|
  {
    if b == [] then [] else Reversed(b[1..]) + [b[0]]
  }

  function Little(v: nat, w: nat): Bytes {
    Reversed(Big(v, w))
  }

  function FromLittle(b: Bytes): nat {
    FromBig(Reversed(b))
  }

  lemma {:induction false} PowerPositive(w: nat)
    ensures Pow256(w) > 0
  {
    if w > 0 {
      PowerPositive(w - 1);
    }
  }

  lemma DivideBelow(v: nat, p: nat)
    requires v < 256 * p
    ensures v / 256 < p
  {
  }

  lemma {:induction false} FromBigOfBig(v: nat, w: nat)
    requires v < Pow256(w)
    ensures FromBig(Big(v, w)) == v
  {
    if w > 0 {
      DivideBelow(v, Pow256(w - 1));
      FromBigOfBig(v / 256, w - 1);
      assert ButLast(Big(v, w)) == Big(v / 256, w - 1);
    }
  }

  lemma {:induction false} BigOfFromBig(b: Bytes)
    ensures FromBig(b) < Pow256(|b|) && Big(FromBig(b), |b|) == b
  {
    if b != [] {
      BigOfFromBig(ButLast(b));
      var v := FromBig(ButLast(b));
      assert (v * 256 + Last(b)) / 256 == v && (v * 256 + Last(b)) % 256 == Last(b);
      assert b == ButLast(b) + [Last(b)];
    }
  }

  lemma {:induction false} ReversedCat(a: Bytes, b: Bytes)
    ensures Reversed(a + b) == Reversed(b) + Reversed(a)
  {
    if a == [] {
      assert a + b == b;
    } else {
      assert (a + b)[1..] == a[1..] + b;
      ReversedCat(a[1..], b);
    }
  }

  lemma {:induction false} ReversedTwice(b: Bytes)
    ensures Reversed(Reversed(b)) == b
  {
    if b != [] {
      ReversedTwice(b[1..]);
      ReversedCat(Reversed(b[1..]), [b[0]]);
      assert Reversed([b[0]]) == [b[0]];
      assert b == [b[0]] + b[1..];
    }
  }

  lemma FromLittleOfLittle(v: nat, w: nat)
    requires v < Pow256(w)
    ensures FromLittle(Little(v, w)) == v && |Little(v, w)| == w
  {
    ReversedTwice(Big(v, w));
    FromBigOfBig(v, w);
  }

  lemma DivideTwice(v: nat, p: nat)
    requires p >= 1
    ensures v / 256 / p == v / (256 * p)
  {
    var q, r := v / 256 / p, v / 256 % p;
    var s := v % 256;
    assert v / 256 == q * p + r;
    assert v == 256 * (q * p + r) + s == (256 * p) * q + (256 * r + s);
    assert 256 * r + s < 256 * p;
    DivideBy(v, 256 * p, q, 256 * r + s);
  }

  lemma DivideBy(v: nat, d: nat, q: nat, r: nat)
    requires d >= 1 && v == d * q + r && r < d
    ensures v / d == q
  {
    var k := v / d;
    assert d * k <= v < d * k + d;
    NotAbove(d, q, k);
    NotAbove(d, k, q);
  }

  lemma NotAbove(d: nat, q: nat, k: nat)
    requires d * q < d * k + d
    ensures q <= k
  {
    if q > k {
      Scaled(d, k + 1, q);
    }
  }

  lemma Scaled(d: nat, a: nat, b: nat)
    requires a <= b
    ensures d * a <= d * b && d * (a + 1) == d * a + d
  {
    assert d * b == d * a + d * (b - a);
  }

  /** Network order: the byte at i counts 256^(w-1-i). */
  lemma {:induction false} BigDigits(v: nat, w: nat, i: nat)
    requires i < w
    ensures Pow256(w - 1 - i) > 0 && Big(v, w)[i] == v / Pow256(w - 1 - i) % 256
  {
    PowerPositive(w - 1 - i);
    if i < w - 1 {
      BigDigits(v / 256, w - 1, i);
      DivideTwice(v, Pow256(w - 2 - i));
    }
  }

  lemma {:induction false} ReversedAt(b: Bytes, i: nat)
    requires i < |b|
    ensures Reversed(b)[i] == b[|b| - 1 - i]
  {
    if i < |b| - 1 {
      ReversedAt(b[1..], i);
    }
  }

  /** Host order: the byte at i counts 256^i. */
  lemma LittleDigits(v: nat, w: nat, i: nat)
    requires i < w
    ensures |Little(v, w)| == w && Pow256(i) > 0 && Little(v, w)[i] == v / Pow256(i) % 256
  {
    ReversedAt(Big(v, w), i);
    BigDigits(v, w, w - 1 - i);
  }

  // ---------------------------------------------------------------- two's complement

  /** The values of a signed integer of w bytes. */
  predicate Fits(x: int, w: nat) {
    -1 * Pow256(w) <= 2 * x < Pow256(w)
  }

  function EncodeInt(x: int, w: nat): (b: Bytes)
    requires Fits(x, w)
    ensures |b| == w
  {
    Big(if x < 0 then x + Pow256(w) else x, w)
  }

  function DecodeInt(b: Bytes): int {
    var v := FromBig(b);
    if 2 * v < Pow256(|b|) then v else v - Pow256(|b|)
  }

  /** Reading back what was written gives the same integer, for every width and sign. */
  lemma IntRoundTrip(x: int, w: nat)
    requires Fits(x, w)
    ensures DecodeInt(EncodeInt(x, w)) == x
  {
    FromBigOfBig(if x < 0 then x + Pow256(w) else x, w);
  }

  /** Every pattern of bytes is the encoding of one integer. */
  lemma BytesRoundTrip(b: Bytes)
    requires |b| > 0
    ensures Fits(DecodeInt(b), |b|) && EncodeInt(DecodeInt(b), |b|) == b
  {
    BigOfFromBig(b);
    assert Pow256(|b|) == 256 * Pow256(|b| - 1);
  }
}
