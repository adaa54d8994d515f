/**
 Bytes and fixed-width integers, little-endian (payloads) and big-endian
 (frame headers).
 */
module Bytes {
  import opened Arithmetic

  type Byte = x: int | 0 <= x < 256 witness 0

  type Bytes = seq<Byte>

  /** 256 to the `k`: integers that fit `k` bytes are below it. */
  function Limit(k: nat): nat
    ensures Limit(k) > 0
  {
    if k == 0 then 1 else 256 * Limit(k - 1)
  }

  function Little(v: nat, k: nat): (b: Bytes)
    ensures |b| == k
  {
    if k == 0 then [] else [v % 256] + Little(v / 256, k - 1)
  }

  function FromLittle(b: Bytes): nat {
    if b == [] then 0 else b[0] + 256 * FromLittle(b[1..])
  }

  function Big(v: nat, k: nat): (b: Bytes)
    ensures |b| == k
  {
    if k == 0 then [] else Big(v / 256, k - 1) + [v % 256]
  }

  function FromBig(b: Bytes): nat {
    if b == [] then 0 else 256 * FromBig(b[..|b| - 1]) + b[|b| - 1]
  }

  lemma {:induction false} LittleRoundTrip(v: nat, k: nat)
    requires v < Limit(k)
    ensures FromLittle(Little(v, k)) == v
  {
    if k > 0 {
      LittleRoundTrip(v / 256, k - 1);
      assert Little(v, k)[1..] == Little(v / 256, k - 1);
    }
  }

  lemma {:induction false} FromLittleRoundTrip(b: Bytes)
    ensures Little(FromLittle(b), |b|) == b && FromLittle(b) < Limit(|b|)
  {
    if b != [] {
      FromLittleRoundTrip(b[1..]);
      var n := FromLittle(b[1..]);
      Quotient(b[0] + 256 * n, 256, n, b[0]);
    }
  }

  lemma {:induction false} BigRoundTrip(v: nat, k: nat)
    requires v < Limit(k)
    ensures FromBig(Big(v, k)) == v
  {
    if k > 0 {
      BigRoundTrip(v / 256, k - 1);
      assert Big(v, k)[..k - 1] == Big(v / 256, k - 1);
    }
  }

  lemma {:induction false} FromBigRoundTrip(b: Bytes)
    ensures Big(FromBig(b), |b|) == b && FromBig(b) < Limit(|b|)
  {
    if b != [] {
      var k := |b| - 1;
      FromBigRoundTrip(b[..k]);
      var n := FromBig(b[..k]);
      Quotient(256 * n + b[k], 256, n, b[k]);
      assert b == b[..k] + [b[k]];
    }
  }

  lemma Limits()
    ensures Limit(1) == 0x100 && Limit(2) == 0x1_0000 && Limit(4) == 0x1_0000_0000
    ensures Limit(8) == 0x1_0000_0000_0000_0000
  {
    assert Limit(3) == 256 * Limit(2);
    assert Limit(4) == 256 * Limit(3);
    assert Limit(5) == 256 * Limit(4);
    assert Limit(6) == 256 * Limit(5);
    assert Limit(7) == 256 * Limit(6);
    assert Limit(8) == 256 * Limit(7);
  }

  // ---------- byte order ----------

  lemma DivideTwice(v: nat, x: nat)
    requires x > 0
    ensures v / 256 / x == v / (256 * x)
  {
    var q := v / 256 / x;
    assert v / 256 == x * q + v / 256 % x && v == 256 * (v / 256) + v % 256;
    assert 256 * (x * q) == 256 * x * q;
    Quotient(v, 256 * x, q, 256 * (v / 256 % x) + v % 256);
  }

  /** Little-endian: byte `j` counts 256 to the `j`. */
  lemma {:induction false} LittleByte(v: nat, k: nat, j: nat)
    requires j < k
    ensures Little(v, k)[j] == v / Limit(j) % 256
  {
    if j > 0 {
      LittleByte(v / 256, k - 1, j - 1);
      DivideTwice(v, Limit(j - 1));
    }
  }

  /** Big-endian: the last byte counts ones. */
  lemma {:induction false} BigByte(v: nat, k: nat, j: nat)
    requires j < k
    ensures Big(v, k)[j] == v / Limit(k - 1 - j) % 256
  {
    if j < k - 1 {
      BigByte(v / 256, k - 1, j);
      DivideTwice(v, Limit(k - 2 - j));
    }
  }
}
