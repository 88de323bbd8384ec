/**
 Fixed-width unsigned integers and their byte encodings: the big-endian form that
 `proto::fixint_serialize` and `write_u64` produce, and the little-endian form of
 `bincode::serialize`.
 */
module Integers {
  type u8 = x: int | 0 <= x < 0x100
  type u16 = x: int | 0 <= x < 0x1_0000
  type u32 = x: int | 0 <= x < 0x1_0000_0000
  type u64 = x: int | 0 <= x < 0x1_0000_0000_0000_0000
  type Bytes = seq<u8>

  /** The number of values that `width` bytes can hold. */
  function Range(width: nat): (r: nat)
    ensures r > 0
  {
    if width == 0 then 1 else 0x100 * Range(width - 1)
  }

  function BigEndian(n: nat, width: nat): (s: Bytes)
    requires n < Range(width)
    ensures |s| == width
  {
    if width == 0 then [] else BigEndian(n / 0x100, width - 1) + [n % 0x100]
  }

  function FromBigEndian(s: Bytes): (n: nat)
    ensures n < Range(|s|)
  {
    if s == [] then 0 else 0x100 * FromBigEndian(s[..|s| - 1]) + s[|s| - 1]
  }

  lemma {:induction false} BigEndianRoundTrip(n: nat, width: nat)
    requires n < Range(width)
    ensures FromBigEndian(BigEndian(n, width)) == n
  {
    if width == 0 {
    } else {
      var high := BigEndian(n / 0x100, width - 1);
      var s := BigEndian(n, width);
      assert s[..|s| - 1] == high;
      BigEndianRoundTrip(n / 0x100, width - 1);
    }
  }

  function LittleEndian(n: nat, width: nat): (s: Bytes)
    requires n < Range(width)
    ensures |s| == width
  {
    if width == 0 then [] else [n % 0x100] + LittleEndian(n / 0x100, width - 1)
  }

  function FromLittleEndian(s: Bytes): (n: nat)
    ensures n < Range(|s|)
  {
    if s == [] then 0 else s[0] + 0x100 * FromLittleEndian(s[1..])
  }

  lemma {:induction false} LittleEndianRoundTrip(n: nat, width: nat)
    requires n < Range(width)
    ensures FromLittleEndian(LittleEndian(n, width)) == n
  {
    if width == 0 {
    } else {
      var rest := LittleEndian(n / 0x100, width - 1);
      assert LittleEndian(n, width)[1..] == rest;
      LittleEndianRoundTrip(n / 0x100, width - 1);
    }
  }

  lemma {:induction false} LittleEndianInverts(s: Bytes)
    ensures LittleEndian(FromLittleEndian(s), |s|) == s
  {
    if s == [] {
    } else {
      var high := FromLittleEndian(s[1..]);
      LittleEndianInverts(s[1..]);
      LowAndHigh(s[0], high);
      assert LittleEndian(s[0] + 0x100 * high, |s|) == [s[0]] + LittleEndian(high, |s| - 1);
      assert s == [s[0]] + s[1..];
    }
  }

  lemma LowAndHigh(low: u8, high: nat)
    ensures (low + 0x100 * high) % 0x100 == low && (low + 0x100 * high) / 0x100 == high
  {
  }

  lemma WidthRanges()
    ensures Range(1) == 0x100 && Range(2) == 0x1_0000
    ensures Range(4) == 0x1_0000_0000 && Range(8) == 0x1_0000_0000_0000_0000
  {
    assert Range(3) == 0x100_0000 && Range(5) == 0x100_0000_0000;
    assert Range(6) == 0x1_0000_0000_0000 && Range(7) == 0x100_0000_0000_0000;
  }

  /** Byte `k` of the least-significant-first form. */
  lemma {:induction false} LittleEndianByte(n: nat, width: nat, k: nat)
    requires n < Range(width) && k < width
    ensures LittleEndian(n, width)[k] == n / Range(k) % 0x100
  {
    if k > 0 {
      LittleEndianByte(n / 0x100, width - 1, k - 1);
      DivideTwice(n, Range(k - 1));
    }
  }

  /** Byte `k` from the end of the most-significant-first form. */
  lemma {:induction false} BigEndianByte(n: nat, width: nat, k: nat)
    requires n < Range(width) && k < width
    ensures BigEndian(n, width)[width - 1 - k] == n / Range(k) % 0x100
  {
    if k > 0 {
      BigEndianByte(n / 0x100, width - 1, k - 1);
      DivideTwice(n, Range(k - 1));
    }
  }

  lemma DivideTwice(n: nat, b: nat)
    requires b > 0
    ensures n / 0x100 / b == n / (0x100 * b)
  {
    QuotientOfParts(n, b, n / 0x100 / b, n / 0x100 % b, n % 0x100);
  }

  lemma QuotientOfParts(n: nat, b: nat, q: nat, r: nat, t: nat)
    requires n == 0x100 * (b * q + r) + t && r < b && t < 0x100
    ensures n / (0x100 * b) == q
  {
    assert (0x100 * b) * q == 0x100 * (b * q);
    QuotientIs(n, 0x100 * b, q, 0x100 * r + t);
  }

  lemma QuotientIs(n: nat, d: nat, q: nat, r: nat)
    requires d > 0 && n == d * q + r && r < d
    ensures n / d == q
  {
    Multiples(d, n / d - q);
    assert n == d * (n / d) + n % d;
    assert d * (n / d - q) == d * (n / d) - d * q;
  }

  lemma Multiples(d: int, x: int)
    requires d > 0
    ensures x >= 1 ==> d * x >= d
    ensures x <= -1 ==> d * x <= -d
  {
  }
}
