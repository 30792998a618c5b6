/** Bytes, the fixed-width integers that the disk format and the MKV timestamp are made of, and a unit of time. */
module Bytes {
  type byte = b: int | 0 <= b < 0x100

  // One past the largest value of the source's u64 and usize (64-bit targets).
  const U64: nat := 0x1_0000_0000_0000_0000

  const NS_PER_MS: nat := 1_000_000

  // No in-memory buffer of the source can be longer than isize::MAX bytes.
  const MAX_BUFFER: nat := 0x7fff_ffff_ffff_ffff

  function Pow256(k: nat): (p: nat)
    ensures p > 0
  {
    if k == 0 then 1 else 256 * Pow256(k - 1)
  }

  /** The k low-order bytes of v, least significant first. */
  function ToLE(v: nat, k: nat): (s: seq<byte>)
    ensures |s| == k
  {
    if k == 0 then [] else [v % 256] + ToLE(v / 256, k - 1)
  }

  function FromLE(s: seq<byte>): nat {
    if s == [] then 0 else s[0] + 256 * FromLE(s[1..])
  }

  /** The k low-order bytes of v, most significant first. */
  function ToBE(v: nat, k: nat): (s: seq<byte>)
    ensures |s| == k
  {
    if k == 0 then [] else ToBE(v / 256, k - 1) + [v % 256]
  }

  function FromBE(s: seq<byte>): nat {
    if s == [] then 0 else 256 * FromBE(s[..|s| - 1]) + s[|s| - 1]
  }

  /** The i-th byte of the little-endian form is the i-th digit of the number in base 256, counted from the lowest. */
  lemma {:induction false} LittleEndianDigits(v: nat, k: nat, i: nat)
    requires i < k
    ensures ToLE(v, k)[i] == v / Pow256(i) % 256
  {
    if i == 0 {
    } else {
      LittleEndianDigits(v / 256, k - 1, i - 1);
      DivDiv(v, Pow256(i - 1));
    }
  }

  /** The first byte of the big-endian form is the highest digit. */
  lemma {:induction false} BigEndianDigits(v: nat, k: nat, i: nat)
    requires i < k
    ensures ToBE(v, k)[k - 1 - i] == v / Pow256(i) % 256
  {
    if i == 0 {
    } else {
      BigEndianDigits(v / 256, k - 1, i - 1);
      DivDiv(v, Pow256(i - 1));
    }
  }

  lemma DivDiv(v: nat, p: nat)
    requires p > 0
    ensures v / 256 / p == v / (256 * p)
  {
    var q, r := v / 256 / p, v / 256 % p;
    var s := v % 256;
    assert v == 256 * (q * p + r) + s;
    assert v == q * (256 * p) + (256 * r + s);
    assert 256 * r + s < 256 * p;
    QuotientIs(v, 256 * p, q, 256 * r + s);
  }

  lemma QuotientIs(v: nat, d: nat, q: nat, r: nat)
    requires d > 0 && v == q * d + r && r < d
    ensures v / d == q
  {
    var p := v / d;
    assert v == p * d + v % d;
    if q > p {
      MulMonotone(p + 1, q, d);
      assert false;
    } else if q < p {
      MulMonotone(q + 1, p, d);
      assert false;
    }
  }

  lemma MulMonotone(a: nat, b: nat, d: nat)
    requires a <= b
    ensures a * d <= b * d
  {
    assert b * d == a * d + (b - a) * d;
  }

  lemma {:induction false} LittleEndianRoundTrip(v: nat, k: nat)
    requires v < Pow256(k)
    ensures FromLE(ToLE(v, k)) == v
  {
    if k == 0 {
    } else {
      LittleEndianRoundTrip(v / 256, k - 1);
      assert ToLE(v, k)[1..] == ToLE(v / 256, k - 1);
    }
  }

  lemma {:induction false} BigEndianRoundTrip(v: nat, k: nat)
    requires v < Pow256(k)
    ensures FromBE(ToBE(v, k)) == v
  {
    if k == 0 {
    } else {
      BigEndianRoundTrip(v / 256, k - 1);
      assert ToBE(v, k)[..k - 1] == ToBE(v / 256, k - 1);
    }
  }

  lemma Pow256Values()
    ensures Pow256(1) == 0x100 && Pow256(2) == 0x1_0000
    ensures Pow256(4) == 0x1_0000_0000 && Pow256(8) == U64
  {
    assert Pow256(2) == 256 * Pow256(1);
    assert Pow256(3) == 256 * Pow256(2);
    assert Pow256(4) == 256 * Pow256(3);
    assert Pow256(5) == 256 * Pow256(4);
    assert Pow256(6) == 256 * Pow256(5);
    assert Pow256(7) == 256 * Pow256(6);
    assert Pow256(8) == 256 * Pow256(7);
  }
}
