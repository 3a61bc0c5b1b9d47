/** Integer ranges and little-endian images shared by every component. */
module Wire {

  type u8 = b: int | 0 <= b < 0x100
  type u32 = v: int | 0 <= v < 0x1_0000_0000
  type i32 = v: int | -0x8000_0000 <= v < 0x8000_0000
  type u64 = v: int | 0 <= v < 0x1_0000_0000_0000_0000
  type i64 = v: int | -0x8000_0000_0000_0000 <= v < 0x8000_0000_0000_0000
  type Bytes = seq<u8>

  datatype Option<T> = None | Some(value: T)

  const U32_MAX: u32 := 0xFFFF_FFFF
  const I32_MAX: i32 := 0x7FFF_FFFF
  const U64_MAX: u64 := 0xFFFF_FFFF_FFFF_FFFF
  const I64_MAX: i64 := 0x7FFF_FFFF_FFFF_FFFF

  /** The number of values that `w` bytes can hold. */
  function Span(w: nat): (n: nat)
    ensures n > 0
  {
    if w == 0 then 1 else 256 * Span(w - 1)
  }

  lemma SpanValues()
    ensures Span(1) == 0x100
    ensures Span(2) == 0x1_0000
    ensures Span(4) == 0x1_0000_0000
    ensures Span(8) == 0x1_0000_0000_0000_0000
  {
    assert Span(2) == 256 * Span(1);
    assert Span(4) == 256 * 256 * Span(2);
    assert Span(6) == 256 * 256 * Span(4);
    assert Span(8) == 256 * 256 * Span(6);
  }

  /** Little-endian image of `v` on `w` bytes. */
  function ToLE(v: nat, w: nat): (bs: Bytes)
    requires v < Span(w)
    ensures |bs| == w
  {
    if w == 0 then [] else [v % 256] + ToLE(v / 256, w - 1)
  }

  function FromLE(bs: Bytes): (v: nat)
    ensures v < Span(|bs|)
  {
    if bs == [] then 0 else bs[0] + 256 * FromLE(bs[1..])
  }

  lemma {:induction false} FromToLE(v: nat, w: nat)
    requires v < Span(w)
    ensures FromLE(ToLE(v, w)) == v
  {
    if w > 0 {
      FromToLE(v / 256, w - 1);
      assert ToLE(v, w)[1..] == ToLE(v / 256, w - 1);
    }
  }

  lemma LowByte(b: u8, n: nat)
    ensures (b + 256 * n) % 256 == b && (b + 256 * n) / 256 == n
  {
  }

  lemma {:induction false} ToFromLE(bs: Bytes)
    ensures ToLE(FromLE(bs), |bs|) == bs
  {
    if bs != [] {
      ToFromLE(bs[1..]);
      LowByte(bs[0], FromLE(bs[1..]));
      assert bs == [bs[0]] + bs[1..];
    }
  }

  // ----- which bytes these are

  lemma MulGrows(d: nat, k: nat)
    requires k > 0
    ensures d * k >= d
  {
  }

  lemma MulOrder(d: nat, q: nat, r: nat, p: nat, t: nat)
    requires d * q + r == d * p + t && r < d
    ensures p <= q
  {
    assert d * p == d * q + d * (p - q);
    if q < p {
      MulGrows(d, p - q);
    }
  }

  lemma DivUnique(v: nat, d: nat, p: nat, t: nat)
    requires d > 0 && v == d * p + t && t < d
    ensures v / d == p
  {
    Euclid(v, d);
    MulOrder(d, v / d, v % d, p, t);
    MulOrder(d, p, t, v / d, v % d);
  }

  lemma Euclid(v: nat, d: nat)
    requires d > 0
    ensures v == d * (v / d) + v % d && 0 <= v % d < d && v / d >= 0
  {
  }

  lemma DivDiv(v: nat, b: nat)
    requires b > 0
    ensures (v / 256) / b == v / (256 * b)
  {
    var q := v / 256;
    Euclid(q, b);
    var p, s := q / b, q % b;
    Rearrange(v, q, b, p, s);
    DivUnique(v, 256 * b, p, 256 * s + v % 256);
  }

  lemma Rearrange(v: nat, q: nat, b: nat, p: nat, s: nat)
    requires v / 256 == q && q == b * p + s && s < b
    ensures v == (256 * b) * p + (256 * s + v % 256) && 256 * s + v % 256 < 256 * b
  {
    assert v == 256 * q + v % 256;
    assert 256 * (b * p) == (256 * b) * p;
  }

  /** Byte `i` of an image is the `i`-th least significant one. */
  lemma {:induction false} ByteAt(v: nat, w: nat, i: nat)
    requires v < Span(w) && i < w
    ensures ToLE(v, w)[i] == (v / Span(i)) % 256
  {
    if i > 0 {
      ByteAt(v / 256, w - 1, i - 1);
      DivDiv(v, Span(i - 1));
    }
  }

  /** The first `n` bytes, each weighted by its place. */
  ghost function Weighted(bs: Bytes, n: nat): (v: nat)
    requires n <= |bs|
  {
    if n == 0 then 0 else Weighted(bs, n - 1) + bs[n - 1] * Span(n - 1)
  }

  lemma {:induction false} WeightedShift(bs: Bytes, n: nat)
    requires n < |bs|
    ensures Weighted(bs, n + 1) == bs[0] + 256 * Weighted(bs[1..], n)
  {
    if n > 0 {
      WeightedShift(bs, n - 1);
      assert bs[n] * Span(n) == 256 * (bs[n] * Span(n - 1));
    }
  }

  /** Decoding weighs the first byte least. */
  lemma {:induction false} FromLEIsWeighted(bs: Bytes)
    ensures FromLE(bs) == Weighted(bs, |bs|)
  {
    if bs != [] {
      FromLEIsWeighted(bs[1..]);
      WeightedShift(bs, |bs| - 1);
    }
  }

  lemma {:induction false} WeightedPrefix(bs: Bytes, n: nat, k: nat)
    requires k <= n <= |bs|
    ensures Weighted(bs[..n], k) == Weighted(bs, k)
  {
    if k > 0 {
      WeightedPrefix(bs, n, k - 1);
    }
  }

  /** Two's complement: the unsigned image of a signed value of `w` bytes, and back. */
  function Unsigned(v: int, w: nat): (n: nat)
    requires w > 0 && -(Span(w) / 2) <= v < Span(w) / 2
    ensures n < Span(w)
  {
    if v < 0 then v + Span(w) else v
  }

  function Signed(n: nat, w: nat): (v: int)
    requires w > 0 && n < Span(w)
    ensures -(Span(w) / 2) <= v < Span(w) / 2
  {
    assert Span(w) == 2 * (128 * Span(w - 1));
    if n < Span(w) / 2 then n else n - Span(w)
  }

  lemma ModShift(v: int, d: int)
    requires d > 0 && 0 <= v + d && v < 0
    ensures v % d == v + d
  {
    var q := v / d;
    assert v == d * q + v % d && 0 <= v % d < d;
    assert d * q == -d - d * (-1 - q);
    if q <= -2 {
      MulGrows(d, -1 - q);
    }
  }

  lemma ModSmall(v: nat, d: nat)
    requires v < d
    ensures v % d == v
  {
  }

  /** The image of a signed value is the value modulo the span, and so is what is read of an image. */
  lemma TwosComplement(v: int, n: nat, w: nat)
    requires w > 0 && -(Span(w) / 2) <= v < Span(w) / 2 && n < Span(w)
    ensures Unsigned(v, w) == v % Span(w)
    ensures Signed(n, w) % Span(w) == n
  {
    hide Span;
    if v < 0 {
      ModShift(v, Span(w));
    } else {
      ModSmall(v, Span(w));
    }
    if n >= Span(w) / 2 {
      ModShift(n - Span(w), Span(w));
    } else {
      ModSmall(n, Span(w));
    }
  }
}
