/**
 Strings on the wire. A Rust `String` is represented by its UTF-8 bytes; `Lossy` is what
 `String::from_utf8_lossy` does to arbitrary bytes: every maximal ill-formed subpart becomes U+FFFD
 (section 3.9 of the Unicode Standard, table 3-7 for the well-formed ranges).
 */
module Utf8 {
  import opened Wire

  const REPLACEMENT: Bytes := [0xEF, 0xBF, 0xBD]

  predicate Continuation(b: u8) {
    0x80 <= b <= 0xBF
  }

  /** Length announced by a lead byte, 0 when no sequence may start with it. */
  function Announced(lead: u8): (n: nat)
    ensures n <= 4
  {
    if lead < 0x80 then 1
    else if lead < 0xC2 then 0
    else if lead < 0xE0 then 2
    else if lead < 0xF0 then 3
    else if lead < 0xF5 then 4
    else 0
  }

  /** The second byte is restricted to exclude overlong forms, surrogates and values past U+10FFFF. */
  predicate SecondOk(lead: u8, b: u8) {
    Continuation(b)
    && (lead == 0xE0 ==> 0xA0 <= b)
    && (lead == 0xED ==> b <= 0x9F)
    && (lead == 0xF0 ==> 0x90 <= b)
    && (lead == 0xF4 ==> b <= 0x8F)
  }

  /** How many leading bytes agree with the sequence announced by the first one. */
  function Agreeing(bs: Bytes): (n: nat)
    requires bs != []
    ensures n <= Announced(bs[0]) && n <= |bs|
  {
    var len := Announced(bs[0]);
    if len <= 1 then len
    else if |bs| < 2 || !SecondOk(bs[0], bs[1]) then 1
    else if len == 2 || |bs| < 3 || !Continuation(bs[2]) then 2
    else if len == 3 || |bs| < 4 || !Continuation(bs[3]) then 3
    else 4
  }

  predicate WellFormedHead(bs: Bytes)
    requires bs != []
  {
    Announced(bs[0]) != 0 && Agreeing(bs) == Announced(bs[0])
  }

  /** Bytes consumed at the head: the scalar when well formed, otherwise the maximal ill-formed subpart. */
  function HeadLen(bs: Bytes): (n: nat)
    requires bs != []
    ensures 1 <= n <= |bs|
  {
    if Agreeing(bs) == 0 then 1 else Agreeing(bs)
  }

  predicate Valid(bs: Bytes) {
    bs == [] || (WellFormedHead(bs) && Valid(bs[HeadLen(bs)..]))
  }

  function Lossy(bs: Bytes): (s: Bytes) {
    if bs == [] then []
    else (if WellFormedHead(bs) then bs[..HeadLen(bs)] else REPLACEMENT) + Lossy(bs[HeadLen(bs)..])
  }

  lemma {:induction false} AsciiIsValid(bs: Bytes)
    requires forall i | 0 <= i < |bs| :: bs[i] < 0x80
    ensures Valid(bs)
  {
    if bs != [] {
      AsciiIsValid(bs[1..]);
    }
  }

  lemma {:induction false} LossyKeepsValid(bs: Bytes)
    requires Valid(bs)
    ensures Lossy(bs) == bs
  {
    if bs != [] {
      LossyKeepsValid(bs[HeadLen(bs)..]);
      assert bs == bs[..HeadLen(bs)] + bs[HeadLen(bs)..];
    }
  }

  /** A well-formed head followed by a valid string is a valid string. */
  lemma ValidCons(head: Bytes, tail: Bytes)
    requires head != [] && WellFormedHead(head) && HeadLen(head) == |head|
    requires Valid(tail)
    ensures Valid(head + tail)
  {
    var bs := head + tail;
    assert bs[0] == head[0];
    assert |head| > 1 ==> bs[1] == head[1];
    assert |head| > 2 ==> bs[2] == head[2];
    assert |head| > 3 ==> bs[3] == head[3];
    assert HeadLen(bs) == |head|;
    assert bs[|head|..] == tail;
  }

  lemma {:induction false} LossyIsValid(bs: Bytes)
    ensures Valid(Lossy(bs))
  {
    if bs != [] {
      var n := HeadLen(bs);
      LossyIsValid(bs[n..]);
      if WellFormedHead(bs) {
        var head := bs[..n];
        assert head[0] == bs[0];
        assert n > 1 ==> head[1] == bs[1];
        assert n > 2 ==> head[2] == bs[2];
        assert n > 3 ==> head[3] == bs[3];
        ValidCons(head, Lossy(bs[n..]));
      } else {
        ValidCons(REPLACEMENT, Lossy(bs[n..]));
      }
    }
  }

  /** A well-formed head is the same head in front of anything. */
  lemma HeadExtends(bs: Bytes, head: Bytes, tail: Bytes)
    requires head != [] && WellFormedHead(head) && HeadLen(head) <= |head| && bs == head + tail
    ensures WellFormedHead(bs) && HeadLen(bs) == HeadLen(head)
  {
    assert bs[0] == head[0];
    assert |head| > 1 ==> bs[1] == head[1];
    assert |head| > 2 ==> bs[2] == head[2];
    assert |head| > 3 ==> bs[3] == head[3];
  }

  lemma HeadAlone(bs: Bytes)
    requires bs != [] && WellFormedHead(bs)
    ensures var head := bs[..HeadLen(bs)]; head != [] && WellFormedHead(head) && HeadLen(head) == |head|
  {
    var n := HeadLen(bs);
    var head := bs[..n];
    assert head[0] == bs[0];
    assert n > 1 ==> head[1] == bs[1];
    assert n > 2 ==> head[2] == bs[2];
    assert n > 3 ==> head[3] == bs[3];
  }

  /** A valid prefix is kept as it is, whatever follows. */
  lemma {:induction false} LossyKeepsPrefix(p: Bytes, rest: Bytes)
    requires Valid(p)
    ensures Lossy(p + rest) == p + Lossy(rest)
    decreases |p|
  {
    hide WellFormedHead, HeadLen;
    if p == [] {
      assert p + rest == rest;
    } else {
      var n := HeadLen(p);
      HeadExtends(p + rest, p, rest);
      LossyKeepsPrefix(p[n..], rest);
      assert (p + rest)[n..] == p[n..] + rest && (p + rest)[..n] == p[..n];
      assert p + Lossy(rest) == p[..n] + (p[n..] + Lossy(rest));
    }
  }

  /** An ill-formed string keeps its scalars up to the first error and shows U+FFFD right after them. */
  lemma {:induction false} LossyMarksTheError(bs: Bytes) returns (p: Bytes, rest: Bytes)
    requires !Valid(bs)
    ensures bs == p + rest && Valid(p) && rest != [] && !WellFormedHead(rest)
    ensures p + REPLACEMENT <= Lossy(bs)
    decreases |bs|
  {
    hide WellFormedHead, HeadLen;
    var n := HeadLen(bs);
    if WellFormedHead(bs) {
      var q;
      q, rest := LossyMarksTheError(bs[n..]);
      HeadAlone(bs);
      ValidCons(bs[..n], q);
      p := bs[..n] + q;
      assert bs == bs[..n] + bs[n..];
      assert p + REPLACEMENT == bs[..n] + (q + REPLACEMENT);
    } else {
      p, rest := [], bs;
      assert [] + REPLACEMENT == REPLACEMENT;
    }
  }

  /** A scalar cut short is one error, and so is a byte that starts no scalar; decoding resumes right behind it. */
  lemma OneMarkPerError(scalar: Bytes, k: nat, rest: Bytes, stray: u8)
    requires scalar != [] && WellFormedHead(scalar) && HeadLen(scalar) == |scalar| && 0 < k < |scalar|
    requires rest == [] || rest[0] < 0x80
    requires Continuation(stray) || stray == 0xC0 || stray == 0xC1 || stray >= 0xF5
    ensures Lossy(scalar[..k] + rest) == REPLACEMENT + Lossy(rest)
    ensures Lossy([stray] + rest) == REPLACEMENT + Lossy(rest)
  {
    CutHead(scalar, k, rest);
    hide WellFormedHead, HeadLen;
    var a, b := scalar[..k] + rest, [stray] + rest;
    assert a[k..] == rest && b[1..] == rest;
    assert !WellFormedHead(b) && HeadLen(b) == 1 by { StrayHead(stray, rest); }
  }

  lemma CutHead(scalar: Bytes, k: nat, rest: Bytes)
    requires scalar != [] && WellFormedHead(scalar) && HeadLen(scalar) == |scalar| && 0 < k < |scalar|
    requires rest == [] || rest[0] < 0x80
    ensures var bs := scalar[..k] + rest; !WellFormedHead(bs) && HeadLen(bs) == k
  {
    var bs := scalar[..k] + rest;
    assert bs[0] == scalar[0];
    assert k > 1 ==> bs[1] == scalar[1];
    assert k > 2 ==> bs[2] == scalar[2];
    assert rest != [] ==> bs[k] == rest[0];
  }

  lemma StrayHead(stray: u8, rest: Bytes)
    requires Continuation(stray) || stray == 0xC0 || stray == 0xC1 || stray >= 0xF5
    ensures !WellFormedHead([stray] + rest) && HeadLen([stray] + rest) == 1
  {
  }

  /** The decoder changes exactly the strings that are not UTF-8. */
  lemma LossyIdentityIffValid(bs: Bytes)
    ensures Lossy(bs) == bs <==> Valid(bs)
  {
    LossyIsValid(bs);
    if Valid(bs) {
      LossyKeepsValid(bs);
    }
  }

  // ===== the reference: sequences of Unicode scalar values

  /** A code point that is not a surrogate; its bytes carry six bits each, the first one what is left. */
  type Scalar = c: int | 0 <= c < 0xD800 || 0xE000 <= c <= 0x10FFFF

  function EncodeScalar(c: Scalar): Bytes {
    if c < 0x80 then [c]
    else if c < 0x800 then [0xC0 + c / 64, 0x80 + c % 64]
    else if c < 0x1_0000 then [0xE0 + c / 64 / 64, 0x80 + c / 64 % 64, 0x80 + c % 64]
    else [0xF0 + c / 64 / 64 / 64, 0x80 + c / 64 / 64 % 64, 0x80 + c / 64 % 64, 0x80 + c % 64]
  }

  function EncodeScalars(cs: seq<Scalar>): Bytes {
    if cs == [] then [] else EncodeScalar(cs[0]) + EncodeScalars(cs[1..])
  }

  lemma EncodedIsWellFormed(c: Scalar)
    ensures var s := EncodeScalar(c); WellFormedHead(s) && HeadLen(s) == |s|
  {
  }

  lemma WellFormedIsEncoded(s: Bytes) returns (c: Scalar)
    requires s != [] && WellFormedHead(s) && HeadLen(s) == |s|
    ensures EncodeScalar(c) == s
  {
    if |s| == 1 {
      c := s[0];
    } else if |s| == 2 {
      c := TwoBytes(s[0] - 0xC0, s[1] - 0x80);
    } else if |s| == 3 {
      c := ThreeBytes(s[0] - 0xE0, s[1] - 0x80, s[2] - 0x80);
    } else {
      c := FourBytes(s[0] - 0xF0, s[1] - 0x80, s[2] - 0x80, s[3] - 0x80);
    }
  }

  function Join(h: nat, x: nat): (c: nat)
    requires x < 64
    ensures c / 64 == h && c % 64 == x
  {
    h * 64 + x
  }

  lemma TwoBytes(h: nat, x: nat) returns (c: Scalar)
    requires 2 <= h < 0x20 && x < 64
    ensures EncodeScalar(c) == [0xC0 + h, 0x80 + x]
  {
    c := Join(h, x);
  }

  lemma ThreeBytes(h: nat, x: nat, y: nat) returns (c: Scalar)
    requires h < 0x10 && x < 64 && y < 64 && (h == 0 ==> 0x20 <= x) && (h == 0xD ==> x < 0x20)
    ensures EncodeScalar(c) == [0xE0 + h, 0x80 + x, 0x80 + y]
  {
    c := Join(Join(h, x), y);
  }

  lemma FourBytes(h: nat, x: nat, y: nat, z: nat) returns (c: Scalar)
    requires h < 5 && x < 64 && y < 64 && z < 64 && (h == 0 ==> 0x10 <= x) && (h == 4 ==> x < 0x10)
    ensures EncodeScalar(c) == [0xF0 + h, 0x80 + x, 0x80 + y, 0x80 + z]
  {
    c := Join(Join(Join(h, x), y), z);
  }

  lemma {:induction false} ScalarsAreValid(cs: seq<Scalar>)
    ensures Valid(EncodeScalars(cs))
  {
    hide WellFormedHead, HeadLen, EncodeScalar;
    if cs != [] {
      EncodedIsWellFormed(cs[0]);
      ScalarsAreValid(cs[1..]);
      assert EncodeScalar(cs[0]) != [] by { EncodedIsWellFormed(cs[0]); }
      ValidCons(EncodeScalar(cs[0]), EncodeScalars(cs[1..]));
    }
  }

  lemma {:induction false} ValidHasScalars(bs: Bytes) returns (cs: seq<Scalar>)
    requires Valid(bs)
    ensures EncodeScalars(cs) == bs
    decreases |bs|
  {
    hide WellFormedHead, HeadLen, EncodeScalar;
    if bs == [] {
      cs := [];
    } else {
      HeadAlone(bs);
      var c := WellFormedIsEncoded(bs[..HeadLen(bs)]);
      var rest := ValidHasScalars(bs[HeadLen(bs)..]);
      cs := [c] + rest;
      assert cs[1..] == rest && bs == bs[..HeadLen(bs)] + bs[HeadLen(bs)..];
    }
  }

  /** The accepted byte strings are exactly the encodings of sequences of scalar values. */
  lemma ValidIffScalars(bs: Bytes)
    ensures Valid(bs) <==> exists cs :: EncodeScalars(cs) == bs
  {
    if Valid(bs) {
      var cs := ValidHasScalars(bs);
    }
    forall cs | EncodeScalars(cs) == bs
      ensures Valid(bs)
    {
      ScalarsAreValid(cs);
    }
  }
}
