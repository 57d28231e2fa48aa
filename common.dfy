/** The optional value used wherever the C++ code returns a nullable pointer. */
module Options {
  datatype Option<+T> = None | Some(value: T)
}

/** Machine-level values: bytes, the 32-bit words the instance buffers hold, and the
    `glBufferSubData` update of a byte range. Multi-byte values are little-endian, the byte
    order of the x86-64 host that copies them into GPU memory. */
module Bytes {
  newtype byte = x: int | 0 <= x < 0x100

  /** A C++ `int`. */
  newtype int32 = x: int | -0x8000_0000 <= x < 0x8000_0000

  const INT32_MAX: int := 0x7fff_ffff

  /** An unsigned 32-bit word, such as the bit pattern of a `float`. */
  type u32 = x: int | 0 <= x < 0x1_0000_0000

  function U32Bytes(w: u32): (r: seq<byte>)
    ensures |r| == 4
  {
    [(w % 0x100) as byte, (w / 0x100 % 0x100) as byte,
     (w / 0x1_0000 % 0x100) as byte, (w / 0x100_0000) as byte]
  }

  function BytesU32(b: seq<byte>): (w: u32)
    requires |b| == 4
  {
    b[0] as int + 0x100 * b[1] as int + 0x1_0000 * b[2] as int + 0x100_0000 * b[3] as int
  }

  /** Reading back the four bytes of a word gives the word. */
  lemma U32RoundTrip(w: u32)
    ensures BytesU32(U32Bytes(w)) == w
  {
    var b := U32Bytes(w);
    assert w == w % 0x100 + 0x100 * (w / 0x100);
    assert w / 0x100 == w / 0x100 % 0x100 + 0x100 * (w / 0x1_0000);
    assert w / 0x1_0000 == w / 0x1_0000 % 0x100 + 0x100 * (w / 0x100_0000);
  }

  /** Two's complement: the word that holds a C++ `int`. */
  function Int32Word(v: int32): (w: u32)
    ensures v >= 0 ==> w == v as int
  {
    if v < 0 then v as int + 0x1_0000_0000 else v as int
  }

  function WordInt32(w: u32): int32 {
    if w >= 0x8000_0000 then (w - 0x1_0000_0000) as int32 else w as int32
  }

  function Int32Bytes(v: int32): (r: seq<byte>)
    ensures |r| == 4
  {
    U32Bytes(Int32Word(v))
  }

  function BytesInt32(b: seq<byte>): int32
    requires |b| == 4
  {
    WordInt32(BytesU32(b))
  }

  /** The four bytes of an `int` decode to that `int`, negative values included. */
  lemma Int32RoundTrip(v: int32)
    ensures BytesInt32(Int32Bytes(v)) == v
  {
    U32RoundTrip(Int32Word(v));
  }

  /** `glBufferSubData(target, offset, |data|, data)` on a buffer holding `s`: the bytes from
      `offset` on are replaced by `data`; a range that does not lie inside the buffer raises
      GL_INVALID_VALUE and leaves the buffer as it was. */
  function SubData(s: seq<byte>, offset: int, data: seq<byte>): (r: seq<byte>)
    ensures |r| == |s|
    ensures 0 <= offset && offset + |data| <= |s| ==>
              r[offset..offset + |data|] == data
              && forall k :: 0 <= k < |s| && !(offset <= k < offset + |data|) ==> r[k] == s[k]
    ensures !(0 <= offset && offset + |data| <= |s|) ==> r == s
  {
    if 0 <= offset && offset + |data| <= |s| then
      var r := s[..offset] + data + s[offset + |data|..];
      assert forall k :: offset <= k < offset + |data| ==> r[k] == data[k - offset];
      r
    else s
  }
}

/** The part of GLM the core relies on: a `glm::vec3` is three `float`s, each carried here as
    its IEEE 754 binary32 bit pattern. The model copies floats but never computes with them;
    the one conversion it needs is that of a small integer coordinate to a float. */
module Glm {
  import opened Options
  import opened Bytes

  type Float32 = u32

  datatype Vec3 = Vec3(x: Float32, y: Float32, z: Float32)
  datatype Vec2 = Vec2(x: Float32, y: Float32)

  /** The all-zero pattern is +0.0, so these are `glm::vec3(0)` and `glm::vec2(0)`. */
  const ZERO3: Vec3 := Vec3(0, 0, 0)
  const ZERO2: Vec2 := Vec2(0, 0)

  /** `sizeof(glm::vec3)`: the twelve bytes of its three floats. */
  function Vec3Bytes(v: Vec3): (r: seq<byte>)
    ensures |r| == 12
  {
    U32Bytes(v.x) + U32Bytes(v.y) + U32Bytes(v.z)
  }

  function BytesVec3(b: seq<byte>): Vec3
    requires |b| == 12
  {
    Vec3(BytesU32(b[..4]), BytesU32(b[4..8]), BytesU32(b[8..]))
  }

  lemma Vec3RoundTrip(v: Vec3)
    ensures BytesVec3(Vec3Bytes(v)) == v
  {
    var b := Vec3Bytes(v);
    assert b[..4] == U32Bytes(v.x);
    assert b[4..8] == U32Bytes(v.y);
    assert b[8..] == U32Bytes(v.z);
    U32RoundTrip(v.x);
    U32RoundTrip(v.y);
    U32RoundTrip(v.z);
  }

  function Pow2(k: nat): (p: nat)
    ensures p >= 1
  {
    if k == 0 then 1 else 2 * Pow2(k - 1)
  }

  lemma {:induction false} Pow2Add(a: nat, b: nat)
    ensures Pow2(a) * Pow2(b) == Pow2(a + b)
  {
    if a > 0 {
      Pow2Add(a - 1, b);
    }
  }

  const MANTISSA_UNIT: nat := 0x80_0000  // 2^23, one step of the biased exponent
  const FLOAT_EXACT_LIMIT: nat := 0x100_0000  // 2^24: every integer below it is a float

  /** The binary32 pattern of the float equal to `n`, as `float(n)` produces it: sign 0, biased
      exponent 127 + e where 2^e is the leading one of `n`, and the bits of `n` below it as the
      mantissa. */
  function IntToFloat32(n: nat): Float32
    requires n < FLOAT_EXACT_LIMIT
  {
    if n == 0 then 0 else Normalize(n, 0)
  }

  /** The pattern of the float `m / 2^shift`, found by shifting `m` left until its leading
      one reaches bit 23. */
  function Normalize(m: nat, shift: nat): Float32
    requires Pow2(shift) <= m < FLOAT_EXACT_LIMIT
    decreases FLOAT_EXACT_LIMIT - m
  {
    if m >= MANTISSA_UNIT then
      ShiftBound(m, shift);
      (150 - shift) * MANTISSA_UNIT + (m - MANTISSA_UNIT)
    else
      Normalize(2 * m, shift + 1)
  }

  lemma ShiftBound(m: nat, shift: nat)
    requires Pow2(shift) <= m < FLOAT_EXACT_LIMIT
    ensures shift <= 23
  {
    Pow2Values();
    Pow2Below(shift, 24);
  }

  /** Powers of two are ordered as their exponents. */
  lemma {:induction false} Pow2Below(a: nat, b: nat)
    requires Pow2(a) < Pow2(b)
    ensures a < b
  {
    if a > 0 && b > 0 {
      Pow2Below(a - 1, b - 1);
    }
  }

  lemma Pow2Values()
    ensures Pow2(23) == MANTISSA_UNIT && Pow2(24) == FLOAT_EXACT_LIMIT
  {
    assert Pow2(0) == 1;
    assert Pow2(1) == 2;
    assert Pow2(2) == 4;
    assert Pow2(3) == 8;
    assert Pow2(4) == 16;
    assert Pow2(5) == 32;
    assert Pow2(6) == 64;
    assert Pow2(7) == 128;
    assert Pow2(8) == 256;
    assert Pow2(9) == 512;
    assert Pow2(10) == 1024;
    assert Pow2(11) == 2048;
    assert Pow2(12) == 4096;
    assert Pow2(13) == 8192;
    assert Pow2(14) == 16384;
    assert Pow2(15) == 32768;
    assert Pow2(16) == 65536;
    assert Pow2(17) == 131072;
    assert Pow2(18) == 262144;
    assert Pow2(19) == 524288;
    assert Pow2(20) == 1048576;
    assert Pow2(21) == 2097152;
    assert Pow2(22) == 4194304;
    assert Pow2(23) == 8388608;
    assert Pow2(24) == 16777216;
  }

  lemma MulStrict(a: nat, b: nat, c: nat)
    requires a < b && c > 0
    ensures a * c < b * c
  {
    assert b * c == a * c + (b - a) * c;
    MulAtLeast(b - a, c);
  }

  lemma MulAtLeast(k: int, d: nat)
    requires k >= 1
    ensures k * d >= d
  {
    assert k * d == d + (k - 1) * d;
  }

  lemma DivModOf(q: nat, r: nat, d: nat)
    requires 0 <= r < d
    ensures (q * d + r) / d == q && (q * d + r) % d == r
  {
    var a := q * d + r;
    var q', r' := a / d, a % d;
    assert a == q' * d + r';
    assert (q - q') * d == r' - r;
    if q > q' {
      MulAtLeast(q - q', d);
    } else if q < q' {
      MulAtLeast(q' - q, d);
    }
  }

  /** The value of a float pattern when that value is an integer in [0, 2^24): either zero
      (of either sign), or a positive normal float whose exponent is at most 23 and whose
      mantissa has no bits below the binary point. Every other pattern (a fraction, a negative,
      a larger or special value) has no such value. */
  function Float32ToInt(b: Float32): Option<nat> {
    if b == 0 || b == 0x8000_0000 then Some(0)
    else
      var biased := b / MANTISSA_UNIT;
      var fraction := b % MANTISSA_UNIT;
      if biased < 127 || biased > 150 || fraction % Pow2(150 - biased) != 0 then None
      else Some(Pow2(biased - 127) + fraction / Pow2(150 - biased))
  }

  /** A pattern with mantissa bits below the binary point is not an integer: the float
      1 + 2^-23 has no integer value. */
  lemma FractionIsNotInteger()
    ensures Float32ToInt(0x3F80_0001) == None
    ensures Float32ToInt(0x3F80_0000) == Some(1)
  {
    Pow2Values();
    assert 0x3F80_0001 / MANTISSA_UNIT == 127 && 0x3F80_0001 % MANTISSA_UNIT == 1;
    assert 0x3F80_0000 / MANTISSA_UNIT == 127 && 0x3F80_0000 % MANTISSA_UNIT == 0;
  }

  /** The conversion is exact: the float made from a coordinate has exactly the coordinate as
      its value, so distinct cells get distinct float positions. */
  lemma IntToFloat32RoundTrip(n: nat)
    requires n < FLOAT_EXACT_LIMIT
    ensures Float32ToInt(IntToFloat32(n)) == Some(n)
  {
    if n > 0 {
      NormalizeRoundTrip(n, n, 0);
    }
  }

  lemma {:induction false} NormalizeRoundTrip(n: nat, m: nat, shift: nat)
    requires Pow2(shift) <= m < FLOAT_EXACT_LIMIT && m == n * Pow2(shift)
    ensures Float32ToInt(Normalize(m, shift)) == Some(n)
    decreases FLOAT_EXACT_LIMIT - m
  {
    if m >= MANTISSA_UNIT {
      ShiftBound(m, shift);
      MantissaOfNormalized(n, m, shift);
      DecodeNormalized(shift, m - MANTISSA_UNIT);
    } else {
      assert Pow2(shift + 1) == 2 * Pow2(shift);
      assert 2 * m == n * Pow2(shift + 1);
      NormalizeRoundTrip(n, 2 * m, shift + 1);
    }
  }

  /** Reading a normalised pattern back: the leading one plus the mantissa shifted down, when
      no mantissa bit lies below the binary point. */
  lemma DecodeNormalized(shift: nat, r: nat)
    requires shift <= 23 && r < MANTISSA_UNIT && r % Pow2(shift) == 0
    ensures Float32ToInt((150 - shift) * MANTISSA_UNIT + r) == Some(Pow2(23 - shift) + r / Pow2(shift))
  {
    DivModOf(150 - shift, r, MANTISSA_UNIT);
  }

  /** Once `n << shift` has its leading one at bit 23, the bits below it are those of `n` below
      its leading one, shifted. */
  lemma MantissaOfNormalized(n: nat, m: nat, shift: nat)
    requires shift <= 23 && MANTISSA_UNIT <= m && m == n * Pow2(shift)
    ensures (m - MANTISSA_UNIT) / Pow2(shift) == n - Pow2(23 - shift)
    ensures (m - MANTISSA_UNIT) % Pow2(shift) == 0
  {
    Pow2Values();
    Pow2Add(23 - shift, shift);
    var top := Pow2(23 - shift);
    var p := Pow2(shift);
    if n < top {
      MulStrict(n, top, p);
    }
    assert top * p == MANTISSA_UNIT;
    MulSub(n, top, p);
    var q := n - top;
    assert q * p + 0 == m - MANTISSA_UNIT;
    DivModOf(q, 0, p);
  }

  lemma MulSub(a: nat, b: nat, c: nat)
    requires b <= a
    ensures (a - b) * c == a * c - b * c
  {
  }
}
