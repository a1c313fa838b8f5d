/**
 The Q8.8 quantiser shared by the three table generators: scale by 256, round
 to the nearest integer with Python 3's `round` (ties go to the even
 neighbour), clamp into the representable range, then keep the low 16 bits
 (`& 0xFFFF`). The basis and derivative generators clamp to the signed range
 [-32768, 32767]; the exponential generator clamps to [0, 65535].

 Python evaluates `x * 256.0` in binary floating point; here the product is the
 exact real, so these are the values the generators are meant to store.
 */
module FixedPoint {
  import opened Bytes

  const Scale: real := 256.0
  const SignedMin: int := -0x8000
  const SignedMax: int := 0x7FFF
  const UnsignedMax: int := 0xFFFF

  /** Python 3 `round(x)`: the nearest integer, a tie going to the even one. */
  function Round(x: real): (n: int)
    ensures x - 0.5 <= n as real <= x + 0.5
    ensures (n as real == x - 0.5 || n as real == x + 0.5) ==> n % 2 == 0
  {
    var f := x.Floor;
    var d := x - f as real;
    if d < 0.5 then f
    else if d > 0.5 then f + 1
    else if f % 2 == 0 then f else f + 1
  }

  /** The two properties in `Round`'s contract determine it: no other integer has both. */
  lemma RoundUnique(x: real, m: int)
    requires x - 0.5 <= m as real <= x + 0.5
    requires (m as real == x - 0.5 || m as real == x + 0.5) ==> m % 2 == 0
    ensures m == Round(x)
  {
  }

  /** Rounding never reorders its inputs. */
  lemma RoundMonotone(x: real, y: real)
    requires x <= y
    ensures Round(x) <= Round(y)
  {
  }

  /**
   When `y * d` is the even integer 2m with `d` odd, every integer equal to 2y
   is even, because 2y * d = 4m.
   */
  lemma DoubleIsEven(y: real, d: int, m: int, h: int)
    requires d > 0 && d % 2 == 1
    requires y * d as real == (2 * m) as real
    ensures h as real == 2.0 * y ==> h % 2 == 0
  {
    if h as real == 2.0 * y {
      RealProduct(h, d);
      assert h as real * d as real == 2.0 * (y * d as real);
      OddFactor(h, d, m);
    }
  }

  /** Converting a product of integers to a real multiplies the converted factors. */
  lemma RealProduct(a: int, b: int)
    ensures (a * b) as real == a as real * b as real
  {
  }

  /** If h times an odd number is a multiple of 4, then h is even. */
  lemma OddFactor(h: int, d: int, m: int)
    requires d % 2 == 1 && h * d == 4 * m
    ensures h % 2 == 0
  {
    var e := d / 2;
    assert d == 2 * e + 1;
    assert h * d == h * (2 * e) + h;
    assert h * (2 * e) == 2 * (h * e);
    assert h == 2 * (2 * m - h * e);
  }

  /**
   Such a `y` is never halfway between two integers: no integer lies exactly
   half a unit from it, since 2y would then be odd.
   */
  lemma NoTie(y: real, d: int, m: int, n: int)
    requires d > 0 && d % 2 == 1
    requires y * d as real == (2 * m) as real
    ensures n as real != y - 0.5 && n as real != y + 0.5
  {
    DoubleIsEven(y, d, m, 2 * n + 1);
    DoubleIsEven(y, d, m, 2 * n - 1);
  }

  /** Such a real is rounded strictly within half a unit: the tie rule never applies to it. */
  lemma RoundNoTie(y: real, d: int, m: int)
    requires d > 0 && d % 2 == 1
    requires y * d as real == (2 * m) as real
    ensures y - 0.5 < Round(y) as real < y + 0.5
  {
    NoTie(y, d, m, Round(y));
  }

  /** The signed clamp of the basis and derivative generators. */
  function ClampSigned(v: int): (c: int)
    ensures SignedMin <= c <= SignedMax
    ensures SignedMin <= v <= SignedMax ==> c == v
    ensures v < SignedMin ==> c == SignedMin
    ensures v > SignedMax ==> c == SignedMax
  {
    var v := if v < SignedMin then SignedMin else v;
    if v > SignedMax then SignedMax else v
  }

  /** The unsigned clamp of the exponential generator. */
  function ClampUnsigned(v: int): (c: Word)
    ensures 0 <= v <= UnsignedMax ==> c == v
    ensures v < 0 ==> c == 0
    ensures v > UnsignedMax ==> c == UnsignedMax
  {
    var v := if v < 0 then 0 else v;
    if v > UnsignedMax then UnsignedMax else v
  }

  /**
   Python's `v & 0xFFFF` on an unbounded integer: negative integers behave as
   infinitely sign-extended two's complement, so the result is the word that is
   congruent to `v` modulo 2^16.
   */
  function Mask16(v: int): (w: Word)
    ensures (v - w) % 0x1_0000 == 0
    ensures 0 <= v <= UnsignedMax ==> w == v
  {
    v % 0x1_0000
  }

  /** How a consumer reads a stored word as a signed 16-bit value. */
  function ToSigned16(w: Word): (v: int)
    ensures SignedMin <= v <= SignedMax
    ensures (v - w) % 0x1_0000 == 0
  {
    if w <= SignedMax then w else w - 0x1_0000
  }

  /** Masking and sign-reading are inverse on the signed range. */
  lemma SignedWordRoundTrip(v: int, w: Word)
    ensures SignedMin <= v <= SignedMax ==> ToSigned16(Mask16(v)) == v
    ensures Mask16(ToSigned16(w)) == w
  {
  }

  /** `q88` of the basis and derivative generators. */
  function Q88Signed(x: real): (w: Word)
    ensures ToSigned16(w) == ClampSigned(Round(x * Scale))
    ensures SignedMin as real <= x * Scale <= SignedMax as real ==>
              x * Scale - 0.5 <= ToSigned16(w) as real <= x * Scale + 0.5
    ensures x * Scale <= SignedMin as real ==> w == 0x8000
    ensures x * Scale >= SignedMax as real ==> w == 0x7FFF
  {
    Mask16(ClampSigned(Round(x * Scale)))
  }

  /** `q88` of the exponential generator; its mask never changes the clamped value. */
  function Q88Unsigned(x: real): (w: Word)
    ensures w == ClampUnsigned(Round(x * Scale))
    ensures 0.0 <= x * Scale <= UnsignedMax as real ==> x * Scale - 0.5 <= w as real <= x * Scale + 0.5
    ensures x < 0.0 ==> w == 0
    ensures x * Scale >= UnsignedMax as real ==> w == UnsignedMax
  {
    Mask16(ClampUnsigned(Round(x * Scale)))
  }

  /** A larger real never gets a smaller unsigned word. */
  lemma Q88UnsignedMonotone(x: real, y: real)
    requires x <= y
    ensures Q88Unsigned(x) <= Q88Unsigned(y)
  {
    RoundMonotone(x * Scale, y * Scale);
  }

  /** A larger real never gets a smaller signed value, read back as signed. */
  lemma Q88SignedMonotone(x: real, y: real)
    requires x <= y
    ensures ToSigned16(Q88Signed(x)) <= ToSigned16(Q88Signed(y))
  {
    RoundMonotone(x * Scale, y * Scale);
  }

  /**
   When the scaled input lies strictly within half a unit of the integer range
   [lo, hi], itself inside the signed range, the clamp does not fire: the value
   read back is the rounded product itself, and it lies in [lo, hi].
   */
  lemma Q88SignedExact(x: real, lo: int, hi: int)
    requires SignedMin <= lo <= hi <= SignedMax
    requires lo as real - 0.5 < x * Scale < hi as real + 0.5
    ensures ToSigned16(Q88Signed(x)) == Round(x * Scale)
    ensures lo <= ToSigned16(Q88Signed(x)) <= hi
  {
  }
}
