/**
 DERIV256.LUT: the derivatives of the four cubic B-spline basis polynomials,
 sampled on the same grid t = i / 255 and stored with the same signed Q8.8 law
 and layout as BASIS256.LUT. Negative derivatives are stored as 16-bit two's
 complement words.
 */
module DerivLut {
  import opened Bytes
  import opened FixedPoint
  import opened Seqs
  import opened LutGen
  import opened Cubic
  import BasisLut

  function DB0(t: real): real { -0.5 * Sq(1.0 - t) }
  function DB1(t: real): real { 0.5 * (3.0 * t * t - 4.0 * t) }
  function DB2(t: real): real { 0.5 * (-3.0 * t * t + 2.0 * t + 1.0) }
  function DB3(t: real): real { 0.5 * (t * t) }

  /** The values of one sample, in the order the generator writes them. */
  function DerivRow(t: real): (r: seq<real>)
    ensures |r| == 4
  {
    [DB0(t), DB1(t), DB2(t), DB3(t)]
  }

  const FileName: string := "DERIV256.LUT"

  /** The row the generator's inner loop writes for sample `i`. */
  function DerivSample(i: int): (r: seq<real>)
    ensures |r| == BasisLut.Width
  {
    DerivRow(BasisLut.SampleT(i))
  }

  /**
   The generator's output: 2048 bytes, sample-major; the word at word offset
   4i + k (byte offsets 8i + 2k and 8i + 2k + 1) is `q88(dBk(i / 255))`.
   */
  function DerivTable(): (bs: seq<Byte>)
    ensures |bs| == 2048
    ensures forall i, k :: 0 <= i < BasisLut.Samples && 0 <= k < BasisLut.Width ==>
              2 * Offset(i, BasisLut.Width, k) + 1 < |bs| &&
              WordAt(bs, Offset(i, BasisLut.Width, k)) == Q88Signed(DerivSample(i)[k])
  {
    TableBytes(BasisLut.Samples, BasisLut.Width, DerivSample, Q88Signed)
  }

  /** Running the generator against a file system. */
  function RunDeriv(fs: FileSystem): (fs': FileSystem)
    ensures FileName in fs ==> fs' == fs
    ensures FileName !in fs ==> FileName in fs' && fs'[FileName] == DerivTable()
  {
    Generate(fs, FileName, DerivTable())
  }

  /** The four derivatives sum to zero for every real t. */
  lemma DerivSumZero(t: real)
    ensures DB0(t) + DB1(t) + DB2(t) + DB3(t) == 0.0
  {
  }

  /**
   The derivatives inherit the basis's mirror symmetry with a change of sign:
   dB0 and dB1 are dB3 and dB2 mirrored about t = 1/2 and negated.
   */
  lemma DerivMirror(t: real)
    ensures DB0(t) == -DB3(1.0 - t)
    ensures DB1(t) == -DB2(1.0 - t)
  {
  }

  /** The basis polynomials of BASIS256.LUT in coefficient form. */
  function BasisPoly(k: int): Poly
    requires 0 <= k < 4
  {
    if k == 0 then Poly(1.0 / 6.0, -0.5, 0.5, -1.0 / 6.0)
    else if k == 1 then Poly(2.0 / 3.0, 0.0, -1.0, 0.5)
    else if k == 2 then Poly(1.0 / 6.0, 0.5, 0.5, -0.5)
    else Poly(0.0, 0.0, 0.0, 1.0 / 6.0)
  }

  /** The coefficient forms are the basis functions the basis generator samples. */
  lemma BasisPolyMatches(k: int, t: real)
    requires 0 <= k < 4
    ensures Eval(BasisPoly(k), t) == BasisLut.BasisRow(t)[k]
  {
    if k == 0 {
      assert Cube(1.0 - t) == 1.0 - 3.0 * t + 3.0 * Sq(t) - Cube(t);
    }
  }

  /** Each dBk is the formal derivative of the matching Bk. */
  lemma DerivIsFormalDerivative(k: int, t: real)
    requires 0 <= k < 4
    ensures Eval(Derivative(BasisPoly(k)), t) == DerivRow(t)[k]
    ensures Eval(BasisPoly(k), t) == BasisLut.BasisRow(t)[k]
  {
    BasisPolyMatches(k, t);
  }

  /** B0 + B1 + B2 + B3 in coefficient form. */
  function BasisPolySum(): Poly
  {
    Add(Add(Add(BasisPoly(0), BasisPoly(1)), BasisPoly(2)), BasisPoly(3))
  }

  /** dB0 + dB1 + dB2 + dB3 in coefficient form, term by term. */
  function DerivPolySum(): Poly
  {
    Add(Add(Add(Derivative(BasisPoly(0)), Derivative(BasisPoly(1))), Derivative(BasisPoly(2))), Derivative(BasisPoly(3)))
  }

  /** The four basis polynomials add up to the constant polynomial 1. */
  lemma BasisPolysSumToOne()
    ensures BasisPolySum() == Poly(1.0, 0.0, 0.0, 0.0)
  {
    var p01 := Add(BasisPoly(0), BasisPoly(1));
    assert p01 == Poly(5.0 / 6.0, -0.5, -0.5, 1.0 / 3.0);
    var p012 := Add(p01, BasisPoly(2));
    assert p012 == Poly(1.0, 0.0, 0.0, -1.0 / 6.0);
  }

  /**
   The sum of the derivatives is the derivative of the sum, that is of the
   constant 1, hence the zero polynomial: the reason the derivative row sums
   to zero.
   */
  lemma DerivativesOfPartition()
    ensures DerivPolySum() == Derivative(BasisPolySum())
    ensures DerivPolySum() == Poly(0.0, 0.0, 0.0, 0.0)
  {
    DerivOfBasisSum();
    BasisPolysSumToOne();
  }

  /** Summing the basis polynomials and differentiating commute. */
  lemma DerivOfBasisSum()
    ensures DerivPolySum() == Derivative(BasisPolySum())
  {
    DerivativeOfSum4(BasisPoly(0), BasisPoly(1), BasisPoly(2), BasisPoly(3));
  }

  /**
   On the unit interval every derivative lies in [-2/3, 2/3]: dB0 in [-1/2, 0],
   dB1 in [-2/3, 0], dB2 in [0, 2/3] and dB3 in [0, 1/2].
   */
  lemma DerivBounds(t: real)
    requires 0.0 <= t <= 1.0
    ensures -0.5 <= DB0(t) <= 0.0 && -2.0 / 3.0 <= DB1(t) <= 0.0
    ensures 0.0 <= DB2(t) <= 2.0 / 3.0 && 0.0 <= DB3(t) <= 0.5
  {
    var s := 1.0 - t;
    PowersInUnit(t);
    PowersInUnit(s);
    // dB1 + 2/3 == 3/2 (t - 2/3)^2 and -dB1 == t (4 - 3t) / 2.
    SqNonneg(t - 2.0 / 3.0);
    assert DB1(t) + 2.0 / 3.0 == 1.5 * Sq(t - 2.0 / 3.0);
    MulNonneg(t, 4.0 - 3.0 * t);
    assert -DB1(t) == 0.5 * (t * (4.0 - 3.0 * t));
    // 2/3 - dB2 == 3/2 (t - 1/3)^2 and dB2 == (1 - t)(3t + 1) / 2.
    SqNonneg(t - 1.0 / 3.0);
    assert 2.0 / 3.0 - DB2(t) == 1.5 * Sq(t - 1.0 / 3.0);
    MulNonneg(s, 3.0 * t + 1.0);
    assert DB2(t) == 0.5 * (s * (3.0 * t + 1.0));
  }

  /**
   Every stored derivative, read back as a signed value, lies in [-171, 171]:
   the clamp never fires and the value is `round(dBk(t) * 256)` itself.
   */
  lemma DerivWordsInRange(i: int, k: int)
    requires 0 <= i < BasisLut.Samples && 0 <= k < BasisLut.Width
    ensures -171 <= ToSigned16(WordAt(DerivTable(), Offset(i, BasisLut.Width, k))) <= 171
    ensures ToSigned16(WordAt(DerivTable(), Offset(i, BasisLut.Width, k))) == Round(DerivSample(i)[k] * Scale)
  {
    var x := DerivSample(i)[k];
    assert -2.0 / 3.0 <= x <= 2.0 / 3.0 by {
      DerivBounds(BasisLut.SampleT(i));
    }
    Q88SignedExact(x, -171, 171);
  }

  /**
   2 * 255^2 times derivative `k` of sample `i`: with t = i / 255 each formula
   becomes an integer polynomial in i.
   */
  function DerivNumerator(i: int, k: int): int
    requires 0 <= k < BasisLut.Width
  {
    var s := 255 - i;
    if k == 0 then -(s * s)
    else if k == 1 then 3 * (i * i) - 1020 * i
    else if k == 2 then -3 * (i * i) + 510 * i + 65025
    else i * i
  }

  /** Every sampled derivative is an integer over 2 * 255^2. */
  lemma DerivScaled(i: int, k: int)
    requires 0 <= i < BasisLut.Samples && 0 <= k < BasisLut.Width
    ensures DerivSample(i)[k] * 2.0 * 65025.0 == DerivNumerator(i, k) as real
  {
    var t := BasisLut.SampleT(i);
    assert t * 255.0 == i as real;
    if k == 0 {
      DB0Scaled(t, i);
    } else if k == 1 {
      DB1Scaled(t, i);
    } else if k == 2 {
      DB2Scaled(t, i);
    } else {
      DB3Scaled(t, i);
    }
  }

  lemma DB0Scaled(t: real, n: int)
    requires t * 255.0 == n as real
    ensures DB0(t) * 130050.0 == (-((255 - n) * (255 - n))) as real
  {
    ScaledPowers(1.0 - t, 255.0, 255 - n);
  }

  lemma DB1Scaled(t: real, n: int)
    requires t * 255.0 == n as real
    ensures DB1(t) * 130050.0 == (3 * (n * n) - 1020 * n) as real
  {
    ScaledPowers(t, 255.0, n);
  }

  lemma DB2Scaled(t: real, n: int)
    requires t * 255.0 == n as real
    ensures DB2(t) * 130050.0 == (-3 * (n * n) + 510 * n + 65025) as real
  {
    ScaledPowers(t, 255.0, n);
  }

  lemma DB3Scaled(t: real, n: int)
    requires t * 255.0 == n as real
    ensures DB3(t) * 130050.0 == (n * n) as real
  {
    ScaledPowers(t, 255.0, n);
  }

  /**
   No sampled derivative is a rounding tie: 256 times it, times the odd number
   255^2, is an even integer. So every stored value, read signed, is strictly
   within half a unit of the scaled derivative.
   */
  lemma DerivNoTie(i: int, k: int)
    requires 0 <= i < BasisLut.Samples && 0 <= k < BasisLut.Width
    ensures var y := DerivSample(i)[k] * Scale;
            y - 0.5 < ToSigned16(WordAt(DerivTable(), Offset(i, BasisLut.Width, k))) as real < y + 0.5
  {
    var x := DerivSample(i)[k];
    DerivScaled(i, k);
    assert (x * Scale) * 65025 as real == (2 * (64 * DerivNumerator(i, k))) as real;
    RoundNoTie(x * Scale, 65025, 64 * DerivNumerator(i, k));
    DerivWordsInRange(i, k);
  }

  /**
   After quantisation the four signed values of a sample still add up to 0
   within one unit: the four rounding errors are each strictly below one half,
   and their sum is an integer.
   */
  lemma QuantisedDerivSum(i: int)
    requires 0 <= i < BasisLut.Samples
    ensures var bs := DerivTable();
            var sum := ToSigned16(WordAt(bs, Offset(i, BasisLut.Width, 0))) + ToSigned16(WordAt(bs, Offset(i, BasisLut.Width, 1)))
                     + ToSigned16(WordAt(bs, Offset(i, BasisLut.Width, 2))) + ToSigned16(WordAt(bs, Offset(i, BasisLut.Width, 3)));
            -1 <= sum <= 1
  {
    var row := DerivSample(i);
    assert row[0] + row[1] + row[2] + row[3] == 0.0 by {
      DerivSumZero(BasisLut.SampleT(i));
    }
    DerivNoTie(i, 0);
    DerivNoTie(i, 1);
    DerivNoTie(i, 2);
    DerivNoTie(i, 3);
    assert row[0] * Scale + row[1] * Scale + row[2] * Scale + row[3] * Scale == 0.0;
  }

  /** -1/2 is stored as the two's complement of 128, 0xFF80; 1/2 as 128. */
  lemma HalfWords()
    ensures Q88Signed(-0.5) == 0xFF80
    ensures Q88Signed(0.5) == 0x80
  {
    assert ToSigned16(Q88Signed(-0.5)) == -128;
    assert ToSigned16(Q88Signed(0.5)) == 128;
  }

  /** The two bytes of value `k` of sample `i`: its low byte at 8i + 2k, its high byte right after. */
  lemma StoredBytes(i: int, k: int)
    requires 0 <= i < BasisLut.Samples && 0 <= k < BasisLut.Width
    ensures DerivTable()[8 * i + 2 * k] == Q88Signed(DerivSample(i)[k]) % 0x100
    ensures DerivTable()[8 * i + 2 * k + 1] == Q88Signed(DerivSample(i)[k]) / 0x100
  {
    var p := Offset(i, BasisLut.Width, k);
    assert 2 * p == 8 * i + 2 * k;
    WordAtBytes(DerivTable(), p);
  }

  /**
   The words stored at the end samples: at t = 0, dB0 = -1/2, dB2 = 1/2 and
   dB3 = 0; at t = 1, dB1 = -1/2 and dB3 = 1/2.
   */
  lemma EndWord(i: int, k: int)
    requires (i == 0 && (k == 0 || k == 2 || k == 3)) || (i == BasisLut.Samples - 1 && (k == 1 || k == 3))
    ensures Q88Signed(DerivSample(i)[k]) == if k == 3 && i == 0 then 0 else if k <= 1 then 0xFF80 else 0x80
  {
    var t := BasisLut.SampleT(i);
    var x := DerivSample(i)[k];
    if i == 0 {
      assert t == 0.0;
      if k == 0 { assert x == DB0(0.0) == -0.5; }
      else if k == 2 { assert x == DB2(0.0) == 0.5; }
      else { assert x == DB3(0.0) == 0.0; }
    } else {
      assert t == 1.0;
      if k == 1 { assert x == DB1(1.0) == -0.5; } else { assert x == DB3(1.0) == 0.5; }
    }
    HalfWords();
  }

  /** The bytes behind the end-sample words of `EndWord`. */
  lemma EndBytes(i: int, k: int)
    requires (i == 0 && (k == 0 || k == 2 || k == 3)) || (i == BasisLut.Samples - 1 && (k == 1 || k == 3))
    ensures var w := if k == 3 && i == 0 then 0 else if k <= 1 then 0xFF80 else 0x80;
            DerivTable()[8 * i + 2 * k] == w % 0x100 && DerivTable()[8 * i + 2 * k + 1] == w / 0x100
  {
    EndWord(i, k);
    StoredBytes(i, k);
  }

  /** t = 0: dB0 is stored as bytes 0x80, 0xFF; dB2 as 0x80, 0x00; dB3 as 0x00, 0x00. */
  lemma FirstSample()
    ensures DerivTable()[0] == 0x80 && DerivTable()[1] == 0xFF
    ensures DerivTable()[4] == 0x80 && DerivTable()[5] == 0x00
    ensures DerivTable()[6] == 0x00 && DerivTable()[7] == 0x00
  {
    EndBytes(0, 0);
    EndBytes(0, 2);
    EndBytes(0, 3);
  }

  /** t = 1: dB1 is stored as bytes 0x80, 0xFF and dB3 as 0x80, 0x00. */
  lemma LastSample()
    ensures DerivTable()[2042] == 0x80 && DerivTable()[2043] == 0xFF
    ensures DerivTable()[2046] == 0x80 && DerivTable()[2047] == 0x00
  {
    EndBytes(255, 1);
    EndBytes(255, 3);
  }
}
