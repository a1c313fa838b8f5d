/**
 BASIS256.LUT: the four cubic uniform B-spline basis polynomials sampled at
 t = i / 255 for i = 0 .. 255, each value quantised with the signed Q8.8 law
 and stored as a little-endian word, four words per sample in the order B0, B1,
 B2, B3.
 */
module BasisLut {
  import opened Bytes
  import opened FixedPoint
  import opened Seqs
  import opened LutGen
  import opened Cubic

  function B0(t: real): real { Cube(1.0 - t) / 6.0 }
  function B1(t: real): real { (3.0 * Cube(t) - 6.0 * Sq(t) + 4.0) / 6.0 }
  function B2(t: real): real { (-3.0 * Cube(t) + 3.0 * Sq(t) + 3.0 * t + 1.0) / 6.0 }
  function B3(t: real): real { Cube(t) / 6.0 }

  /** The values of one sample, in the order the generator writes them. */
  function BasisRow(t: real): (r: seq<real>)
    ensures |r| == 4
  {
    [B0(t), B1(t), B2(t), B3(t)]
  }

  const Samples: nat := 256
  const Width: nat := 4
  const FileName: string := "BASIS256.LUT"

  /** The sample point of index `i`: 255 steps span the unit interval. */
  function SampleT(i: int): real
  {
    i as real / 255.0
  }

  /** The row the generator's inner loop writes for sample `i`. */
  function BasisSample(i: int): (r: seq<real>)
    ensures |r| == Width
  {
    BasisRow(SampleT(i))
  }

  /**
   The generator's output: 2048 bytes, sample-major; the word at word offset
   4i + k (byte offsets 8i + 2k and 8i + 2k + 1) is `q88(Bk(i / 255))`.
   */
  function BasisTable(): (bs: seq<Byte>)
    ensures |bs| == 2048
    ensures forall i, k :: 0 <= i < Samples && 0 <= k < Width ==>
              2 * Offset(i, Width, k) + 1 < |bs| && WordAt(bs, Offset(i, Width, k)) == Q88Signed(BasisSample(i)[k])
  {
    TableBytes(Samples, Width, BasisSample, Q88Signed)
  }

  /** Running the generator against a file system. */
  function RunBasis(fs: FileSystem): (fs': FileSystem)
    ensures FileName in fs ==> fs' == fs
    ensures FileName !in fs ==> FileName in fs' && fs'[FileName] == BasisTable()
  {
    Generate(fs, FileName, BasisTable())
  }

  /** The four basis functions form a partition of unity, for every real t. */
  lemma PartitionOfUnity(t: real)
    ensures B0(t) + B1(t) + B2(t) + B3(t) == 1.0
  {
    assert Cube(1.0 - t) == 1.0 - 3.0 * t + 3.0 * Sq(t) - Cube(t);
  }

  /** The uniform basis is symmetric: B0 and B1 are B3 and B2 mirrored about t = 1/2. */
  lemma BasisMirror(t: real)
    ensures B0(t) == B3(1.0 - t)
    ensures B1(t) == B2(1.0 - t)
  {
    assert Cube(1.0 - t) == 1.0 - 3.0 * t + 3.0 * Sq(t) - Cube(t);
  }

  /** On the unit interval every basis value lies in [0, 2/3]; B0 and B3 never exceed 1/6 and B1, B2 never drop below it. */
  lemma BasisBounds(t: real)
    requires 0.0 <= t <= 1.0
    ensures 0.0 <= B0(t) <= 1.0 / 6.0 && 0.0 <= B3(t) <= 1.0 / 6.0
    ensures 1.0 / 6.0 <= B1(t) <= 2.0 / 3.0 && 1.0 / 6.0 <= B2(t) <= 2.0 / 3.0
  {
    var s := 1.0 - t;
    PowersInUnit(t);
    PowersInUnit(s);
    // B1: 4 - 6t^2 + 3t^3 == 1 + 3(1 - t)(1 + t(1 - t)) and 6t^2 - 3t^3 == 3t^2(1 + (1 - t)).
    MulNonneg(t, s);
    MulNonneg(s, 1.0 + t * s);
    assert 4.0 - 6.0 * Sq(t) + 3.0 * Cube(t) == 1.0 + 3.0 * (s * (1.0 + t * s));
    MulNonneg(Sq(t), 1.0 + s);
    assert 6.0 * Sq(t) - 3.0 * Cube(t) == 3.0 * (Sq(t) * (1.0 + s));
    // B2: 3t^2 - 3t^3 == 3t^2(1 - t) and 4 - (-3t^3 + 3t^2 + 3t + 1) == 3(1 - t)^2(1 + t).
    MulNonneg(Sq(t), s);
    assert 3.0 * Sq(t) - 3.0 * Cube(t) == 3.0 * (Sq(t) * s);
    MulNonneg(Sq(s), 1.0 + t);
    assert 3.0 - 3.0 * t - 3.0 * Sq(t) + 3.0 * Cube(t) == 3.0 * (Sq(s) * (1.0 + t));
  }

  lemma SampleTInUnit(i: int)
    requires 0 <= i < Samples
    ensures 0.0 <= SampleT(i) <= 1.0
  {
  }

  /**
   Every stored basis word lies in [0, 171], so the clamp never fires and the
   mask never changes a value: the word is `round(Bk(t) * 256)` itself.
   */
  lemma BasisWordsInRange(i: int, k: int)
    requires 0 <= i < Samples && 0 <= k < Width
    ensures WordAt(BasisTable(), Offset(i, Width, k)) <= 171
    ensures WordAt(BasisTable(), Offset(i, Width, k)) == Round(BasisSample(i)[k] * Scale)
  {
    var x := BasisSample(i)[k];
    assert 0.0 <= x <= 2.0 / 3.0 by {
      BasisBounds(SampleT(i));
    }
    Q88SignedExact(x, 0, 171);
  }

  /**
   6 * 255^3 times basis value `k` of sample `i`: with t = i / 255 each
   formula becomes an integer polynomial in i.
   */
  function BasisNumerator(i: int, k: int): int
    requires 0 <= k < Width
  {
    var s := 255 - i;
    if k == 0 then s * s * s
    else if k == 1 then 3 * (i * i * i) - 1530 * (i * i) + 66325500
    else if k == 2 then -3 * (i * i * i) + 765 * (i * i) + 195075 * i + 16581375
    else i * i * i
  }

  /** Every sampled basis value is an integer over 6 * 255^3. */
  lemma BasisScaled(i: int, k: int)
    requires 0 <= i < Samples && 0 <= k < Width
    ensures BasisSample(i)[k] * 6.0 * 16581375.0 == BasisNumerator(i, k) as real
  {
    var t := SampleT(i);
    assert t * 255.0 == i as real;
    if k == 0 {
      B0Scaled(t, i);
    } else if k == 1 {
      B1Scaled(t, i);
    } else if k == 2 {
      B2Scaled(t, i);
    } else {
      B3Scaled(t, i);
    }
  }

  lemma B0Scaled(t: real, n: int)
    requires t * 255.0 == n as real
    ensures B0(t) * 99488250.0 == ((255 - n) * (255 - n) * (255 - n)) as real
  {
    ScaledPowers(1.0 - t, 255.0, 255 - n);
  }

  lemma B1Scaled(t: real, n: int)
    requires t * 255.0 == n as real
    ensures B1(t) * 99488250.0 == (3 * (n * n * n) - 1530 * (n * n) + 66325500) as real
  {
    ScaledPowers(t, 255.0, n);
  }

  lemma B2Scaled(t: real, n: int)
    requires t * 255.0 == n as real
    ensures B2(t) * 99488250.0 == (-3 * (n * n * n) + 765 * (n * n) + 195075 * n + 16581375) as real
  {
    ScaledPowers(t, 255.0, n);
  }

  lemma B3Scaled(t: real, n: int)
    requires t * 255.0 == n as real
    ensures B3(t) * 99488250.0 == (n * n * n) as real
  {
    ScaledPowers(t, 255.0, n);
  }

  /**
   No sampled basis value is a rounding tie: 256 times it, times the odd
   number 3 * 255^3, is an even integer. So every stored word is strictly
   within half a unit of the scaled value.
   */
  lemma BasisNoTie(i: int, k: int)
    requires 0 <= i < Samples && 0 <= k < Width
    ensures var y := BasisSample(i)[k] * Scale;
            y - 0.5 < WordAt(BasisTable(), Offset(i, Width, k)) as real < y + 0.5
  {
    var x := BasisSample(i)[k];
    BasisScaled(i, k);
    assert (x * Scale) * 49744125 as real == (2 * (64 * BasisNumerator(i, k))) as real;
    RoundNoTie(x * Scale, 49744125, 64 * BasisNumerator(i, k));
    BasisWordsInRange(i, k);
  }

  /**
   After quantisation the four words of a sample still add up to 256 (the
   stored form of 1.0) within one unit: the four rounding errors are each
   strictly below one half, and their sum is an integer.
   */
  lemma QuantisedPartition(i: int)
    requires 0 <= i < Samples
    ensures var bs := BasisTable();
            var sum := WordAt(bs, Offset(i, Width, 0)) + WordAt(bs, Offset(i, Width, 1))
                     + WordAt(bs, Offset(i, Width, 2)) + WordAt(bs, Offset(i, Width, 3));
            256 - 1 <= sum <= 256 + 1
  {
    var row := BasisSample(i);
    assert row[0] + row[1] + row[2] + row[3] == 1.0 by {
      PartitionOfUnity(SampleT(i));
    }
    BasisNoTie(i, 0);
    BasisNoTie(i, 1);
    BasisNoTie(i, 2);
    BasisNoTie(i, 3);
    assert row[0] * Scale + row[1] * Scale + row[2] * Scale + row[3] * Scale == 256.0;
  }

  /** 256 / 6 = 42.67 rounds to 43 (0x2B); zero stays zero. */
  lemma SixthAndZeroWords()
    ensures Q88Signed(1.0 / 6.0) == 0x2B
    ensures Q88Signed(0.0) == 0
  {
    var w := Q88Signed(1.0 / 6.0);
    assert (1.0 / 6.0) * Scale == 128.0 / 3.0;
    assert ToSigned16(w) == 43;
  }

  /** The two bytes of value `k` of sample `i`: its low byte at 8i + 2k, its high byte right after. */
  lemma StoredBytes(i: int, k: int)
    requires 0 <= i < Samples && 0 <= k < Width
    ensures BasisTable()[8 * i + 2 * k] == Q88Signed(BasisSample(i)[k]) % 0x100
    ensures BasisTable()[8 * i + 2 * k + 1] == Q88Signed(BasisSample(i)[k]) / 0x100
  {
    var p := Offset(i, Width, k);
    assert 2 * p == 8 * i + 2 * k;
    WordAtBytes(BasisTable(), p);
  }

  /**
   The words stored for B0 and B3 at the two end samples: 43 where the value is
   1/6 (B0 at t = 0, B3 at t = 1) and 0 where it is 0.
   */
  lemma EndWord(i: int, k: int)
    requires i == 0 || i == Samples - 1
    requires k == 0 || k == Width - 1
    ensures Q88Signed(BasisSample(i)[k]) == if (i == 0) == (k == 0) then 0x2B else 0
  {
    var t := SampleT(i);
    var x := BasisSample(i)[k];
    if i == 0 {
      assert t == 0.0;
      if k == 0 { assert x == B0(0.0) == 1.0 / 6.0; } else { assert x == B3(0.0) == 0.0; }
    } else {
      assert t == 1.0;
      if k == 0 { assert x == B0(1.0) == 0.0; } else { assert x == B3(1.0) == 1.0 / 6.0; }
    }
    SixthAndZeroWords();
  }

  /** The bytes of B0 and B3 at the two end samples: 0x2B, 0x00 where the value is 1/6 and 0x00, 0x00 where it is 0. */
  lemma EndBytes(i: int, k: int)
    requires i == 0 || i == Samples - 1
    requires k == 0 || k == Width - 1
    ensures BasisTable()[8 * i + 2 * k] == if (i == 0) == (k == 0) then 0x2B else 0
    ensures BasisTable()[8 * i + 2 * k + 1] == 0
  {
    EndWord(i, k);
    StoredBytes(i, k);
  }

  /** t = 0: B0 = 1/6 is stored as 43 (bytes 0x2B, 0x00) and B3 = 0 as 0 (bytes 0x00, 0x00). */
  lemma FirstSample()
    ensures BasisTable()[0] == 0x2B && BasisTable()[1] == 0x00
    ensures BasisTable()[6] == 0x00 && BasisTable()[7] == 0x00
  {
    EndBytes(0, 0);
    EndBytes(0, 3);
  }

  /** t = 1: B0 = 0 is stored as 0 and B3 = 1/6 as 43, in the last eight bytes. */
  lemma LastSample()
    ensures BasisTable()[2040] == 0x00 && BasisTable()[2041] == 0x00
    ensures BasisTable()[2046] == 0x2B && BasisTable()[2047] == 0x00
  {
    EndBytes(255, 0);
    EndBytes(255, 3);
  }
}
