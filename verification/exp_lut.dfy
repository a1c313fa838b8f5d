/**
 EXP256.LUT: the exponential sampled on the non-positive grid x = -i / 64 for
 i = 0 .. 255 (from 0 down to -3.984375), each value quantised with the
 unsigned Q8.8 law and stored as one little-endian word, together with the
 rule a softmax consumer uses to pick an entry for a Q8.8 input.

 The exponential itself is a parameter: the model assumes only the facts in
 `IsExpLike` about it.
 */
module ExpLut {
  import opened Bytes
  import opened FixedPoint
  import opened Seqs
  import opened LutGen

  const Samples: nat := 256
  const FileName: string := "EXP256.LUT"
  /** Grid spacing: 1/64, i.e. four Q8.8 units. */
  const Step: real := 1.0 / 64.0

  /**
   The facts about `math.exp` the model relies on: exp(0) = 1, every value is
   positive, and a larger argument never gives a smaller value.
   */
  ghost predicate IsExpLike(exp: real -> real)
  {
    && exp(0.0) == 1.0
    && (forall x :: 0.0 < exp(x))
    && (forall x, y :: x <= y ==> exp(x) <= exp(y))
  }

  /** The grid point of sample `i`: i steps of 1/64 below zero. */
  function GridX(i: int): (x: real)
    ensures x * 64.0 == -(i as real)
    ensures 0 <= i ==> x <= 0.0
  {
    -(i as real / 64.0)
  }

  /** One sample's single value. */
  function ExpRow(exp: real -> real, i: int): (r: seq<real>)
    ensures |r| == 1
  {
    [exp(GridX(i))]
  }

  /**
   The generator's output: 512 bytes; the word at word offset `i` (byte
   offsets 2i and 2i + 1) is `q88(exp(-i / 64))`.
   */
  function ExpTable(exp: real -> real): (bs: seq<Byte>)
    ensures |bs| == 2 * Samples
    ensures forall i :: 0 <= i < Samples ==> 2 * i + 1 < |bs| && WordAt(bs, i) == Q88Unsigned(exp(GridX(i)))
  {
    var row := i => ExpRow(exp, i);
    var bs := TableBytes(Samples, 1, row, Q88Unsigned);
    assert forall i :: 0 <= i < Samples ==> 2 * i + 1 < |bs| && WordAt(bs, i) == Q88Unsigned(exp(GridX(i))) by {
      forall i | 0 <= i < Samples
        ensures 2 * i + 1 < |bs| && WordAt(bs, i) == Q88Unsigned(exp(GridX(i)))
      {
        assert Offset(i, 1, 0) == i;
        assert row(i)[0] == exp(GridX(i));
      }
    }
    bs
  }

  /** Running the generator against a file system. */
  function RunExp(fs: FileSystem, exp: real -> real): (fs': FileSystem)
    ensures FileName in fs ==> fs' == fs
    ensures FileName !in fs ==> FileName in fs' && fs'[FileName] == ExpTable(exp)
  {
    Generate(fs, FileName, ExpTable(exp))
  }

  /** The grid starts at 0, steps down by 1/64 and ends at -3.984375. */
  lemma GridSpacing(i: int)
    ensures GridX(i + 1) == GridX(i) - Step
    ensures GridX(0) == 0.0 && GridX(Samples - 1) == -3.984375
    ensures 0 <= i < Samples ==> -3.984375 <= GridX(i) <= 0.0
  {
  }

  /**
   Every stored word lies in [0, 256]: the exponential of a non-positive
   number is at most 1, so neither the clamp nor the mask ever fires, and the
   word is within half a unit of `exp(x) * 256`.
   */
  lemma ExpWordsBounded(exp: real -> real, i: int)
    requires IsExpLike(exp)
    requires 0 <= i < Samples
    ensures WordAt(ExpTable(exp), i) <= 256
    ensures WordAt(ExpTable(exp), i) == Round(exp(GridX(i)) * Scale)
    ensures exp(GridX(i)) * Scale - 0.5 <= WordAt(ExpTable(exp), i) as real <= exp(GridX(i)) * Scale + 0.5
  {
    var v := exp(GridX(i));
    assert 0.0 < v <= 1.0 by {
      assert GridX(i) <= 0.0;
    }
    RoundMonotone(v * Scale, 256.0);
  }

  /** exp(0) = 1 is stored as 256: bytes 0x00, 0x01. */
  lemma FirstEntry(exp: real -> real)
    requires IsExpLike(exp)
    ensures WordAt(ExpTable(exp), 0) == 0x100
    ensures ExpTable(exp)[0] == 0x00 && ExpTable(exp)[1] == 0x01
  {
    assert GridX(0) == 0.0;
    assert Round(256.0) == 256;
    WordAtBytes(ExpTable(exp), 0);
  }

  /** The table never increases along the grid. */
  lemma ExpWordsNonIncreasing(exp: real -> real, i: int, j: int)
    requires IsExpLike(exp)
    requires 0 <= i <= j < Samples
    ensures WordAt(ExpTable(exp), j) <= WordAt(ExpTable(exp), i)
  {
    assert GridX(j) <= GridX(i);
    Q88UnsignedMonotone(exp(GridX(j)), exp(GridX(i)));
  }

  /** Python's `v >> 2` on an unbounded integer: floor division by four, also for negative `v`. */
  function ShiftRight2(v: int): (r: int)
    ensures 4 * r <= v < 4 * r + 4
  {
    v / 4
  }

  /** `min(255, (-x_q8_8) >> 2)`: the entry a consumer reads for the Q8.8 input `xq`. */
  function ExpIndex(xq: int): (idx: int)
    ensures xq <= 0 ==> 0 <= idx < Samples
    ensures xq <= -4 * (Samples - 1) ==> idx == Samples - 1
    ensures -4 * (Samples - 1) < xq <= 0 ==> 4 * idx <= -xq < 4 * idx + 4
    ensures xq > 0 ==> idx < 0
  {
    var s := ShiftRight2(-xq);
    if s < 255 then s else 255
  }

  /** A smaller input never selects an earlier entry. */
  lemma ExpIndexMonotone(xq: int, yq: int)
    requires xq <= yq
    ensures ExpIndex(yq) <= ExpIndex(xq)
  {
  }

  /** The real value a Q8.8 word stands for. */
  function FromQ88(xq: int): real
  {
    xq as real / Scale
  }

  /**
   Below saturation the selected entry is the grid point at or just above the
   input: x lies in (GridX(idx) - 1/64, GridX(idx)].
   */
  lemma ExpIndexOnGrid(xq: int)
    requires -4 * (Samples - 1) < xq <= 0
    ensures GridX(ExpIndex(xq)) - Step < FromQ88(xq) <= GridX(ExpIndex(xq))
  {
    var idx := ExpIndex(xq);
    assert 4 * idx <= -xq < 4 * idx + 4;
    assert FromQ88(xq) == -((-xq) as real / 4.0) / 64.0;
  }

  /** The word the consumer reads for a non-positive input. */
  function Lookup(exp: real -> real, xq: int): (w: Word)
    requires xq <= 0
    ensures w == Q88Unsigned(exp(GridX(ExpIndex(xq))))
  {
    var bs := ExpTable(exp);
    WordAt(bs, ExpIndex(xq))
  }

  /**
   Below saturation the looked-up word brackets the quantised true value: it is
   at least `q88(exp(x))` and at most `q88(exp(x + 1/64))`. Past saturation it
   is the last entry, at least `q88(exp(x))`.
   */
  lemma LookupBrackets(exp: real -> real, xq: int)
    requires IsExpLike(exp)
    requires xq <= 0
    ensures Q88Unsigned(exp(FromQ88(xq))) <= Lookup(exp, xq)
    ensures -4 * (Samples - 1) < xq ==> Lookup(exp, xq) <= Q88Unsigned(exp(FromQ88(xq) + Step))
    ensures xq <= -4 * (Samples - 1) ==> Lookup(exp, xq) == WordAt(ExpTable(exp), Samples - 1)
  {
    var idx := ExpIndex(xq);
    var x := FromQ88(xq);
    var g := GridX(idx);
    if -4 * (Samples - 1) < xq {
      ExpIndexOnGrid(xq);
      Q88UnsignedMonotone(exp(g), exp(x + Step));
    } else {
      assert idx == Samples - 1;
      assert x <= g;
    }
    Q88UnsignedMonotone(exp(x), exp(g));
  }
}
