/**
 Flattening a sequence of sequences. Every byte stream in this project is built
 the way the generators build it: an outer loop that appends, in order, a block
 produced by an inner loop. `Concat` is that loop, and `ConcatUniform` is the
 addressing law a reader of the stream relies on when every block has the same
 width.
 */
module Seqs {

  /** The blocks of `ss` laid end to end, in order. */
  function Concat<T>(ss: seq<seq<T>>): seq<T>
  {
    if |ss| == 0 then [] else ss[0] + Concat(ss[1..])
  }

  /** Blocks of width `w` laid end to end fill exactly `|ss| * w` positions. */
  lemma {:induction false} ConcatLength<T>(ss: seq<seq<T>>, w: nat)
    requires forall i :: 0 <= i < |ss| ==> |ss[i]| == w
    ensures |Concat(ss)| == |ss| * w
  {
    if |ss| > 0 {
      ConcatLength(ss[1..], w);
      assert |ss| * w == w + (|ss| - 1) * w;
    }
  }

  /** With blocks of width `w`, element `j` of block `i` sits at offset `i * w + j`. */
  lemma {:induction false} ConcatIndex<T>(ss: seq<seq<T>>, w: nat, i: nat, j: nat)
    requires forall i :: 0 <= i < |ss| ==> |ss[i]| == w
    requires i < |ss| && j < w
    ensures Offset(i, w, j) < |Concat(ss)| && Concat(ss)[Offset(i, w, j)] == ss[i][j]
  {
    ConcatLength(ss, w);
    OffsetBound(i, w, j, |ss|);
    if i > 0 {
      var rest := ss[1..];
      ConcatIndex(rest, w, i - 1, j);
      assert rest[i - 1] == ss[i];
      OffsetStep(i, w, j);
    }
  }

  /** An offset inside `n` blocks of width `w` is below `n * w`. */
  lemma OffsetBound(i: nat, w: nat, j: nat, n: nat)
    requires i < n && j < w
    ensures Offset(i, w, j) < n * w
  {
    assert i * w + w == (i + 1) * w;
    assert (i + 1) * w <= n * w by {
      assert n * w == (i + 1) * w + (n - i - 1) * w;
    }
  }

  /** Stepping over one block moves an offset by `w`. */
  lemma OffsetStep(i: nat, w: nat, j: nat)
    requires i > 0
    ensures Offset(i, w, j) == w + Offset(i - 1, w, j)
  {
    assert i * w == w + (i - 1) * w;
  }

  /** An offset splits back into its block and its position in the block. */
  lemma OffsetSplit(i: nat, w: nat, j: nat)
    requires j < w
    ensures Offset(i, w, j) / w == i && Offset(i, w, j) % w == j
  {
    var p := Offset(i, w, j);
    var q, r := p / w, p % w;
    assert q * w + r == i * w + j;
    if q != i {
      if q > i { MulGap(i, q, w); } else { MulGap(q, i, w); }
    }
  }

  /** Every position below `n * w` lies in block `p / w` (below `n`) at position `p % w`. */
  lemma PositionSplit(n: nat, w: nat, p: int)
    requires 0 <= p < n * w
    ensures w > 0 && p / w < n && Offset(p / w, w, p % w) == p
  {
    if w > 0 && p / w >= n {
      MulMono(n, p / w, w);
    }
  }

  /** A larger block index starts at least one block later. */
  lemma MulGap(a: nat, b: nat, w: nat)
    requires a < b
    ensures a * w + w <= b * w
  {
    var d := b - a;
    assert b * w == a * w + d * w;
    assert d * w >= w by {
      assert d * w == w + (d - 1) * w;
    }
  }

  lemma MulMono(a: nat, b: nat, w: nat)
    requires a <= b
    ensures a * w <= b * w
  {
    if a < b {
      MulGap(a, b, w);
    }
  }

  /** Both laws at once, for every position. */
  lemma ConcatUniform<T>(ss: seq<seq<T>>, w: nat)
    requires forall i :: 0 <= i < |ss| ==> |ss[i]| == w
    ensures |Concat(ss)| == |ss| * w
    ensures forall i, j :: 0 <= i < |ss| && 0 <= j < w ==> Offset(i, w, j) < |Concat(ss)| && Concat(ss)[Offset(i, w, j)] == ss[i][j]
  {
    ConcatLength(ss, w);
    forall i, j | 0 <= i < |ss| && 0 <= j < w
      ensures Offset(i, w, j) < |Concat(ss)| && Concat(ss)[Offset(i, w, j)] == ss[i][j]
    {
      ConcatIndex(ss, w, i, j);
    }
  }

  /** An element occurs in the flattening exactly when it occurs in one of the blocks. */
  lemma {:induction false} ConcatMember<T>(ss: seq<seq<T>>, x: T)
    ensures x in Concat(ss) <==> exists i :: 0 <= i < |ss| && x in ss[i]
  {
    if |ss| > 0 {
      ConcatMember(ss[1..], x);
      if x in Concat(ss[1..]) {
        var i :| 0 <= i < |ss[1..]| && x in ss[1..][i];
        assert x in ss[i + 1];
      }
      if exists i :: 0 <= i < |ss| && x in ss[i] {
        var i :| 0 <= i < |ss| && x in ss[i];
        if i > 0 {
          assert x in ss[1..][i - 1];
        }
      }
    }
  }

  /** Position of element `j` of block `i` when blocks have width `w`. */
  function Offset(i: nat, w: nat, j: nat): nat
  {
    i * w + j
  }
}
