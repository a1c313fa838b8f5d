/**
 What the three table generators have in common: a fixed grid of samples, a
 row of real values per sample, each value quantised to one word and written
 with `struct.pack('<H', ...)`, sample after sample, with no header or padding;
 and the guard that skips generation when the artifact already exists.
 */
module LutGen {
  import opened Seqs
  import opened Bytes

  /** One sample's row of values, each quantised to a word, in order. */
  function QuantiseRow(values: seq<real>, quant: real -> Word): (ws: seq<Word>)
    ensures |ws| == |values|
    ensures forall k :: 0 <= k < |values| ==> ws[k] == quant(values[k])
  {
    seq(|values|, k requires 0 <= k < |values| => quant(values[k]))
  }

  /**
   The words the generator's nested loops emit: for each sample `i` in
   `0 .. n - 1`, every value of `row(i)` in order, quantised by `quant`.
   */
  function SampleWords(n: nat, row: int -> seq<real>, quant: real -> Word): seq<Word>
  {
    Concat(seq(n, i => QuantiseRow(row(i), quant)))
  }

  /** With `width` values per sample, the words come sample-major: value `k` of sample `i` is word `i * width + k`. */
  lemma SampleWordsLayout(n: nat, width: nat, row: int -> seq<real>, quant: real -> Word)
    requires forall i :: 0 <= i < n ==> |row(i)| == width
    ensures |SampleWords(n, row, quant)| == n * width
    ensures forall i, k :: 0 <= i < n && 0 <= k < width ==>
              Offset(i, width, k) < n * width && SampleWords(n, row, quant)[Offset(i, width, k)] == quant(row(i)[k])
  {
    var blocks := seq(n, i => QuantiseRow(row(i), quant));
    ConcatUniform(blocks, width);
  }

  /**
   The bytes of a generated table. When every sample has `width` values, the
   table is `2 * n * width` bytes long and value `k` of sample `i` is the word
   at word offset `i * width + k`, i.e. at byte offsets `2 * (i * width + k)`
   (low byte) and `2 * (i * width + k) + 1` (high byte).
   */
  function TableBytes(n: nat, width: nat, row: int -> seq<real>, quant: real -> Word): (bs: seq<Byte>)
    requires forall i :: 0 <= i < n ==> |row(i)| == width
    ensures |bs| == 2 * n * width
    ensures forall i, k :: 0 <= i < n && 0 <= k < width ==>
              2 * Offset(i, width, k) + 1 < |bs| && WordAt(bs, Offset(i, width, k)) == quant(row(i)[k])
  {
    TableLayout(n, width, row, quant);
    PackLE16(SampleWords(n, row, quant))
  }

  lemma TableLayout(n: nat, width: nat, row: int -> seq<real>, quant: real -> Word)
    requires forall i :: 0 <= i < n ==> |row(i)| == width
    ensures |PackLE16(SampleWords(n, row, quant))| == 2 * n * width
    ensures forall i, k :: 0 <= i < n && 0 <= k < width ==>
              2 * Offset(i, width, k) + 1 < |PackLE16(SampleWords(n, row, quant))|
              && WordAt(PackLE16(SampleWords(n, row, quant)), Offset(i, width, k)) == quant(row(i)[k])
  {
    var ws := SampleWords(n, row, quant);
    SampleWordsLayout(n, width, row, quant);
    assert 2 * (n * width) == 2 * n * width;
    forall i, k | 0 <= i < n && 0 <= k < width
      ensures 2 * Offset(i, width, k) + 1 < |PackLE16(ws)| && WordAt(PackLE16(ws), Offset(i, width, k)) == quant(row(i)[k])
    {
      PackedWordAt(ws, Offset(i, width, k));
    }
  }

  /** The file system as the generators see it: file name to contents. */
  type FileSystem = map<string, seq<Byte>>

  /**
   The existence guard followed by writing the table: an existing artifact,
   whatever it holds, is left alone and nothing else is created;
   otherwise exactly that one file is created with the table's bytes.
   */
  function Generate(fs: FileSystem, name: string, table: seq<Byte>): (fs': FileSystem)
    ensures name in fs ==> fs' == fs
    ensures name !in fs ==> fs'.Keys == fs.Keys + {name} && fs'[name] == table
    ensures forall other :: other in fs && other != name ==> other in fs' && fs'[other] == fs[other]
  {
    if name in fs then fs else fs[name := table]
  }

  /** Running a generator a second time changes nothing, whatever it would now compute. */
  lemma GenerateIdempotent(fs: FileSystem, name: string, table: seq<Byte>, again: seq<Byte>)
    ensures Generate(Generate(fs, name, table), name, again) == Generate(fs, name, table)
    ensures name in Generate(fs, name, table)
  {
  }
}
