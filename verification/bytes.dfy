/**
 The two integer packings the generators use with Python's `struct.pack`:
 `'<H'` (unsigned 16-bit, little-endian) for the lookup tables and `'>I'`
 (unsigned 32-bit, big-endian) for the IDX headers. Each encoder has its
 decoder here, and the round trips are proved in both directions.
 */
module Bytes {
  import opened Seqs

  type Byte = b: int | 0 <= b < 0x100
  type Word = w: int | 0 <= w < 0x1_0000
  type U32 = n: int | 0 <= n < 0x1_0000_0000

  /** `struct.pack('<H', w)`: the low byte, then the high byte. */
  function LE16(w: Word): (bs: seq<Byte>)
    ensures |bs| == 2
    ensures bs[0] as int + 0x100 * bs[1] as int == w
  {
    [w % 0x100, w / 0x100]
  }

  /** A consumer's reading of two little-endian bytes as one word. */
  function DecodeLE16(lo: Byte, hi: Byte): Word
  {
    lo as int + 0x100 * hi as int
  }

  lemma LE16RoundTrip(w: Word)
    ensures DecodeLE16(LE16(w)[0], LE16(w)[1]) == w
  {
  }

  /** Every pair of bytes is the encoding of exactly one word. */
  lemma DecodeLE16RoundTrip(lo: Byte, hi: Byte)
    ensures LE16(DecodeLE16(lo, hi)) == [lo, hi]
  {
    var w := DecodeLE16(lo, hi);
    assert w % 0x100 == lo && w / 0x100 == hi;
  }

  /** A sequence of words written one after the other with `'<H'`. */
  function PackLE16(ws: seq<Word>): (bs: seq<Byte>)
    ensures |bs| == 2 * |ws|
    ensures forall k :: 0 <= k < |ws| ==> bs[2 * k] == LE16(ws[k])[0] && bs[2 * k + 1] == LE16(ws[k])[1]
  {
    PackLayout(ws);
    Concat(WordBlocks(ws))
  }

  /** The two-byte block written for each word. */
  function WordBlocks(ws: seq<Word>): (blocks: seq<seq<Byte>>)
    ensures |blocks| == |ws|
    ensures forall k :: 0 <= k < |ws| ==> blocks[k] == LE16(ws[k])
  {
    seq(|ws|, k requires 0 <= k < |ws| => LE16(ws[k]))
  }

  /** Word `k` lands at byte offsets `2k` and `2k + 1`. */
  lemma PackLayout(ws: seq<Word>)
    ensures |Concat(WordBlocks(ws))| == 2 * |ws|
    ensures forall k :: 0 <= k < |ws| ==>
              Concat(WordBlocks(ws))[2 * k] == LE16(ws[k])[0] && Concat(WordBlocks(ws))[2 * k + 1] == LE16(ws[k])[1]
  {
    var blocks := WordBlocks(ws);
    ConcatLength(blocks, 2);
    forall k | 0 <= k < |ws|
      ensures Concat(blocks)[2 * k] == LE16(ws[k])[0] && Concat(blocks)[2 * k + 1] == LE16(ws[k])[1]
    {
      ConcatIndex(blocks, 2, k, 0);
      ConcatIndex(blocks, 2, k, 1);
    }
  }

  /** The word stored at word offset `p`, i.e. at byte offsets `2p` and `2p + 1`. */
  function WordAt(bs: seq<Byte>, p: nat): Word
    requires 2 * p + 1 < |bs|
  {
    DecodeLE16(bs[2 * p], bs[2 * p + 1])
  }

  /** The two bytes behind a stored word are its low and high byte. */
  lemma WordAtBytes(bs: seq<Byte>, p: nat)
    requires 2 * p + 1 < |bs|
    ensures bs[2 * p] == WordAt(bs, p) % 0x100 && bs[2 * p + 1] == WordAt(bs, p) / 0x100
  {
  }

  /** A consumer's view of a table: every consecutive byte pair as a word. */
  function UnpackLE16(bs: seq<Byte>): (ws: seq<Word>)
    requires |bs| % 2 == 0
    ensures |ws| == |bs| / 2
  {
    seq(|bs| / 2, p requires 0 <= p < |bs| / 2 => WordAt(bs, p))
  }

  /** Word `p` of a packed sequence reads back as itself. */
  lemma PackedWordAt(ws: seq<Word>, p: nat)
    requires p < |ws|
    ensures 2 * p + 1 < |PackLE16(ws)| && WordAt(PackLE16(ws), p) == ws[p]
  {
    LE16RoundTrip(ws[p]);
  }

  lemma PackUnpack(ws: seq<Word>)
    ensures UnpackLE16(PackLE16(ws)) == ws
  {
    var bs := PackLE16(ws);
    forall p | 0 <= p < |ws|
      ensures UnpackLE16(bs)[p] == ws[p]
    {
      LE16RoundTrip(ws[p]);
    }
  }

  lemma UnpackPack(bs: seq<Byte>)
    requires |bs| % 2 == 0
    ensures PackLE16(UnpackLE16(bs)) == bs
  {
    var ws := UnpackLE16(bs);
    var bs' := PackLE16(ws);
    forall q | 0 <= q < |bs|
      ensures bs'[q] == bs[q]
    {
      var p := q / 2;
      assert q == 2 * p || q == 2 * p + 1;
      assert ws[p] == DecodeLE16(bs[2 * p], bs[2 * p + 1]);
      DecodeLE16RoundTrip(bs[2 * p], bs[2 * p + 1]);
      assert bs'[2 * p] == bs[2 * p] && bs'[2 * p + 1] == bs[2 * p + 1];
    }
  }

  /** `struct.pack('>I', n)`: the most significant byte first. */
  function BE32(n: U32): (bs: seq<Byte>)
    ensures |bs| == 4
  {
    [n / 0x100_0000, (n / 0x1_0000) % 0x100, (n / 0x100) % 0x100, n % 0x100]
  }

  /** Reads the big-endian 32-bit value stored at byte offset `off`. */
  function DecodeBE32(bs: seq<Byte>, off: nat): U32
    requires off + 4 <= |bs|
  {
    ((bs[off] as int * 0x100 + bs[off + 1]) * 0x100 + bs[off + 2]) * 0x100 + bs[off + 3]
  }

  lemma BE32RoundTrip(n: U32)
    ensures DecodeBE32(BE32(n), 0) == n
  {
    var bs := BE32(n);
    assert bs[0] as int * 0x100 + bs[1] == n / 0x1_0000;
    assert (n / 0x1_0000) * 0x100 + bs[2] == n / 0x100;
    assert (n / 0x100) * 0x100 + bs[3] == n;
  }

  /** Every four bytes are the encoding of exactly one 32-bit value. */
  lemma DecodeBE32RoundTrip(bs: seq<Byte>)
    requires |bs| == 4
    ensures BE32(DecodeBE32(bs, 0)) == bs
  {
    var n := DecodeBE32(bs, 0);
    var a: int := bs[0] as int * 0x100 + bs[1];
    var b: int := a * 0x100 + bs[2];
    assert n == b * 0x100 + bs[3];
    assert n % 0x100 == bs[3] && n / 0x100 == b;
    assert b % 0x100 == bs[2] && b / 0x100 == a;
    assert a % 0x100 == bs[1] && a / 0x100 == bs[0];
    assert n / 0x1_0000 == a;
    assert n / 0x100_0000 == bs[0];
  }
}
