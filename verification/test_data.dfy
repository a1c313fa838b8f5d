/**
 `main()` of the test-data generator: ten examples of each digit, each drawn
 fresh and sprinkled with noise, shuffled together with their labels and
 written to TEST.IDX and TESTL.IDX.

 The generator's randomness becomes parameters. `noise(e, row, col)` is what
 the two draws for pixel (row, col) of example `e` decided: `None` when
 `random.random() < 0.02` failed, `Some(v)` when it held and
 `random.randint(0, 100)` returned `v`. `picks` are the positions the
 shuffle's `randbelow` returned. Every property below holds for all of them.
 */
module TestData {
  import opened Wrappers
  import opened Seqs
  import opened Bytes
  import opened Idx
  import opened Digits

  const NumDigits: nat := 10
  const NumPerDigit: nat := 10
  const NumExamples: nat := 100
  const ImageFileName: string := "TEST.IDX"
  const LabelFileName: string := "TESTL.IDX"

  /** A value `random.randint(0, 100)` can return. */
  type Level = v: int | 0 <= v <= 100

  /** The noise decisions for one image, by pixel. */
  type Draw = (int, int) -> Option<Level>

  /** The noise decisions for every example, by example index and pixel. */
  type Noise = (int, int, int) -> Option<Level>

  // ---------------------------------------------------------------- noise

  /** Pixel (r, c) after the noise pass: the drawn level if one was drawn, the original pixel otherwise. */
  function NoisyPixel(img: Image, draw: Draw, r: int, c: int): int
    requires IsGrid(img) && 0 <= r < Side && 0 <= c < Side
  {
    match draw(r, c)
    case Some(v) => v
    case None => img[r][c]
  }

  /** The image after the noise pass, as a whole. */
  function NoisyImage(img: Image, draw: Draw): (noisy: Image)
    requires IsGrid(img)
    ensures IsGrid(noisy)
    ensures forall r, c :: 0 <= r < Side && 0 <= c < Side ==> noisy[r][c] == NoisyPixel(img, draw, r, c)
  {
    seq(Side, r requires 0 <= r < Side => seq(Side, c requires 0 <= c < Side => NoisyPixel(img, draw, r, c)))
  }

  /**
   The noise pass as the generator runs it: `for row in range(28): for col in
   range(28):` overwrite the pixel when a level was drawn for it. It computes
   `NoisyImage`.
   */
  method AddNoise(img: Image, draw: Draw) returns (noisy: Image)
    requires IsGrid(img)
    ensures noisy == NoisyImage(img, draw)
  {
    noisy := img;
    for row := 0 to Side
      invariant IsGrid(noisy)
      invariant forall r, c :: 0 <= r < Side && 0 <= c < Side ==>
                  noisy[r][c] == if r < row then NoisyPixel(img, draw, r, c) else img[r][c]
    {
      for col := 0 to Side
        invariant IsGrid(noisy)
        invariant forall r, c :: 0 <= r < Side && 0 <= c < Side ==>
                    noisy[r][c] == if r < row || (r == row && c < col) then NoisyPixel(img, draw, r, c) else img[r][c]
      {
        match draw(row, col) {
          case Some(v) =>
            noisy := noisy[row := noisy[row][col := v]];
          case None =>
        }
      }
    }
    SameGrid(noisy, NoisyImage(img, draw));
  }

  /** Two grids with the same pixels are the same image. */
  lemma SameGrid(a: Image, b: Image)
    requires IsGrid(a) && IsGrid(b)
    requires forall r, c :: 0 <= r < Side && 0 <= c < Side ==> a[r][c] == b[r][c]
    ensures a == b
  {
    forall r | 0 <= r < Side
      ensures a[r] == b[r]
    {
    }
  }

  /** Without any draw the noise pass leaves the image as it was. */
  lemma QuietNoise(img: Image, draw: Draw)
    requires IsGrid(img)
    requires forall r, c :: draw(r, c).None?
    ensures NoisyImage(img, draw) == img
  {
    SameGrid(NoisyImage(img, draw), img);
  }

  /**
   A noisy 0/255 image keeps its pixel wherever nothing was drawn, holds the
   drawn level elsewhere, and so has every pixel in 0..100 or equal to 255:
   always a byte.
   */
  lemma NoisyBinary(img: Image, draw: Draw)
    requires IsGrid(img) && IsBinary(img)
    ensures var noisy := NoisyImage(img, draw);
            PixelsAreBytes(noisy)
            && forall r, c :: 0 <= r < Side && 0 <= c < Side ==>
                 (draw(r, c).None? ==> noisy[r][c] == img[r][c])
                 && (draw(r, c).Some? ==> noisy[r][c] == draw(r, c).value)
                 && (0 <= noisy[r][c] <= 100 || noisy[r][c] == 255)
  {
    var noisy := NoisyImage(img, draw);
    forall r, c | 0 <= r < Side && 0 <= c < Side
      ensures 0 <= noisy[r][c] <= 100 || noisy[r][c] == 255
    {
      assert noisy[r][c] == NoisyPixel(img, draw, r, c);
    }
  }

  // ---------------------------------------------------------------- generators

  /** `generators`: one 28 x 28 image of 0s and 255s per digit, indexed by the digit. */
  predicate ValidGenerators(generators: seq<Image>)
  {
    |generators| == NumDigits
    && forall d :: 0 <= d < |generators| ==> IsGrid(generators[d]) && IsBinary(generators[d])
  }

  /** `[create_digit_0, create_digit_1, ..., create_digit_9]`, each called once per example. */
  function Generators(): (generators: seq<Image>)
    ensures ValidGenerators(generators)
  {
    seq(NumDigits, d requires 0 <= d < NumDigits => Digit(d))
  }

  // ---------------------------------------------------------------- examples

  /** One entry of `list(zip(images, labels))`. */
  type Example = (Image, int)

  /**
   Example `e` of the generation loops: iteration `e % 10` of the inner loop
   of `for digit in range(10)` with digit `e / 10`, i.e. a noisy copy of that
   digit, labelled with it.
   */
  function MakeExample(generators: seq<Image>, noise: Noise, e: int): (ex: Example)
    requires ValidGenerators(generators) && 0 <= e < NumExamples
    ensures IsGrid(ex.0) && 0 <= ex.1 < NumDigits
  {
    var d := e / NumPerDigit;
    (NoisyImage(generators[d], ExampleDraw(noise, e)), d)
  }

  /** The noise decisions of example `e`. */
  function ExampleDraw(noise: Noise, e: int): Draw
  {
    (r, c) => noise(e, r, c)
  }

  /** The 100 examples in generation order. */
  function Examples(generators: seq<Image>, noise: Noise): (exs: seq<Example>)
    requires ValidGenerators(generators)
    ensures |exs| == NumExamples
  {
    seq(NumExamples, e requires 0 <= e < NumExamples => MakeExample(generators, noise, e))
  }

  /**
   The generation order: copy `j` of digit `d` is example `10 d + j`, carries
   label `d` and is `generators[d]` up to its noise; it is a grid of bytes.
   */
  lemma ExamplesOrder(generators: seq<Image>, noise: Noise, d: int, j: int)
    requires ValidGenerators(generators)
    requires 0 <= d < NumDigits && 0 <= j < NumPerDigit
    ensures Offset(d, NumPerDigit, j) < NumExamples
    ensures var ex := Examples(generators, noise)[Offset(d, NumPerDigit, j)];
            ex.1 == d && IsGrid(ex.0) && PixelsAreBytes(ex.0)
            && forall r, c :: 0 <= r < Side && 0 <= c < Side && noise(Offset(d, NumPerDigit, j), r, c).None? ==>
                 ex.0[r][c] == generators[d][r][c]
  {
    var e := Offset(d, NumPerDigit, j);
    OffsetBound(d, NumPerDigit, j, NumDigits);
    OffsetSplit(d, NumPerDigit, j);
    NoisyBinary(generators[d], ExampleDraw(noise, e));
  }

  /** Example `e` is labelled `e / 10`: label `d` on examples 10d .. 10d + 9 and nowhere else. */
  lemma ExampleLabels(generators: seq<Image>, noise: Noise, e: int, d: nat)
    requires ValidGenerators(generators) && 0 <= e < NumExamples
    ensures Examples(generators, noise)[e].1 == d <==> Offset(d, NumPerDigit, 0) <= e < Offset(d, NumPerDigit, NumPerDigit)
  {
    var digit := Examples(generators, noise)[e].1;
    assert digit == e / NumPerDigit;
    if digit == d {
      assert Offset(d, NumPerDigit, 0) <= e < Offset(d, NumPerDigit, NumPerDigit);
    }
  }

  // ---------------------------------------------------------------- shuffle

  /** Exchanges the entries at `i` and `j`, as one step of the shuffle does. */
  function Swap<T>(xs: seq<T>, i: int, j: int): (ys: seq<T>)
    requires 0 <= i < |xs| && 0 <= j < |xs|
    ensures |ys| == |xs| && multiset(ys) == multiset(xs)
    ensures ys[i] == xs[j] && ys[j] == xs[i]
    ensures forall k :: 0 <= k < |xs| && k != i && k != j ==> ys[k] == xs[k]
  {
    xs[i := xs[j]][j := xs[i]]
  }

  /** Draws `random.shuffle` can make on `n` elements: at step `i` a partner in 0..i. */
  predicate ValidPicks(picks: seq<int>, n: nat)
  {
    |picks| == n && forall i :: 0 <= i < n ==> 0 <= picks[i] <= i
  }

  /**
   `random.shuffle(x)`: `for i in reversed(range(1, len(x)))`, swap `x[i]`
   with `x[picks[i]]`. `ShuffleDown(xs, picks, i)` performs the steps
   `i - 1` down to 1; whatever the draws, the result is a rearrangement of
   the input.
   */
  function ShuffleDown<T>(xs: seq<T>, picks: seq<int>, i: nat): (ys: seq<T>)
    requires ValidPicks(picks, |xs|) && i <= |xs|
    ensures |ys| == |xs| && multiset(ys) == multiset(xs)
    decreases i
  {
    if i <= 1 then xs else ShuffleDown(Swap(xs, i - 1, picks[i - 1]), picks, i - 1)
  }

  function Shuffle<T>(xs: seq<T>, picks: seq<int>): (ys: seq<T>)
    requires ValidPicks(picks, |xs|)
    ensures |ys| == |xs| && multiset(ys) == multiset(xs)
  {
    ShuffleDown(xs, picks, |xs|)
  }

  /** Every entry of a shuffled list is an entry of the original. */
  lemma ShuffleFrom<T>(xs: seq<T>, picks: seq<int>, i: int)
    requires ValidPicks(picks, |xs|) && 0 <= i < |xs|
    ensures exists e :: 0 <= e < |xs| && Shuffle(xs, picks)[i] == xs[e]
  {
    var ys := Shuffle(xs, picks);
    assert ys[i] in multiset(ys);
  }

  /** The images of a list of examples, in order. */
  function Images(exs: seq<Example>): (images: seq<Image>)
    ensures |images| == |exs|
    ensures forall k :: 0 <= k < |exs| ==> images[k] == exs[k].0
  {
    seq(|exs|, k requires 0 <= k < |exs| => exs[k].0)
  }

  /** The labels of a list of examples, in order. */
  function Labels(exs: seq<Example>): (labels: seq<int>)
    ensures |labels| == |exs|
    ensures forall k :: 0 <= k < |exs| ==> labels[k] == exs[k].1
  {
    seq(|exs|, k requires 0 <= k < |exs| => exs[k].1)
  }

  /** Shuffling the pairs and then unzipping shuffles the labels alone by the same draws. */
  lemma {:induction false} ShuffleLabels(exs: seq<Example>, picks: seq<int>, i: nat)
    requires ValidPicks(picks, |exs|) && i <= |exs|
    ensures Labels(ShuffleDown(exs, picks, i)) == ShuffleDown(Labels(exs), picks, i)
    decreases i
  {
    if i > 1 {
      var swapped := Swap(exs, i - 1, picks[i - 1]);
      assert Labels(swapped) == Swap(Labels(exs), i - 1, picks[i - 1]);
      ShuffleLabels(swapped, picks, i - 1);
    }
  }

  /** The shuffled labels are the original labels rearranged: still ten of each digit. */
  lemma ShuffledLabelsPermuted(exs: seq<Example>, picks: seq<int>)
    requires ValidPicks(picks, |exs|)
    ensures multiset(Labels(Shuffle(exs, picks))) == multiset(Labels(exs))
  {
    ShuffleLabels(exs, picks, |exs|);
  }

  // ---------------------------------------------------------------- main

  /** The shuffled examples `main` passes to `write_idx_file`. */
  function Shuffled(generators: seq<Image>, noise: Noise, picks: seq<int>): (exs: seq<Example>)
    requires ValidGenerators(generators) && ValidPicks(picks, NumExamples)
    ensures |exs| == NumExamples
  {
    Shuffle(Examples(generators, noise), picks)
  }

  /** Shuffled entry `i` is some generated example `e`, image and label together. */
  lemma ShuffledPairing(generators: seq<Image>, noise: Noise, picks: seq<int>, i: int) returns (e: int)
    requires ValidGenerators(generators) && ValidPicks(picks, NumExamples) && 0 <= i < NumExamples
    ensures 0 <= e < NumExamples && Shuffled(generators, noise, picks)[i] == MakeExample(generators, noise, e)
  {
    var exs := Examples(generators, noise);
    ShuffleFrom(exs, picks, i);
    e :| 0 <= e < NumExamples && Shuffled(generators, noise, picks)[i] == exs[e];
  }

  /** Every shuffled image is a 28 x 28 grid of bytes and every shuffled label a digit. */
  lemma ShuffledWellFormed(generators: seq<Image>, noise: Noise, picks: seq<int>)
    requires ValidGenerators(generators) && ValidPicks(picks, NumExamples)
    ensures var exs := Shuffled(generators, noise, picks);
            AreGrids(Images(exs))
            && (forall k :: 0 <= k < NumExamples ==> PixelsAreBytes(Images(exs)[k]))
            && forall k :: 0 <= k < NumExamples ==> 0 <= Labels(exs)[k] < NumDigits
  {
    var exs := Shuffled(generators, noise, picks);
    forall k | 0 <= k < NumExamples
      ensures IsGrid(Images(exs)[k]) && PixelsAreBytes(Images(exs)[k]) && 0 <= Labels(exs)[k] < NumDigits
    {
      ShuffledEntry(generators, noise, picks, k);
    }
    AreGridsMeans(Images(exs));
  }

  lemma ShuffledEntry(generators: seq<Image>, noise: Noise, picks: seq<int>, k: int)
    requires ValidGenerators(generators) && ValidPicks(picks, NumExamples) && 0 <= k < NumExamples
    ensures var ex := Shuffled(generators, noise, picks)[k];
            IsGrid(ex.0) && PixelsAreBytes(ex.0) && 0 <= ex.1 < NumDigits
  {
    var e := ShuffledPairing(generators, noise, picks, k);
    ExampleDigit(e);
    NoisyBinary(generators[e / NumPerDigit], ExampleDraw(noise, e));
  }

  /** The digit of example `e` is `e / 10`, one of 0..9. */
  lemma ExampleDigit(e: int)
    requires 0 <= e < NumExamples
    ensures 0 <= e / NumPerDigit < NumDigits
  {
  }

  /** The two files `main` writes, by way of `write_idx_file`. */
  function TestFiles(generators: seq<Image>, noise: Noise, picks: seq<int>): Result<IdxFiles, IdxError>
    requires ValidGenerators(generators) && ValidPicks(picks, NumExamples)
  {
    var exs := Shuffled(generators, noise, picks);
    WriteIdx(Images(exs), Labels(exs))
  }

  /**
   Whatever the draws, `write_idx_file` succeeds: TEST.IDX is 16 + 100 * 784 =
   78416 bytes with header 2051, 100, 28, 28, and TESTL.IDX is 8 + 100 = 108
   bytes with header 2049, 100 followed by one digit per image.
   */
  lemma TestFilesWritten(generators: seq<Image>, noise: Noise, picks: seq<int>)
    requires ValidGenerators(generators) && ValidPicks(picks, NumExamples)
    ensures TestFiles(generators, noise, picks).Success?
    ensures var f := TestFiles(generators, noise, picks).value;
            |f.imageFile| == 78416 && |f.labelFile| == 108
            && DecodeBE32(f.imageFile, 0) == 2051 && DecodeBE32(f.imageFile, 4) == 100
            && DecodeBE32(f.imageFile, 8) == 28 && DecodeBE32(f.imageFile, 12) == 28
            && DecodeBE32(f.labelFile, 0) == 2049 && DecodeBE32(f.labelFile, 4) == 100
            && forall j :: 8 <= j < 108 ==> f.labelFile[j] < NumDigits
  {
    var exs := Shuffled(generators, noise, picks);
    var images, labels := Images(exs), Labels(exs);
    TestFilesSucceed(generators, noise, picks);
    ShuffledWellFormed(generators, noise, picks);
    AllPixelsLayout(images);
    ImageHeaderDecodes(images, labels);
    LabelHeaderDecodes(images, labels);
    LabelFileLayout(images, labels);
  }

  /** The images are grids of bytes and the labels digits, so `write_idx_file` raises nothing. */
  lemma TestFilesSucceed(generators: seq<Image>, noise: Noise, picks: seq<int>)
    requires ValidGenerators(generators) && ValidPicks(picks, NumExamples)
    ensures TestFiles(generators, noise, picks).Success?
  {
    var exs := Shuffled(generators, noise, picks);
    ShuffledWellFormed(generators, noise, picks);
    AllPixelsBytes(Images(exs));
    assert AllBytes(Labels(exs));
  }

  /**
   Image `i` of TEST.IDX and label `i` of TESTL.IDX still belong together: the
   stored pixels are those of one generated example and the stored label is
   its digit.
   */
  lemma TestFilesPairing(generators: seq<Image>, noise: Noise, picks: seq<int>, i: int) returns (e: int)
    requires ValidGenerators(generators) && ValidPicks(picks, NumExamples) && 0 <= i < NumExamples
    ensures TestFiles(generators, noise, picks).Success?
    ensures 0 <= e < NumExamples
    ensures var f := TestFiles(generators, noise, picks).value;
            |f.imageFile| == 78416 && |f.labelFile| == 108
            && f.labelFile[LabelHeaderSize + i] == e / NumPerDigit
            && forall r, c :: 0 <= r < Side && 0 <= c < Side ==>
                 f.imageFile[ImageHeaderSize + Offset(i, PixelsPerImage, Offset(r, Side, c))]
                 == MakeExample(generators, noise, e).0[r][c]
  {
    var exs := Shuffled(generators, noise, picks);
    var images, labels := Images(exs), Labels(exs);
    TestFilesWritten(generators, noise, picks);
    e := ShuffledPairing(generators, noise, picks, i);
    ShuffledWellFormed(generators, noise, picks);
    ImageFileLayout(images, labels);
    LabelFileLayout(images, labels);
  }

  /**
   With the ten digit generators: image `i` of TEST.IDX shows the digit stored
   as label `i` of TESTL.IDX, pixel for pixel, except where noise was drawn.
   */
  lemma TestImagesShowLabels(noise: Noise, picks: seq<int>, i: int) returns (e: int)
    requires ValidPicks(picks, NumExamples) && 0 <= i < NumExamples
    ensures TestFiles(Generators(), noise, picks).Success?
    ensures 0 <= e < NumExamples
    ensures var f := TestFiles(Generators(), noise, picks).value;
            |f.imageFile| == 78416 && |f.labelFile| == 108
            && f.labelFile[LabelHeaderSize + i] == e / NumPerDigit
            && forall r, c :: 0 <= r < Side && 0 <= c < Side && noise(e, r, c).None? ==>
                 f.imageFile[ImageHeaderSize + Offset(i, PixelsPerImage, Offset(r, Side, c))] == Digit(e / NumPerDigit)[r][c]
  {
    var generators := Generators();
    e := TestFilesPairing(generators, noise, picks, i);
    ExampleDigit(e);
    NoisyBinary(generators[e / NumPerDigit], ExampleDraw(noise, e));
    assert generators[e / NumPerDigit] == Digit(e / NumPerDigit);
  }

  /** The stored labels are the generated labels rearranged: ten of each digit. */
  lemma TestLabelsPermuted(generators: seq<Image>, noise: Noise, picks: seq<int>)
    requires ValidGenerators(generators) && ValidPicks(picks, NumExamples)
    ensures TestFiles(generators, noise, picks).Success?
    ensures var stored: seq<int> := TestFiles(generators, noise, picks).value.labelFile[LabelHeaderSize..];
            multiset(stored) == multiset(Labels(Examples(generators, noise)))
  {
    var exs := Shuffled(generators, noise, picks);
    TestFilesWritten(generators, noise, picks);
    LabelFileLayout(Images(exs), Labels(exs));
    var stored: seq<int> := TestFiles(generators, noise, picks).value.labelFile[LabelHeaderSize..];
    assert stored == Labels(exs);
    ShuffledLabelsPermuted(Examples(generators, noise), picks);
  }

  /**
   `main()` against a file system: TEST.IDX and TESTL.IDX are (over)written
   with the generated files, nothing else changes.
   */
  function RunTestData(fs: map<string, seq<Byte>>, generators: seq<Image>, noise: Noise, picks: seq<int>): (fs': map<string, seq<Byte>>)
    requires ValidGenerators(generators) && ValidPicks(picks, NumExamples)
    ensures TestFiles(generators, noise, picks).Success?
    ensures ImageFileName in fs' && fs'[ImageFileName] == TestFiles(generators, noise, picks).value.imageFile
    ensures LabelFileName in fs' && fs'[LabelFileName] == TestFiles(generators, noise, picks).value.labelFile
    ensures forall other :: other in fs && other != ImageFileName && other != LabelFileName ==> other in fs' && fs'[other] == fs[other]
  {
    TestFilesSucceed(generators, noise, picks);
    WriteFiles(fs, TestFiles(generators, noise, picks).value)
  }

  /** Creates or overwrites the image file and then the label file with their contents. */
  function WriteFiles(fs: map<string, seq<Byte>>, files: IdxFiles): (fs': map<string, seq<Byte>>)
    ensures ImageFileName in fs' && fs'[ImageFileName] == files.imageFile
    ensures LabelFileName in fs' && fs'[LabelFileName] == files.labelFile
    ensures fs'.Keys == fs.Keys + {ImageFileName, LabelFileName}
    ensures forall other :: other in fs && other != ImageFileName && other != LabelFileName ==> fs'[other] == fs[other]
  {
    assert ImageFileName[4] != LabelFileName[4];
    fs[ImageFileName := files.imageFile][LabelFileName := files.labelFile]
  }
}
