/**
 The MNIST IDX serialiser of the test-data generator: `flatten_image`, which
 lays a 28 x 28 image out row by row, and `write_idx_file`, modelled as a pure
 function from the images and labels to the contents of the image file and the
 label file, or the error Python would raise.

 Image file: the big-endian 32-bit values 2051, n, 28, 28, then the flattened
 images in order, one byte per pixel. Label file: 2049, n, then one byte per
 label. `n` is the number of images in both headers.
 */
module Idx {
  import opened Seqs
  import opened Bytes
  import opened Wrappers

  const Side: nat := 28
  const PixelsPerImage: nat := 784
  const ImageMagic: U32 := 2051
  const LabelMagic: U32 := 2049
  const ImageHeaderSize: nat := 16
  const LabelHeaderSize: nat := 8

  /** An image as the generator holds it: a list of rows of Python integers. */
  type Image = seq<seq<int>>

  /** 28 rows of 28 pixels each. */
  predicate IsGrid(img: Image)
  {
    |img| == Side && forall r :: 0 <= r < |img| ==> |img[r]| == Side
  }

  /** Every image of a list is a grid, stated row by row so that it unfolds under quantifiers. */
  predicate AreGrids(images: seq<Image>)
  {
    forall k :: 0 <= k < |images| ==> |images[k]| == Side && forall r :: 0 <= r < Side ==> |images[k][r]| == Side
  }

  lemma AreGridsMeans(images: seq<Image>)
    ensures AreGrids(images) <==> forall k :: 0 <= k < |images| ==> IsGrid(images[k])
  {
  }

  /** `flatten_image`: the rows laid end to end. */
  function Flatten(img: Image): (flat: seq<int>)
    ensures IsGrid(img) ==> |flat| == PixelsPerImage
    ensures IsGrid(img) ==> forall r, c :: 0 <= r < Side && 0 <= c < Side ==>
              Offset(r, Side, c) < |flat| && flat[Offset(r, Side, c)] == img[r][c]
  {
    if IsGrid(img) then ConcatUniform(img, Side); Concat(img) else Concat(img)
  }

  /** The inverse of `Flatten` on grids: cut 784 pixels into 28 rows. */
  function Unflatten(flat: seq<int>): (img: Image)
    requires |flat| == PixelsPerImage
    ensures IsGrid(img)
  {
    seq(Side, r requires 0 <= r < Side => flat[Offset(r, Side, 0)..Offset(r, Side, 0) + Side])
  }

  lemma FlattenUnflatten(img: Image)
    requires IsGrid(img)
    ensures Unflatten(Flatten(img)) == img
  {
    var flat := Flatten(img);
    var back := Unflatten(flat);
    forall r | 0 <= r < Side
      ensures back[r] == img[r]
    {
      forall c | 0 <= c < Side
        ensures back[r][c] == img[r][c]
      {
        assert Offset(r, Side, 0) + c == Offset(r, Side, c);
      }
    }
  }

  lemma UnflattenFlatten(flat: seq<int>)
    requires |flat| == PixelsPerImage
    ensures Flatten(Unflatten(flat)) == flat
  {
    var img := Unflatten(flat);
    var back := Flatten(img);
    forall p | 0 <= p < PixelsPerImage
      ensures back[p] == flat[p]
    {
      PositionSplit(Side, Side, p);
      var r, c := p / Side, p % Side;
      assert img[r][c] == flat[Offset(r, Side, 0) + c];
    }
  }

  /** Every value is a valid byte. */
  predicate AllBytes(xs: seq<int>)
  {
    forall k :: 0 <= k < |xs| ==> 0 <= xs[k] < 0x100
  }

  /** Python's `bytes(xs)`: the same values as bytes, or `ValueError` when one is outside 0..255. */
  function ToBytes(xs: seq<int>): (r: Option<seq<Byte>>)
    ensures r.Some? <==> AllBytes(xs)
    ensures r.Some? ==> r.value == xs
  {
    if AllBytes(xs) then Some(seq(|xs|, k requires 0 <= k < |xs| => xs[k] as Byte)) else None
  }

  /** The pixel block: every image flattened, in input order. */
  function AllPixels(images: seq<Image>): seq<int>
  {
    Concat(seq(|images|, k requires 0 <= k < |images| => Flatten(images[k])))
  }

  /** Pixel (r, c) of image k of a list of grids sits at 784k + 28r + c of the pixel block. */
  lemma AllPixelsLayout(images: seq<Image>)
    requires AreGrids(images)
    ensures |AllPixels(images)| == PixelsPerImage * |images|
    ensures forall k, r, c :: 0 <= k < |images| && 0 <= r < Side && 0 <= c < Side ==>
              Offset(k, PixelsPerImage, Offset(r, Side, c)) < |AllPixels(images)|
              && AllPixels(images)[Offset(k, PixelsPerImage, Offset(r, Side, c))] == images[k][r][c]
  {
    var blocks := seq(|images|, k requires 0 <= k < |images| => Flatten(images[k]));
    AreGridsMeans(images);
    ConcatUniform(blocks, PixelsPerImage);
    forall k, r, c | 0 <= k < |images| && 0 <= r < Side && 0 <= c < Side
      ensures Offset(k, PixelsPerImage, Offset(r, Side, c)) < |AllPixels(images)|
              && AllPixels(images)[Offset(k, PixelsPerImage, Offset(r, Side, c))] == images[k][r][c]
    {
      assert blocks[k] == Flatten(images[k]);
      assert Offset(r, Side, c) < PixelsPerImage;
    }
  }

  /** Pixels stored as bytes: every value of every row lies in 0..255. */
  predicate PixelsAreBytes(img: Image)
  {
    forall r, c :: 0 <= r < |img| && 0 <= c < |img[r]| ==> 0 <= img[r][c] < 0x100
  }

  /** The pixel block is a valid `bytes` argument when every image's pixels are bytes. */
  lemma AllPixelsBytes(images: seq<Image>)
    requires forall k :: 0 <= k < |images| ==> PixelsAreBytes(images[k])
    ensures AllBytes(AllPixels(images))
  {
    var blocks := seq(|images|, k requires 0 <= k < |images| => Flatten(images[k]));
    var all := AllPixels(images);
    forall p | 0 <= p < |all|
      ensures 0 <= all[p] < 0x100
    {
      var x := all[p];
      ConcatMember(blocks, x);
      var k :| 0 <= k < |blocks| && x in blocks[k];
      ConcatMember(images[k], x);
      var r :| 0 <= r < |images[k]| && x in images[k][r];
      var c :| 0 <= c < |images[k][r]| && images[k][r][c] == x;
    }
  }

  /** What `write_idx_file` raises, in the order it would raise it. */
  datatype IdxError =
    | CountTooLarge   // `struct.pack('>I', num_images)` with num_images >= 2^32
    | PixelNotByte    // `bytes(flat)` on a pixel outside 0..255
    | LabelNotByte    // `bytes(labels)` on a label outside 0..255

  /** The contents of the two files. */
  datatype IdxFiles = IdxFiles(imageFile: seq<Byte>, labelFile: seq<Byte>)

  function ImageHeader(n: U32): (bs: seq<Byte>)
    ensures |bs| == ImageHeaderSize
  {
    BE32(ImageMagic) + BE32(n) + BE32(Side) + BE32(Side)
  }

  function LabelHeader(n: U32): (bs: seq<Byte>)
    ensures |bs| == LabelHeaderSize
  {
    BE32(LabelMagic) + BE32(n)
  }

  /**
   `write_idx_file(images, labels, ...)`. The image file is written first, so
   a count that does not fit in 32 bits is reported before a bad pixel, and a
   bad pixel before a bad label. The label header carries the number of
   images, whatever the number of labels.
   */
  function WriteIdx(images: seq<Image>, labels: seq<int>): (r: Result<IdxFiles, IdxError>)
    ensures r.Success? <==> |images| < 0x1_0000_0000 && AllBytes(AllPixels(images)) && AllBytes(labels)
    ensures r.Failure? ==> r.error == (if |images| >= 0x1_0000_0000 then CountTooLarge
                                      else if !AllBytes(AllPixels(images)) then PixelNotByte
                                      else LabelNotByte)
    ensures r.Success? ==> |r.value.imageFile| == ImageHeaderSize + |AllPixels(images)|
    ensures r.Success? ==> |r.value.labelFile| == LabelHeaderSize + |labels|
  {
    if |images| >= 0x1_0000_0000 then Failure(CountTooLarge)
    else
      var n: U32 := |images|;
      match ToBytes(AllPixels(images))
      case None => Failure(PixelNotByte)
      case Some(pixels) =>
        match ToBytes(labels)
        case None => Failure(LabelNotByte)
        case Some(labelBytes) => Success(IdxFiles(ImageHeader(n) + pixels, LabelHeader(n) + labelBytes))
  }

  /** Reading the image header back gives 2051, the image count, 28 and 28. */
  lemma ImageHeaderDecodes(images: seq<Image>, labels: seq<int>)
    requires WriteIdx(images, labels).Success?
    ensures var f := WriteIdx(images, labels).value.imageFile;
            DecodeBE32(f, 0) == 2051 && DecodeBE32(f, 4) == |images|
            && DecodeBE32(f, 8) == 28 && DecodeBE32(f, 12) == 28
  {
    var f := WriteIdx(images, labels).value.imageFile;
    var n: U32 := |images|;
    assert f[..16] == ImageHeader(n);
    BE32Field(f, 0, ImageMagic);
    BE32Field(f, 4, n);
    BE32Field(f, 8, Side);
    BE32Field(f, 12, Side);
  }

  /** Reading the label header back gives 2049 and the image count. */
  lemma LabelHeaderDecodes(images: seq<Image>, labels: seq<int>)
    requires WriteIdx(images, labels).Success?
    ensures var f := WriteIdx(images, labels).value.labelFile;
            DecodeBE32(f, 0) == 2049 && DecodeBE32(f, 4) == |images|
  {
    var f := WriteIdx(images, labels).value.labelFile;
    var n: U32 := |images|;
    BE32Field(f, 0, LabelMagic);
    BE32Field(f, 4, n);
  }

  /** A field written with `'>I'` at offset `off` reads back as its value. */
  lemma BE32Field(bs: seq<Byte>, off: nat, n: U32)
    requires off + 4 <= |bs| && bs[off..off + 4] == BE32(n)
    ensures DecodeBE32(bs, off) == n
  {
    BE32RoundTrip(n);
    var b := BE32(n);
    assert bs[off] == b[0] && bs[off + 1] == b[1] && bs[off + 2] == b[2] && bs[off + 3] == b[3];
  }

  /**
   With 28 x 28 images the image file is 16 + 784n bytes and pixel (r, c) of
   image k is byte 16 + 784k + 28r + c.
   */
  lemma ImageFileLayout(images: seq<Image>, labels: seq<int>)
    requires WriteIdx(images, labels).Success?
    requires AreGrids(images)
    ensures |WriteIdx(images, labels).value.imageFile| == ImageHeaderSize + PixelsPerImage * |images|
    ensures forall k, r, c :: 0 <= k < |images| && 0 <= r < Side && 0 <= c < Side ==>
              ImageHeaderSize + Offset(k, PixelsPerImage, Offset(r, Side, c)) < |WriteIdx(images, labels).value.imageFile|
              && WriteIdx(images, labels).value.imageFile[ImageHeaderSize + Offset(k, PixelsPerImage, Offset(r, Side, c))]
                 == images[k][r][c]
  {
    var f := WriteIdx(images, labels).value.imageFile;
    var pixels := AllPixels(images);
    AllPixelsLayout(images);
    assert f == ImageHeader(|images|) + pixels;
    forall k, r, c | 0 <= k < |images| && 0 <= r < Side && 0 <= c < Side
      ensures ImageHeaderSize + Offset(k, PixelsPerImage, Offset(r, Side, c)) < |WriteIdx(images, labels).value.imageFile|
              && WriteIdx(images, labels).value.imageFile[ImageHeaderSize + Offset(k, PixelsPerImage, Offset(r, Side, c))]
                 == images[k][r][c]
    {
      var p := Offset(k, PixelsPerImage, Offset(r, Side, c));
      assert f[ImageHeaderSize + p] == pixels[p];
    }
    assert |WriteIdx(images, labels).value.imageFile| == ImageHeaderSize + PixelsPerImage * |images|;
    assert forall k, r, c :: 0 <= k < |images| && 0 <= r < Side && 0 <= c < Side ==>
              ImageHeaderSize + Offset(k, PixelsPerImage, Offset(r, Side, c)) < |WriteIdx(images, labels).value.imageFile|;
  }

  /** The label file is 8 + |labels| bytes and label j is byte 8 + j. */
  lemma LabelFileLayout(images: seq<Image>, labels: seq<int>)
    requires WriteIdx(images, labels).Success?
    ensures var f := WriteIdx(images, labels).value.labelFile;
            |f| == LabelHeaderSize + |labels|
            && forall j :: 0 <= j < |labels| ==> f[LabelHeaderSize + j] == labels[j]
  {
  }
}
