# Neural-spline build artefacts in Dafny

This project models the four Python build scripts of a fixed-point neural
spline engine. Each one generates a binary artefact the engine loads at run
time.

- `gen_basis_lut.py` writes BASIS256.LUT. It samples the four cubic uniform
  B-spline basis polynomials B0..B3 at t = i/255 for i = 0..255. Each value
  goes through the signed Q8.8 quantiser `q88`: round(x * 256), clamped to
  [-32768, 32767], masked with `& 0xFFFF`. The words are written with
  `struct.pack('<H')`, four per sample, 2048 bytes in all.
- `gen_deriv_lut.py` writes DERIV256.LUT. It stores the derivatives dB0..dB3
  on the same grid, with the same quantiser and the same layout.
- `gen_exp_lut.py` writes EXP256.LUT. It stores exp(-i/64) for i = 0..255
  through the unsigned quantiser (clamp to [0, 65535]), one word per sample.
  The script documents the rule a softmax consumer uses to read it:
  `index = min(255, (-x_q8_8) >> 2)`.
- `gen_test_data.py` writes TEST.IDX and TESTL.IDX. These are MNIST IDX files
  holding 100 synthetic 28 x 28 digit images (ten per digit, drawn by
  `create_digit_0` .. `create_digit_9`) and their labels. Each image gets
  random noise. Images and labels are shuffled together, then written with
  big-endian headers (magic 2051 or 2049, the image count, then 28 and 28 for
  the image file) and one byte per pixel or label.

All three table generators exit without writing when their artefact already
exists.

Modules, in dependency order:

- `Seqs` (`seqs.dfy`): flattening a sequence of blocks. It gives the
  addressing law for uniform blocks and the law for membership.
- `Bytes` (`bytes.dfy`): the `'<H'` and `'>I'` packings and their decoders,
  with round trips in both directions.
- `Wrappers` (`wrappers.dfy`): `Option` and `Result`.
- `FixedPoint` (`fixed_point.dfy`): Python 3 `round` (ties to even), the two
  clamps, the 16-bit mask, and the two `q88` variants.
- `Cubic` (`cubic.dfy`): real cubic polynomials, their formal derivative and
  the sign facts the range proofs use.
- `LutGen` (`lut_gen.dfy`): what the three table generators share. That is
  the sample-major word layout and the exists-then-skip guard, modelled on a
  file system that maps names to contents.
- `BasisLut`, `DerivLut`, `ExpLut`: the three tables, and what the engine may
  rely on when reading them.
- `Idx` (`idx.dfy`): `flatten_image` and `write_idx_file`. The writer is a
  pure function returning both files' bytes, or the exception Python would
  raise.
- `Digits` (`digits.dfy`): the ten `create_digit_k`. Each is the list of
  pixel writes its loops perform, painted on a blank image, and is proved
  equal to an independent description of the region it draws (rectangles,
  diagonals, a parabola, an elliptic ring).
- `TestData` (`test_data.dfy`): `main()` of the test-data generator. It
  covers the noise pass, the example loop, `random.shuffle` and the two files
  written. Every random draw is a parameter, and each property holds for all
  draws.

## Model

| member | source | states |
|---|---|---|
| FixedPoint.Round | gen_basis_lut.py:14 | Python 3 `round`: the result is within 1/2 of x, and on an exact tie it is the even neighbour |
| FixedPoint.RoundUnique | gen_basis_lut.py:14 | those two properties single out one integer, so `Round` is the only rounding with them |
| FixedPoint.RoundMonotone | gen_basis_lut.py:14 | rounding never reorders two inputs |
| FixedPoint.DoubleIsEven | gen_basis_lut.py:14 | when y times an odd d is an even integer 2m, every integer equal to 2y is even |
| FixedPoint.OddFactor | gen_basis_lut.py:14 | an integer whose product with an odd number is a multiple of 4 is even |
| FixedPoint.NoTie | gen_basis_lut.py:14 | such a y is never halfway between two integers, so no integer lies exactly half a unit from it |
| FixedPoint.RoundNoTie | gen_basis_lut.py:14 | Python's `round` of such a y is strictly within half a unit of y: the tie rule never applies |
| FixedPoint.ClampSigned | gen_basis_lut.py:15-16 | the result is in [-32768, 32767]; values inside are unchanged, values below or above go to the nearer bound |
| FixedPoint.ClampUnsigned | gen_exp_lut.py:11-12 | the result is in [0, 65535]; negatives become 0, values above 65535 become 65535, the rest are unchanged |
| FixedPoint.Mask16 | gen_basis_lut.py:17 | Python's `& 0xFFFF` on any integer, negative ones included: the word congruent to it modulo 2^16, and values already in range are unchanged |
| FixedPoint.ToSigned16 | gen_basis_lut.py:17 | a consumer's signed reading of a stored word: a value in the signed range, congruent to the word modulo 2^16 |
| FixedPoint.SignedWordRoundTrip | gen_basis_lut.py:17 | masking then reading signed gives the value back on the signed range; reading signed then masking gives the word back |
| FixedPoint.Q88Signed | gen_basis_lut.py:13-17 | signed `q88`: read back signed, the word is the clamped rounding of x*256; within half a unit of x*256 inside the range; 0x8000 or 0x7FFF when saturated |
| FixedPoint.Q88Unsigned | gen_exp_lut.py:9-13 | unsigned `q88`: the mask never changes the clamped rounding; within half a unit of x*256 inside the range; 0 for negative x and 65535 when saturated |
| FixedPoint.Q88UnsignedMonotone | gen_exp_lut.py:9-13 | a larger real never gets a smaller unsigned word |
| FixedPoint.Q88SignedMonotone | gen_basis_lut.py:13-17 | a larger real never gets a smaller signed value |
| FixedPoint.Q88SignedExact | gen_basis_lut.py:13-17 | when x*256 rounds into [lo, hi] inside the signed range, the clamp does not fire and the stored value lies in [lo, hi] |
| Bytes.LE16 | gen_basis_lut.py:28 | `struct.pack('<H', w)`: two bytes, low byte first, that weigh back to w |
| Bytes.LE16RoundTrip | gen_basis_lut.py:28 | decoding the two bytes of a word gives the word back |
| Bytes.DecodeLE16RoundTrip | gen_basis_lut.py:28 | every pair of bytes is the packing of the word it decodes to |
| Bytes.PackLE16 | gen_basis_lut.py:24-28 | words written one after another: twice as many bytes, word k at bytes 2k and 2k+1 |
| Bytes.WordAtBytes | gen_basis_lut.py:28 | the two bytes behind a stored word are its low and its high byte |
| Bytes.PackedWordAt | gen_basis_lut.py:24-28 | word p of a packed sequence reads back as itself |
| Bytes.PackUnpack | gen_basis_lut.py:24-28 | a consumer reading the packed bytes pairwise recovers every word |
| Bytes.UnpackPack | gen_basis_lut.py:24-28 | every even-length byte string is the packing of its pairwise reading |
| Bytes.BE32 | gen_test_data.py:262 | `struct.pack('>I', n)` gives four bytes |
| Bytes.BE32RoundTrip | gen_test_data.py:262-268 | reading the four bytes big-endian gives n back |
| Bytes.DecodeBE32RoundTrip | gen_test_data.py:262-268 | every four bytes are the packing of the value they decode to |
| Seqs.ConcatLength | gen_basis_lut.py:25-28 | n blocks of width w laid end to end fill n*w positions |
| Seqs.ConcatIndex | gen_basis_lut.py:25-28 | element j of block i is at position i*w + j |
| Seqs.ConcatUniform | gen_basis_lut.py:25-28 | the length and addressing laws for every block and position |
| Seqs.ConcatMember | gen_test_data.py:252 | a value occurs in the flattening exactly when it occurs in some block |
| Seqs.OffsetSplit | gen_basis_lut.py:25-28 | the position i*w + j splits back into block i and position j |
| Seqs.PositionSplit | gen_basis_lut.py:25-28 | every position below n*w lies in a block below n |
| LutGen.QuantiseRow | gen_basis_lut.py:27-28 | one sample's values, each quantised, in the order written |
| LutGen.SampleWords | gen_basis_lut.py:24-28 | the words of the nested loops, sample after sample; it has no contract of its own, and its layout is stated by `SampleWordsLayout` |
| LutGen.SampleWordsLayout | gen_basis_lut.py:24-28 | the nested loops emit n*width words, and value k of sample i is word i*width + k |
| LutGen.TableLayout | gen_basis_lut.py:24-28 | the packed table is 2*n*width bytes, and the word at offset i*width + k is the quantised value k of sample i |
| LutGen.TableBytes | gen_basis_lut.py:24-28 | a generated table: its length, and for every sample and value the word a consumer reads at its offset |
| LutGen.Generate | gen_basis_lut.py:19-24 | an existing artefact is left as it is and nothing else is created; otherwise exactly that file is created, with the table |
| LutGen.GenerateIdempotent | gen_basis_lut.py:20-22 | running a generator a second time changes nothing, whatever it would compute now |
| BasisLut.BasisTable | gen_basis_lut.py:24-28 | BASIS256.LUT is 2048 bytes and word 4i + k is `q88(Bk(i/255))` |
| BasisLut.RunBasis | gen_basis_lut.py:19-28 | the basis generator run against a file system: skip when present, otherwise write the table |
| BasisLut.B0 | gen_basis_lut.py:8 | B0(t) = (1-t)^3/6; no contract of its own, its properties are stated by `PartitionOfUnity`, `BasisMirror` and `BasisBounds` |
| BasisLut.B1 | gen_basis_lut.py:9 | B1(t) = (3t^3 - 6t^2 + 4)/6; stated by the same lemmas |
| BasisLut.B2 | gen_basis_lut.py:10 | B2(t) = (-3t^3 + 3t^2 + 3t + 1)/6; stated by the same lemmas |
| BasisLut.B3 | gen_basis_lut.py:11 | B3(t) = t^3/6; stated by the same lemmas |
| BasisLut.BasisRow | gen_basis_lut.py:27-28 | one sample's four values, in the order B0, B1, B2, B3 |
| BasisLut.SampleT | gen_basis_lut.py:26 | the sample point i/255; no contract of its own, its range is stated by `SampleTInUnit` |
| BasisLut.BasisSample | gen_basis_lut.py:26-28 | the four values written for sample i |
| BasisLut.BasisMirror | gen_basis_lut.py:8-11 | the basis is symmetric: B0(t) = B3(1-t) and B1(t) = B2(1-t) |
| BasisLut.PartitionOfUnity | gen_basis_lut.py:8-11 | B0 + B1 + B2 + B3 = 1 for every real t |
| BasisLut.BasisBounds | gen_basis_lut.py:8-11 | on [0, 1]: B0 and B3 lie in [0, 1/6], B1 and B2 in [1/6, 2/3] |
| BasisLut.SampleTInUnit | gen_basis_lut.py:26 | every sample point i/255 lies in [0, 1] |
| BasisLut.BasisWordsInRange | gen_basis_lut.py:13-28 | every stored basis word is at most 171 and equals round(Bk(t)*256): neither the clamp nor the mask changes it |
| BasisLut.BasisScaled | gen_basis_lut.py:8-11 | 6 * 255^3 times each sampled basis value is an integer, a polynomial in i |
| BasisLut.B0Scaled | gen_basis_lut.py:8 | with t = n/255, 6 * 255^3 * B0(t) = (255-n)^3 |
| BasisLut.B1Scaled | gen_basis_lut.py:9 | with t = n/255, 6 * 255^3 * B1(t) = 3n^3 - 1530n^2 + 66325500 |
| BasisLut.B2Scaled | gen_basis_lut.py:10 | with t = n/255, 6 * 255^3 * B2(t) = -3n^3 + 765n^2 + 195075n + 16581375 |
| BasisLut.B3Scaled | gen_basis_lut.py:11 | with t = n/255, 6 * 255^3 * B3(t) = n^3 |
| BasisLut.BasisNoTie | gen_basis_lut.py:13-28 | no sample is a rounding tie: every stored basis word is strictly within half a unit of Bk(i/255)*256 |
| BasisLut.QuantisedPartition | gen_basis_lut.py:8-28 | the four stored words of a sample add up to 256 within 1 unit |
| BasisLut.SixthAndZeroWords | gen_basis_lut.py:13-17 | 1/6 is stored as 43 and 0 as 0 |
| BasisLut.StoredBytes | gen_basis_lut.py:24-28 | value k of sample i has its low byte at 8i + 2k and its high byte right after |
| BasisLut.EndWord | gen_basis_lut.py:8-17 | at t = 0 and t = 1, B0 and B3 are stored as 43 where they equal 1/6 and as 0 where they vanish |
| BasisLut.EndBytes | gen_basis_lut.py:24-28 | the bytes behind those end words |
| BasisLut.FirstSample | gen_basis_lut.py:24-28 | bytes 0..1 are 0x2B 0x00 (B0(0)) and bytes 6..7 are 0x00 0x00 (B3(0)) |
| BasisLut.LastSample | gen_basis_lut.py:24-28 | bytes 2040..2041 are 0x00 0x00 (B0(1)) and bytes 2046..2047 are 0x2B 0x00 (B3(1)) |
| DerivLut.DerivTable | gen_deriv_lut.py:23-27 | DERIV256.LUT is 2048 bytes and word 4i + k is `q88(dBk(i/255))` |
| DerivLut.RunDeriv | gen_deriv_lut.py:19-27 | the derivative generator run against a file system: skip when present, otherwise write the table |
| DerivLut.DB0 | gen_deriv_lut.py:8 | dB0(t) = -(1-t)^2/2; no contract of its own, its properties are stated by `DerivSumZero`, `DerivMirror`, `DerivIsFormalDerivative` and `DerivBounds` |
| DerivLut.DB1 | gen_deriv_lut.py:9 | dB1(t) = (3t^2 - 4t)/2; stated by the same lemmas |
| DerivLut.DB2 | gen_deriv_lut.py:10 | dB2(t) = (-3t^2 + 2t + 1)/2; stated by the same lemmas |
| DerivLut.DB3 | gen_deriv_lut.py:11 | dB3(t) = t^2/2; stated by the same lemmas |
| DerivLut.DerivRow | gen_deriv_lut.py:26-27 | one sample's four derivatives, in the order dB0, dB1, dB2, dB3 |
| DerivLut.DerivSample | gen_deriv_lut.py:25-27 | the four values written for sample i, at t = i/255 |
| DerivLut.DerivMirror | gen_deriv_lut.py:8-11 | the derivatives are mirrored and negated: dB0(t) = -dB3(1-t) and dB1(t) = -dB2(1-t) |
| DerivLut.DerivSumZero | gen_deriv_lut.py:8-11 | dB0 + dB1 + dB2 + dB3 = 0 for every real t |
| DerivLut.BasisPolyMatches | gen_basis_lut.py:8-11 | the coefficient forms evaluate to B0..B3 |
| DerivLut.DerivIsFormalDerivative | gen_deriv_lut.py:8-11 | each dBk is the formal derivative of the matching Bk |
| DerivLut.BasisPolysSumToOne | gen_basis_lut.py:8-11 | the four basis polynomials add up to the constant polynomial 1 |
| DerivLut.DerivativesOfPartition | gen_deriv_lut.py:8-11 | the derivatives add up to the derivative of that sum, the zero polynomial |
| DerivLut.DerivOfBasisSum | gen_deriv_lut.py:8-11 | the sum of the four derivatives is the derivative of the sum of the four basis polynomials |
| DerivLut.DerivBounds | gen_deriv_lut.py:8-11 | on [0, 1]: dB0 in [-1/2, 0], dB1 in [-2/3, 0], dB2 in [0, 2/3], dB3 in [0, 1/2] |
| DerivLut.DerivWordsInRange | gen_deriv_lut.py:13-27 | every stored derivative, read signed, lies in [-171, 171] and equals round(dBk(t)*256) |
| DerivLut.DerivScaled | gen_deriv_lut.py:8-11 | 2 * 255^2 times each sampled derivative is an integer, a polynomial in i |
| DerivLut.DB0Scaled | gen_deriv_lut.py:8 | with t = n/255, 2 * 255^2 * dB0(t) = -(255-n)^2 |
| DerivLut.DB1Scaled | gen_deriv_lut.py:9 | with t = n/255, 2 * 255^2 * dB1(t) = 3n^2 - 1020n |
| DerivLut.DB2Scaled | gen_deriv_lut.py:10 | with t = n/255, 2 * 255^2 * dB2(t) = -3n^2 + 510n + 65025 |
| DerivLut.DB3Scaled | gen_deriv_lut.py:11 | with t = n/255, 2 * 255^2 * dB3(t) = n^2 |
| DerivLut.DerivNoTie | gen_deriv_lut.py:13-27 | no sample is a rounding tie: every stored derivative, read signed, is strictly within half a unit of dBk(i/255)*256 |
| DerivLut.QuantisedDerivSum | gen_deriv_lut.py:8-27 | the four signed values of a sample add up to 0 within 1 unit |
| DerivLut.HalfWords | gen_deriv_lut.py:13-17 | -1/2 is stored as 0xFF80 (two's complement of 128) and 1/2 as 0x0080 |
| DerivLut.StoredBytes | gen_deriv_lut.py:23-27 | value k of sample i has its low byte at 8i + 2k and its high byte right after |
| DerivLut.EndWord | gen_deriv_lut.py:8-17 | the end-sample words: dB0(0) and dB1(1) as 0xFF80, dB2(0) and dB3(1) as 0x0080, dB3(0) as 0 |
| DerivLut.EndBytes | gen_deriv_lut.py:23-27 | the bytes behind those end words |
| DerivLut.FirstSample | gen_deriv_lut.py:23-27 | bytes 0..1 are 0x80 0xFF, bytes 4..5 are 0x80 0x00, bytes 6..7 are 0x00 0x00 |
| DerivLut.LastSample | gen_deriv_lut.py:23-27 | bytes 2042..2043 are 0x80 0xFF and bytes 2046..2047 are 0x80 0x00 |
| ExpLut.ExpTable | gen_exp_lut.py:19-23 | EXP256.LUT is 512 bytes and word i is the unsigned `q88(exp(-i/64))` |
| ExpLut.RunExp | gen_exp_lut.py:15-23 | the exponential generator run against a file system: skip when present, otherwise write the table |
| ExpLut.GridX | gen_exp_lut.py:21 | the grid point of sample i: 64 times it is -i, and it is never positive for i >= 0 |
| ExpLut.ExpRow | gen_exp_lut.py:22-23 | one value per sample, exp at the grid point, so the table has one word per sample |
| ExpLut.GridSpacing | gen_exp_lut.py:20-21 | the grid starts at 0, steps down by 1/64 and ends at -3.984375 |
| ExpLut.ExpWordsBounded | gen_exp_lut.py:9-23 | every stored word is at most 256 and within half a unit of exp(x)*256: neither the clamp nor the mask fires |
| ExpLut.FirstEntry | gen_exp_lut.py:19-23 | exp(0) = 1 is stored as 256, bytes 0x00 0x01 |
| ExpLut.ExpWordsNonIncreasing | gen_exp_lut.py:19-23 | the table never increases along the grid |
| ExpLut.ShiftRight2 | gen_exp_lut.py:8 | Python's `>> 2`: floor division by 4, also for negative values |
| ExpLut.ExpIndex | gen_exp_lut.py:8 | for non-positive inputs the index is in 0..255; it saturates at 255 from -1020 down; below that, 4*index <= -x < 4*index + 4 |
| ExpLut.ExpIndexMonotone | gen_exp_lut.py:8 | a smaller input never selects an earlier entry |
| ExpLut.ExpIndexOnGrid | gen_exp_lut.py:8 | below saturation the input lies in (GridX(index) - 1/64, GridX(index)] |
| ExpLut.Lookup | gen_exp_lut.py:8 | the word a consumer reads for a non-positive input is the stored `q88(exp(GridX(index)))` of the selected entry |
| ExpLut.LookupBrackets | gen_exp_lut.py:8 | the word read lies between `q88(exp(x))` and `q88(exp(x + 1/64))`; past saturation it is the last entry |
| Idx.Flatten | gen_test_data.py:250-252 | a 28 x 28 image flattens to 784 values, with pixel (r, c) at 28r + c |
| Idx.Unflatten | gen_test_data.py:250-252 | cutting 784 values into rows gives a 28 x 28 grid |
| Idx.FlattenUnflatten | gen_test_data.py:250-252 | unflattening a flattened grid gives the grid back |
| Idx.UnflattenFlatten | gen_test_data.py:250-252 | flattening an unflattened block gives the block back |
| Idx.AreGridsMeans | gen_test_data.py:271-273 | the row-by-row grid condition on a list means every image is a grid |
| Idx.ToBytes | gen_test_data.py:273 | `bytes(xs)` succeeds exactly when every value is in 0..255, and then holds the same values |
| Idx.AllPixelsLayout | gen_test_data.py:271-273 | the pixel block of n grids is 784n long, with pixel (r, c) of image k at 784k + 28r + c |
| Idx.AllPixels | gen_test_data.py:271-273 | the pixel block: each image flattened, in order; no contract of its own, its layout is stated by `AllPixelsLayout` and `AllPixelsBytes` |
| Idx.AllPixelsBytes | gen_test_data.py:271-273 | when every image's pixels are bytes, so is the whole pixel block |
| Idx.ImageHeader | gen_test_data.py:262-268 | the image header is 16 bytes |
| Idx.LabelHeader | gen_test_data.py:278-280 | the label header is 8 bytes |
| Idx.WriteIdx | gen_test_data.py:255-283 | `write_idx_file` succeeds exactly when the count fits in 32 bits and every pixel and label is a byte; otherwise it reports the first error Python raises; file lengths on success |
| Idx.ImageHeaderDecodes | gen_test_data.py:262-268 | the image header reads back as 2051, the image count, 28, 28 |
| Idx.LabelHeaderDecodes | gen_test_data.py:278-280 | the label header reads back as 2049 and the image count |
| Idx.BE32Field | gen_test_data.py:262-268 | a field written with `'>I'` at some offset reads back as its value |
| Idx.ImageFileLayout | gen_test_data.py:258-273 | the image file is 16 + 784n bytes, with pixel (r, c) of image k at byte 16 + 784k + 28r + c |
| Idx.LabelFileLayout | gen_test_data.py:276-283 | the label file is 8 + |labels| bytes, with label j at byte 8 + j |
| Digits.Blank | gen_test_data.py:23 | a 28 x 28 grid of zeros |
| Digits.Put | gen_test_data.py:30 | `img[row][col] = 255` sets that pixel and no other |
| Digits.Paint | gen_test_data.py:26-30 | after a sequence of writes, a pixel is 255 exactly when its cell was written, and unchanged otherwise |
| Digits.Draw | gen_test_data.py:23-32 | a drawing on a blank image is a grid of 0s and 255s, 255 exactly on the written cells |
| Digits.RangeMember | gen_test_data.py:26 | `range(lo, hi)` holds exactly lo <= x < hi |
| Digits.PairMember | gen_test_data.py:213-215 | a loop body writing two lines covers exactly those two |
| Digits.HBarsCells | gen_test_data.py:45-47 | `for col in cols:` writing rows `rows` covers exactly rows x cols |
| Digits.VBarsCells | gen_test_data.py:40-42 | `for row in rows:` writing columns `cols` covers exactly rows x cols |
| Digits.ForMember | gen_test_data.py:63-69 | a cell is written by a loop exactly when some iteration writes it |
| Digits.HBarsRect | gen_test_data.py:45-47 | bars over consecutive rows and columns cover exactly their rectangle |
| Digits.VBarsRect | gen_test_data.py:40-42 | the same for vertical bars |
| Digits.RingRowCells | gen_test_data.py:27-30 | one row of the oval loop writes exactly the columns 8..19 inside the ring |
| Digits.StrokesRing | gen_test_data.py:26-30 | the oval loops write exactly the cells of rows 6..21 and columns 8..19 inside the ring |
| Digits.RingDistScaled | gen_test_data.py:28 | 144 times the distance is the integer 4(row-14)^2 + 9(col-14)^2 |
| Digits.InRingInteger | gen_test_data.py:28-29 | the real ring test 0.7 < dist < 1.2 is the integer test 101 <= score <= 172 |
| Digits.RingMargin | gen_test_data.py:28-29 | on integer cells the distance stays at least 1/720 from both thresholds |
| Digits.Strokes0Shape | gen_test_data.py:21-32 | `create_digit_0` writes only in-bounds cells, and exactly the ring cells |
| Digits.Strokes0 | gen_test_data.py:26-30 | the cells the oval loops write, in order; no contract of its own, proved equal to the ring by `Strokes0Shape` |
| Digits.Digit0Shape | gen_test_data.py:21-32 | a pixel of the 0 is 255 exactly on the elliptic ring, and 0 elsewhere |
| Digits.Strokes1Shape | gen_test_data.py:35-49 | `create_digit_1` writes exactly the stem rectangle and the serif, all in bounds |
| Digits.Strokes1 | gen_test_data.py:40-47 | the cells the stem and serif loops write, in order; stated by `Strokes1Shape` |
| Digits.Digit1Shape | gen_test_data.py:35-49 | a pixel of the 1 is 255 exactly on the stem and serif |
| Digits.Diag7Unguarded | gen_test_data.py:63-69 | over `range(18)` both bound tests of the 7's diagonal hold: every iteration writes its two cells |
| Digits.Diag7 | gen_test_data.py:64-69 | one iteration of the 7's diagonal: it writes at most two cells, and only in-bounds ones |
| Digits.Diag7Cells | gen_test_data.py:63-69 | the diagonal loop writes exactly the two-pixel diagonal from (7, 20) to (24, 3) |
| Digits.Strokes7Shape | gen_test_data.py:52-71 | `create_digit_7` writes exactly the top bar and the diagonal, all in bounds |
| Digits.Strokes7 | gen_test_data.py:57-69 | the cells the bar and diagonal loops write, in order; stated by `Strokes7Shape` |
| Digits.Digit7Shape | gen_test_data.py:52-71 | a pixel of the 7 is 255 exactly on the top bar and the diagonal |
| Digits.Curve2Unguarded | gen_test_data.py:79-82 | over columns 8..19 the curve stays in rows 6..9, so the bound test always passes |
| Digits.Curve2 | gen_test_data.py:80-82 | one iteration of the 2's top curve: at most one cell, in the given column and a row inside the grid |
| Digits.Curve2Cells | gen_test_data.py:79-82 | the top-curve loop writes exactly one cell per column 8..19, at row 6 + floor((col-14)^2/10) |
| Digits.Diag2Unguarded | gen_test_data.py:85-89 | over `range(10)` the bound test of the 2's diagonal always passes |
| Digits.Diag2 | gen_test_data.py:86-89 | one iteration of the 2's diagonal: at most one cell, and only an in-bounds one |
| Digits.Diag2Cells | gen_test_data.py:85-89 | the diagonal loop writes exactly the diagonal from (12, 18) to (21, 9) |
| Digits.Strokes2Shape | gen_test_data.py:74-96 | `create_digit_2` writes exactly the curve, the diagonal and the base, all in bounds |
| Digits.Strokes2 | gen_test_data.py:79-94 | the cells the curve, diagonal and base loops write, in order; stated by `Strokes2Shape` |
| Digits.Digit2Shape | gen_test_data.py:74-96 | a pixel of the 2 is 255 exactly on the curve, the diagonal and the base |
| Digits.Strokes3Shape | gen_test_data.py:99-124 | `create_digit_3` writes exactly its three bars and two right verticals, all in bounds |
| Digits.Strokes3 | gen_test_data.py:104-122 | the cells the five bar loops write, in order; stated by `Strokes3Shape` |
| Digits.Digit3Shape | gen_test_data.py:99-124 | a pixel of the 3 is 255 exactly on those five rectangles |
| Digits.Diag4Unguarded | gen_test_data.py:132-136 | over `range(12)` the bound test of the 4's diagonal always passes |
| Digits.Diag4 | gen_test_data.py:133-136 | one iteration of the 4's diagonal: at most one cell, and only an in-bounds one |
| Digits.Diag4Cells | gen_test_data.py:132-136 | the diagonal loop writes exactly rows 6..17 at column 6 + (row-6)//2 |
| Digits.Strokes4Shape | gen_test_data.py:127-148 | `create_digit_4` writes exactly the diagonal, the crossbar and the stem, all in bounds |
| Digits.Strokes4 | gen_test_data.py:132-146 | the cells the diagonal, bar and stem loops write, in order; stated by `Strokes4Shape` |
| Digits.Digit4Shape | gen_test_data.py:127-148 | a pixel of the 4 is 255 exactly on the diagonal, the crossbar and the stem |
| Digits.Strokes5Shape | gen_test_data.py:151-179 | `create_digit_5` writes exactly its five rectangles, all in bounds |
| Digits.Strokes5 | gen_test_data.py:156-177 | the cells the five bar loops write, in order; stated by `Strokes5Shape` |
| Digits.Digit5Shape | gen_test_data.py:151-179 | a pixel of the 5 is 255 exactly on those rectangles |
| Digits.Strokes6Shape | gen_test_data.py:182-205 | `create_digit_6` writes exactly its five rectangles, all in bounds |
| Digits.Strokes6 | gen_test_data.py:187-203 | the cells the five bar loops write, in order; stated by `Strokes6Shape` |
| Digits.Digit6Shape | gen_test_data.py:182-205 | a pixel of the 6 is 255 exactly on those rectangles |
| Digits.Strokes8Shape | gen_test_data.py:208-227 | `create_digit_8` writes exactly two stacked boxes sharing row 13, all in bounds |
| Digits.Strokes8 | gen_test_data.py:213-225 | the cells the two box loops write, in order; stated by `Strokes8Shape` |
| Digits.Digit8Shape | gen_test_data.py:208-227 | a pixel of the 8 is 255 exactly on the two boxes |
| Digits.Strokes9Shape | gen_test_data.py:230-247 | `create_digit_9` writes exactly a box and a two-pixel tail, all in bounds |
| Digits.Strokes9 | gen_test_data.py:235-245 | the cells the box and tail loops write, in order; stated by `Strokes9Shape` |
| Digits.Digit9Shape | gen_test_data.py:230-247 | a pixel of the 9 is 255 exactly on the box and the tail |
| Digits.StrokesShape | gen_test_data.py:293-304 | every generator writes only in-bounds cells, and exactly the cells of its region |
| Digits.Strokes | gen_test_data.py:293-304 | the writes of `generators[d]`, digit by digit; stated by `StrokesShape` |
| Digits.ShapeInBounds | gen_test_data.py:293-304 | every region lies inside the 28 x 28 grid |
| Digits.Digit | gen_test_data.py:316 | `generators[d]()` is a 28 x 28 grid of 0s and 255s |
| TestData.NoisyImage | gen_test_data.py:319-322 | the noise pass as a whole: a grid whose pixel is the drawn level where one was drawn and the original elsewhere |
| TestData.NoisyPixel | gen_test_data.py:319-322 | one pixel after the noise pass: the drawn level where one was drawn, otherwise the original; its consequences are stated by `NoisyImage` and `NoisyBinary` |
| TestData.AddNoise | gen_test_data.py:319-322 | the row-by-row, column-by-column loop computes exactly `NoisyImage` |
| TestData.SameGrid | gen_test_data.py:319-322 | two grids with the same pixels are the same image |
| TestData.QuietNoise | gen_test_data.py:319-322 | when nothing is drawn, the noise pass leaves the image unchanged |
| TestData.NoisyBinary | gen_test_data.py:319-322 | a noisy 0/255 image keeps undrawn pixels and holds drawn levels; every pixel is in 0..100 or 255, so a byte |
| TestData.Generators | gen_test_data.py:293-304 | the ten digit functions form a valid generator list: ten 28 x 28 images of 0s and 255s |
| TestData.Examples | gen_test_data.py:313-325 | the example loops produce 100 examples |
| TestData.MakeExample | gen_test_data.py:316-325 | example e: a noisy copy of digit e/10 labelled with it; the image is a grid and the label a digit |
| TestData.ExamplesOrder | gen_test_data.py:313-325 | copy j of digit d is example 10d + j: labelled d, a grid of bytes, equal to `generators[d]` wherever no noise was drawn |
| TestData.ExampleLabels | gen_test_data.py:313-325 | example e carries label d exactly when 10d <= e < 10d + 10 |
| TestData.ExampleDigit | gen_test_data.py:313 | the digit of every example is one of 0..9 |
| TestData.Swap | gen_test_data.py:329 | a swap exchanges two entries, keeps the others, and preserves the multiset |
| TestData.ShuffleDown | gen_test_data.py:329 | the shuffle's swap loop, for any valid draws, rearranges its input: same length, same multiset |
| TestData.Shuffle | gen_test_data.py:329 | `random.shuffle` is a rearrangement |
| TestData.ShuffleFrom | gen_test_data.py:329 | every entry of the shuffled list is an entry of the original |
| TestData.ShuffleLabels | gen_test_data.py:328-330 | shuffling pairs then unzipping equals shuffling the labels alone with the same draws |
| TestData.ShuffledLabelsPermuted | gen_test_data.py:328-330 | the unzipped labels are the original labels rearranged |
| TestData.Shuffled | gen_test_data.py:328-330 | the shuffled list has 100 examples |
| TestData.ShuffledPairing | gen_test_data.py:328-330 | each shuffled entry is a generated example, image and label together |
| TestData.ShuffledEntry | gen_test_data.py:328-330 | each shuffled image is a grid of bytes and each label a digit |
| TestData.ShuffledWellFormed | gen_test_data.py:328-330 | all shuffled images are grids of bytes and all labels digits |
| TestData.TestFilesSucceed | gen_test_data.py:334 | `write_idx_file` raises nothing, whatever the draws |
| TestData.TestFiles | gen_test_data.py:334 | the result of `write_idx_file` on the shuffled images and labels; stated by `TestFilesSucceed`, `TestFilesWritten` and `TestFilesPairing` |
| TestData.TestFilesWritten | gen_test_data.py:334 | TEST.IDX is 78416 bytes with header 2051, 100, 28, 28; TESTL.IDX is 108 bytes with header 2049, 100 and every label below 10 |
| TestData.TestFilesPairing | gen_test_data.py:328-334 | image i of TEST.IDX and label i of TESTL.IDX come from the same generated example |
| TestData.TestImagesShowLabels | gen_test_data.py:313-334 | with the ten digit functions, image i of TEST.IDX equals the digit stored as label i wherever no noise was drawn |
| TestData.TestLabelsPermuted | gen_test_data.py:313-334 | the stored labels are the generated labels rearranged: ten of each digit |
| TestData.RunTestData | gen_test_data.py:334 | `main()` against a file system: both files are written with the generated contents, and nothing else changes |
| TestData.WriteFiles | gen_test_data.py:258-283 | opening both files for writing: each holds its contents, and other files keep theirs |

## Left out

- Floating point. Python computes the basis, derivative and exponential
  values, and the products `x * 256.0`, in IEEE double precision. The model
  uses exact reals, so the tables proved here are the values the generators
  are meant to store. The one place where a float comparison decides a
  pixel, the ring test of `create_digit_0`, is covered by `RingMargin`: on
  integer cells the distance is at least 1/720 from both thresholds. The
  division in the 2's top curve divides an exact integer by 10, and its
  truncation is modelled as floor division.
- Python 3 `round` rounds ties to even. The code is followed here; a
  description of the quantiser as "round half away from zero" would differ
  only on exact ties.
- `math.exp` is not modelled. `ExpLut` takes the exponential as a parameter
  and assumes only exp(0) = 1, positivity and monotonicity (`IsExpLike`).
  Concrete table values beyond the first entry are therefore not stated.
- ExpLut.ExpIndex: for positive inputs the consumer rule gives a negative
  index. The rule is documented only for non-positive inputs, so `Lookup`
  requires `xq <= 0`.
- File I/O is a map from file names to contents. `print`, `exit(0)` and the
  progress messages are not modelled. `write_idx_file` is modelled as the
  contents it produces. The files left behind by a failing call are not
  modelled. A count that does not fit in 32 bits fails after the image magic
  number is written. A pixel outside 0..255 fails part-way through the image
  data. In both cases the image file is partial and the label file untouched.
  A label outside 0..255 fails after the image file is complete and closed,
  and leaves a label file holding only its 8-byte header. `TestFilesSucceed`
  shows that none of these cases can arise in `main`.
- Randomness is a parameter. `noise(e, row, col)` is what the two draws made
  for that pixel of example e. `picks` are the positions `random.shuffle`
  draws. The 2% rate and the distribution of levels are not modelled; only
  the range 0..100 of `randint` is. The shuffle follows CPython's algorithm:
  for i from n - 1 down to 1, swap with a position in 0..i.
- `write_idx_file` writes `len(images)` into both headers, whatever the
  number of labels. This is modelled as written, and in `main` both counts
  are 100.
