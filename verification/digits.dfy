/**
 The synthetic digit rasters of the test-data generator. Every `create_digit_k`
 starts from a blank 28 x 28 image and sets a fixed collection of pixels to
 255 with `img[row][col] = 255`, in loops over fixed ranges; three of them
 guard the write with a bounds test.

 A drawing is modelled as the list of cells its loops write, in loop order, and
 `Paint` performs those writes one after the other. Since every write stores
 the same value, a pixel of the result is 255 exactly when its cell is in the
 list. For each digit the cells are compared with an independent description
 of the region drawn, as a union of rectangles, diagonals and a curve.
 */
module Digits {
  import opened Seqs
  import opened Idx

  /** A pixel position: (row, column). */
  type Cell = (int, int)

  /** The 28 x 28 all-zero grid a digit is drawn on. */
  function Blank(): (img: Image)
    ensures IsGrid(img)
    ensures forall r, c :: 0 <= r < Side && 0 <= c < Side ==> img[r][c] == 0
  {
    seq(Side, _ => seq(Side, _ => 0))
  }

  predicate InBounds(cell: Cell)
  {
    0 <= cell.0 < Side && 0 <= cell.1 < Side
  }

  predicate AllInBounds(cells: seq<Cell>)
  {
    forall cell :: cell in cells ==> InBounds(cell)
  }

  /** Every pixel is 0 or 255. */
  predicate IsBinary(img: Image)
    requires IsGrid(img)
  {
    forall r, c :: 0 <= r < Side && 0 <= c < Side ==> img[r][c] == 0 || img[r][c] == 255
  }

  /** Sets one in-bounds pixel to 255 and leaves the others as they were. */
  function Put(img: Image, cell: Cell): (img': Image)
    requires IsGrid(img) && InBounds(cell)
    ensures IsGrid(img')
    ensures forall r, c :: 0 <= r < Side && 0 <= c < Side ==>
              img'[r][c] == if (r, c) == cell then 255 else img[r][c]
  {
    img[cell.0 := img[cell.0][cell.1 := 255]]
  }

  /** The writes of `cells`, first to last: a pixel becomes 255 exactly when its cell is written. */
  function Paint(img: Image, cells: seq<Cell>): (img': Image)
    requires IsGrid(img) && AllInBounds(cells)
    ensures IsGrid(img')
    ensures forall r, c :: 0 <= r < Side && 0 <= c < Side ==>
              img'[r][c] == if (r, c) in cells then 255 else img[r][c]
    decreases |cells|
  {
    if |cells| == 0 then img
    else
      assert cells == [cells[0]] + cells[1..];
      Paint(Put(img, cells[0]), cells[1..])
  }

  /** A drawing on a blank image: a grid of 0s and 255s, 255 exactly on the written cells. */
  function Draw(cells: seq<Cell>): (img: Image)
    requires AllInBounds(cells)
    ensures IsGrid(img) && IsBinary(img)
    ensures forall r, c :: 0 <= r < Side && 0 <= c < Side ==>
              img[r][c] == if (r, c) in cells then 255 else 0
  {
    Paint(Blank(), cells)
  }

  /** Python's `range(lo, hi)`: lo, lo + 1, ..., hi - 1, and nothing when hi <= lo. */
  function Range(lo: int, hi: int): (xs: seq<int>)
    ensures |xs| == if lo <= hi then hi - lo else 0
  {
    seq(if lo <= hi then hi - lo else 0, k => lo + k)
  }

  lemma RangeMember(lo: int, hi: int, x: int)
    ensures x in Range(lo, hi) <==> lo <= x < hi
  {
    if lo <= x < hi {
      assert Range(lo, hi)[x - lo] == x;
    }
  }

  /** The two rows (or columns) of a loop body that writes two separate lines. */
  function Pair(a: int, b: int): seq<int>
  {
    [a, b]
  }

  lemma PairMember(a: int, b: int, x: int)
    ensures x in Pair(a, b) <==> x == a || x == b
  {
  }

  /**
   `for col in cols: for row in rows: img[row][col] = 255` — horizontal bars.
   Write number `k * |rows| + m` is row `m` of iteration `k`.
   */
  function HBars(rows: seq<int>, cols: seq<int>): (cells: seq<Cell>)
    ensures |cells| == |cols| * |rows|
  {
    seq(|cols| * |rows|, p requires 0 <= p < |cols| * |rows| => NestedWrite(cols, rows, p, false))
  }

  /**
   `for row in rows: for col in cols: img[row][col] = 255` — vertical bars.
   Write number `k * |cols| + m` is column `m` of iteration `k`.
   */
  function VBars(cols: seq<int>, rows: seq<int>): (cells: seq<Cell>)
    ensures |cells| == |rows| * |cols|
  {
    seq(|rows| * |cols|, p requires 0 <= p < |rows| * |cols| => NestedWrite(rows, cols, p, true))
  }

  /**
   Write number `p` of two nested loops over `outer` and `inner`: the outer
   value is the row when `outerIsRow` and the column otherwise.
   */
  function NestedWrite(outer: seq<int>, inner: seq<int>, p: int, outerIsRow: bool): Cell
    requires 0 <= p < |outer| * |inner|
  {
    PositionSplit(|outer|, |inner|, p);
    var x, y := outer[p / |inner|], inner[p % |inner|];
    if outerIsRow then (x, y) else (y, x)
  }

  /** Horizontal bars cover exactly the given rows crossed with the given columns. */
  lemma HBarsCells(rows: seq<int>, cols: seq<int>, cell: Cell)
    ensures cell in HBars(rows, cols) <==> cell.0 in rows && cell.1 in cols
  {
    if cell in HBars(rows, cols) {
      HBarsOnly(rows, cols, cell);
    }
    if cell.0 in rows && cell.1 in cols {
      HBarsAll(rows, cols, cell);
    }
  }

  lemma HBarsOnly(rows: seq<int>, cols: seq<int>, cell: Cell)
    requires cell in HBars(rows, cols)
    ensures cell.0 in rows && cell.1 in cols
  {
    var bars := HBars(rows, cols);
    var p :| 0 <= p < |bars| && bars[p] == cell;
    NestedSplit(cols, rows, p, false);
  }

  lemma HBarsAll(rows: seq<int>, cols: seq<int>, cell: Cell)
    requires cell.0 in rows && cell.1 in cols
    ensures cell in HBars(rows, cols)
  {
    var m :| 0 <= m < |rows| && rows[m] == cell.0;
    var k :| 0 <= k < |cols| && cols[k] == cell.1;
    NestedAt(cols, rows, k, m);
    assert HBars(rows, cols)[Offset(k, |rows|, m)] == cell;
  }

  /** Vertical bars cover exactly the given rows crossed with the given columns. */
  lemma VBarsCells(cols: seq<int>, rows: seq<int>, cell: Cell)
    ensures cell in VBars(cols, rows) <==> cell.0 in rows && cell.1 in cols
  {
    if cell in VBars(cols, rows) {
      VBarsOnly(cols, rows, cell);
    }
    if cell.0 in rows && cell.1 in cols {
      VBarsAll(cols, rows, cell);
    }
  }

  lemma VBarsOnly(cols: seq<int>, rows: seq<int>, cell: Cell)
    requires cell in VBars(cols, rows)
    ensures cell.0 in rows && cell.1 in cols
  {
    var bars := VBars(cols, rows);
    var p :| 0 <= p < |bars| && bars[p] == cell;
    NestedSplit(rows, cols, p, true);
  }

  lemma VBarsAll(cols: seq<int>, rows: seq<int>, cell: Cell)
    requires cell.0 in rows && cell.1 in cols
    ensures cell in VBars(cols, rows)
  {
    var k :| 0 <= k < |rows| && rows[k] == cell.0;
    var m :| 0 <= m < |cols| && cols[m] == cell.1;
    NestedAt(rows, cols, k, m);
    assert VBars(cols, rows)[Offset(k, |cols|, m)] == cell;
  }

  /** Write number `p` is inner iteration `p % |inner|` of outer iteration `p / |inner|`. */
  lemma NestedSplit(outer: seq<int>, inner: seq<int>, p: int, outerIsRow: bool)
    requires 0 <= p < |outer| * |inner|
    ensures 0 <= p / |inner| < |outer| && 0 <= p % |inner| < |inner|
    ensures var x, y := outer[p / |inner|], inner[p % |inner|];
            NestedWrite(outer, inner, p, outerIsRow) == if outerIsRow then (x, y) else (y, x)
  {
    PositionSplit(|outer|, |inner|, p);
  }

  /** Inner iteration `m` of outer iteration `k` is write number `k * |inner| + m`. */
  lemma NestedAt(outer: seq<int>, inner: seq<int>, k: int, m: int)
    requires 0 <= k < |outer| && 0 <= m < |inner|
    ensures Offset(k, |inner|, m) < |outer| * |inner|
    ensures forall b :: NestedWrite(outer, inner, Offset(k, |inner|, m), b) == if b then (outer[k], inner[m]) else (inner[m], outer[k])
  {
    OffsetBound(k, |inner|, m, |outer|);
    OffsetSplit(k, |inner|, m);
  }

  /** The writes of a loop over `xs`, one block per iteration. */
  function ForBlocks(xs: seq<int>, body: int -> seq<Cell>): (bs: seq<seq<Cell>>)
    ensures |bs| == |xs|
  {
    seq(|xs|, k requires 0 <= k < |xs| => body(xs[k]))
  }

  /** A loop over `xs` whose body writes `body(x)`: the writes of each iteration in turn. */
  function For(xs: seq<int>, body: int -> seq<Cell>): seq<Cell>
  {
    Concat(ForBlocks(xs, body))
  }

  /** A cell is written by the loop exactly when some iteration writes it. */
  lemma ForMember(xs: seq<int>, body: int -> seq<Cell>, cell: Cell)
    ensures cell in For(xs, body) <==> exists x :: x in xs && cell in body(x)
  {
    var bs := ForBlocks(xs, body);
    ConcatMember(bs, cell);
    if cell in For(xs, body) {
      var k :| 0 <= k < |bs| && cell in bs[k];
      assert xs[k] in xs && cell in body(xs[k]);
    }
    if exists x :: x in xs && cell in body(x) {
      var x :| x in xs && cell in body(x);
      var k :| 0 <= k < |xs| && xs[k] == x;
      assert cell in bs[k];
    }
  }

  /** The half-open rectangle of rows [r0, r1) and columns [c0, c1). */
  predicate Rect(cell: Cell, r0: int, r1: int, c0: int, c1: int)
  {
    r0 <= cell.0 < r1 && c0 <= cell.1 < c1
  }

  /** Bars over consecutive rows and columns cover exactly their rectangle. */
  lemma HBarsRect(r0: int, r1: int, c0: int, c1: int, cell: Cell)
    ensures cell in HBars(Range(r0, r1), Range(c0, c1)) <==> Rect(cell, r0, r1, c0, c1)
  {
    HBarsCells(Range(r0, r1), Range(c0, c1), cell);
    RangeMember(r0, r1, cell.0);
    RangeMember(c0, c1, cell.1);
  }

  lemma VBarsRect(r0: int, r1: int, c0: int, c1: int, cell: Cell)
    ensures cell in VBars(Range(c0, c1), Range(r0, r1)) <==> Rect(cell, r0, r1, c0, c1)
  {
    VBarsCells(Range(c0, c1), Range(r0, r1), cell);
    RangeMember(r0, r1, cell.0);
    RangeMember(c0, c1, cell.1);
  }

  /** Two separate rows over consecutive columns. */
  lemma HBarsPair(a: int, b: int, c0: int, c1: int, cell: Cell)
    ensures cell in HBars(Pair(a, b), Range(c0, c1)) <==> (cell.0 == a || cell.0 == b) && c0 <= cell.1 < c1
  {
    HBarsCells(Pair(a, b), Range(c0, c1), cell);
    PairMember(a, b, cell.0);
    RangeMember(c0, c1, cell.1);
  }

  /** Two separate columns over consecutive rows. */
  lemma VBarsPair(a: int, b: int, r0: int, r1: int, cell: Cell)
    ensures cell in VBars(Pair(a, b), Range(r0, r1)) <==> r0 <= cell.0 < r1 && (cell.1 == a || cell.1 == b)
  {
    VBarsCells(Pair(a, b), Range(r0, r1), cell);
    PairMember(a, b, cell.1);
    RangeMember(r0, r1, cell.0);
  }

  // ---------------------------------------------------------------- digit 0

  /**
   `((row - 14) / 6) ** 2 + ((col - 14) / 4) ** 2` over exact reals, in terms of
   the offsets p = row - 14 and q = col - 14.
   */
  function RingDist(cell: Cell): real
  {
    Ellipse(cell.0 - 14, cell.1 - 14)
  }

  function Ellipse(p: int, q: int): real
  {
    var dr := p as real / 6.0;
    var dc := q as real / 4.0;
    dr * dr + dc * dc
  }

  /** `0.7 < dist_from_center < 1.2`. */
  predicate InRing(cell: Cell)
  {
    0.7 < RingDist(cell) < 1.2
  }

  /** The guarded write of the inner loop at (row, col). */
  function RingCell(row: int, col: int): seq<Cell>
  {
    if InRing((row, col)) then [(row, col)] else []
  }

  /** The body of the inner loop for one row, as a function of the column. */
  function RingColumn(row: int): int -> seq<Cell>
  {
    col => RingCell(row, col)
  }

  /** One row of the oval: the columns 8..19 of `row` that lie inside the ring, left to right. */
  function RingRow(row: int): seq<Cell>
  {
    For(Range(8, 20), RingColumn(row))
  }

  lemma RingRowCells(row: int, cell: Cell)
    ensures cell in RingRow(row) <==> cell.0 == row && 8 <= cell.1 < 20 && InRing(cell)
  {
    if cell in RingRow(row) {
      RingRowOnly(row, cell);
    }
    if cell.0 == row && 8 <= cell.1 < 20 && InRing(cell) {
      RingRowAll(row, cell);
    }
  }

  lemma RingRowOnly(row: int, cell: Cell)
    requires cell in RingRow(row)
    ensures cell.0 == row && 8 <= cell.1 < 20 && InRing(cell)
  {
    ForMember(Range(8, 20), RingColumn(row), cell);
    var col :| col in Range(8, 20) && cell in RingColumn(row)(col);
    RangeMember(8, 20, col);
  }

  lemma RingRowAll(row: int, cell: Cell)
    requires cell.0 == row && 8 <= cell.1 < 20 && InRing(cell)
    ensures cell in RingRow(row)
  {
    RangeMember(8, 20, cell.1);
    assert cell in RingColumn(row)(cell.1);
    ForMember(Range(8, 20), RingColumn(row), cell);
  }

  /** The oval of `create_digit_0`: rows 6..21, each written by `RingRow`. */
  function Strokes0(): seq<Cell>
  {
    For(Range(6, 22), RingRow)
  }

  /** 144 times the distance, an integer: `4 (row - 14)^2 + 9 (col - 14)^2`. */
  function RingScore(cell: Cell): int
  {
    EllipseScore(cell.0 - 14, cell.1 - 14)
  }

  function EllipseScore(p: int, q: int): int
  {
    4 * (p * p) + 9 * (q * q)
  }

  /** The ring as an integer test. */
  predicate Shape0(cell: Cell)
  {
    Rect(cell, 6, 22, 8, 20) && 101 <= RingScore(cell) <= 172
  }

  /** 144 times the distance is the integer `RingScore`. */
  lemma RingDistScaled(cell: Cell)
    ensures 144.0 * RingDist(cell) == RingScore(cell) as real
  {
    EllipseScaled(cell.0 - 14, cell.1 - 14);
  }

  lemma EllipseScaled(p: int, q: int)
    ensures 144.0 * Ellipse(p, q) == EllipseScore(p, q) as real
  {
    RealSquare(p);
    RealSquare(q);
    var a, b := p as real, q as real;
    assert (a / 6.0) * (a / 6.0) == (a * a) / 36.0;
    assert (b / 4.0) * (b / 4.0) == (b * b) / 16.0;
  }

  lemma RealSquare(p: int)
    ensures (p * p) as real == (p as real) * (p as real)
  {
  }

  /** The real-valued ring test is the integer one. */
  lemma InRingInteger(cell: Cell)
    ensures InRing(cell) <==> 101 <= RingScore(cell) <= 172
  {
    RingDistScaled(cell);
  }

  /**
   On integer cells the distance stays at least 1/720 away from both
   thresholds, far more than the rounding error of the floating-point
   evaluation, so the float test draws the same ring as the exact one.
   */
  lemma RingMargin(cell: Cell)
    ensures RingDist(cell) <= 0.7 - 1.0 / 720.0 || RingDist(cell) >= 0.7 + 1.0 / 720.0
    ensures RingDist(cell) <= 1.2 - 1.0 / 720.0 || RingDist(cell) >= 1.2 + 1.0 / 720.0
  {
    RingDistScaled(cell);
    var d := RingScore(cell);
    assert d <= 100 || d >= 101;
    assert d <= 172 || d >= 173;
  }

  /** The cells the nested loops write are those of the oval ring over rows 6..21 and columns 8..19. */
  lemma StrokesRing(cell: Cell)
    ensures cell in Strokes0() <==> Rect(cell, 6, 22, 8, 20) && InRing(cell)
  {
    if cell in Strokes0() {
      RingOnly(cell);
    }
    if Rect(cell, 6, 22, 8, 20) && InRing(cell) {
      RingAll(cell);
    }
  }

  lemma RingOnly(cell: Cell)
    requires cell in Strokes0()
    ensures Rect(cell, 6, 22, 8, 20) && InRing(cell)
  {
    ForMember(Range(6, 22), RingRow, cell);
    var row :| row in Range(6, 22) && cell in RingRow(row);
    RangeMember(6, 22, row);
    RingRowCells(row, cell);
  }

  lemma RingAll(cell: Cell)
    requires Rect(cell, 6, 22, 8, 20) && InRing(cell)
    ensures cell in Strokes0()
  {
    RingRowCells(cell.0, cell);
    RangeMember(6, 22, cell.0);
    ForMember(Range(6, 22), RingRow, cell);
  }

  lemma Strokes0Cells(cell: Cell)
    ensures cell in Strokes0() <==> Shape0(cell)
  {
    StrokesRing(cell);
    InRingInteger(cell);
  }

  lemma Strokes0Shape()
    ensures AllInBounds(Strokes0())
    ensures forall cell :: cell in Strokes0() <==> Shape0(cell)
  {
    forall cell
      ensures (cell in Strokes0() <==> Shape0(cell)) && (cell in Strokes0() ==> InBounds(cell))
    {
      Strokes0Cells(cell);
      StrokesRing(cell);
    }
  }
  lemma Digit0Shape()
    ensures forall r, c :: 0 <= r < Side && 0 <= c < Side ==> Digit(0)[r][c] == if Shape0((r, c)) then 255 else 0
  {
    Strokes0Shape();
  }


  // ---------------------------------------------------------------- digit 1

  function Strokes1(): seq<Cell>
  {
    VBars(Range(13, 15), Range(4, 24))   // vertical line
    + HBars(Range(5, 7), Range(11, 13))  // small top serif
  }

  /** A two-pixel stem over rows 4..23 with a serif at rows 5..6, columns 11..12. */
  predicate Shape1(cell: Cell)
  {
    Rect(cell, 4, 24, 13, 15) || Rect(cell, 5, 7, 11, 13)
  }

  lemma Strokes1Cells(cell: Cell)
    ensures cell in Strokes1() <==> Shape1(cell)
  {
    VBarsRect(4, 24, 13, 15, cell);
    HBarsRect(5, 7, 11, 13, cell);
  }

  lemma Strokes1Shape()
    ensures AllInBounds(Strokes1())
    ensures forall cell :: cell in Strokes1() <==> Shape1(cell)
  {
    forall cell
      ensures cell in Strokes1() <==> Shape1(cell)
    {
      Strokes1Cells(cell);
    }
    ShapeInBounds(1);
  }
  lemma Digit1Shape()
    ensures forall r, c :: 0 <= r < Side && 0 <= c < Side ==> Digit(1)[r][c] == if Shape1((r, c)) then 255 else 0
  {
    Strokes1Shape();
  }


  // ---------------------------------------------------------------- digit 7

  /** One iteration of the guarded diagonal loop of `create_digit_7`. */
  function Diag7(i: int): (cells: seq<Cell>)
    ensures AllInBounds(cells) && |cells| <= 2
  {
    var row := 7 + i;
    var col := 20 - i;
    if InBounds((row, col)) then [(row, col)] + (if col + 1 < Side then [(row, col + 1)] else []) else []
  }

  /** Over the loop's range both guards hold: every iteration writes its two cells. */
  lemma Diag7Unguarded(i: int)
    requires 0 <= i < 18
    ensures Diag7(i) == [(7 + i, 20 - i), (7 + i, 21 - i)]
  {
  }

  function Strokes7(): seq<Cell>
  {
    HBars(Range(4, 7), Range(6, 22))  // horizontal line at the top
    + For(Range(0, 18), Diag7)        // diagonal going down-left
  }

  /** The two-pixel diagonal from (7, 20) down to (24, 3). */
  predicate Diag7Line(cell: Cell)
  {
    7 <= cell.0 < 25 && (cell.1 == 27 - cell.0 || cell.1 == 28 - cell.0)
  }

  /** The top bar and the diagonal. */
  predicate Shape7(cell: Cell)
  {
    Rect(cell, 4, 7, 6, 22) || Diag7Line(cell)
  }

  lemma Diag7Cells(cell: Cell)
    ensures cell in For(Range(0, 18), Diag7) <==> Diag7Line(cell)
  {
    ForMember(Range(0, 18), Diag7, cell);
    if cell in For(Range(0, 18), Diag7) {
      var i :| i in Range(0, 18) && cell in Diag7(i);
      RangeMember(0, 18, i);
      Diag7Unguarded(i);
    }
    if Diag7Line(cell) {
      Diag7Unguarded(cell.0 - 7);
      RangeMember(0, 18, cell.0 - 7);
      assert cell in Diag7(cell.0 - 7);
    }
  }

  lemma Strokes7Cells(cell: Cell)
    ensures cell in Strokes7() <==> Shape7(cell)
  {
    HBarsRect(4, 7, 6, 22, cell);
    Diag7Cells(cell);
  }

  lemma Strokes7Shape()
    ensures AllInBounds(Strokes7())
    ensures forall cell :: cell in Strokes7() <==> Shape7(cell)
  {
    forall cell
      ensures cell in Strokes7() <==> Shape7(cell)
    {
      Strokes7Cells(cell);
    }
    ShapeInBounds(7);
  }
  lemma Digit7Shape()
    ensures forall r, c :: 0 <= r < Side && 0 <= c < Side ==> Digit(7)[r][c] == if Shape7((r, c)) then 255 else 0
  {
    Strokes7Shape();
  }


  // ---------------------------------------------------------------- digit 2

  /** `int(((col - 14) ** 2) / 10)`: the numerator is never negative, so truncation is floor division. */
  function CurveDrop(col: int): int
  {
    ((col - 14) * (col - 14)) / 10
  }

  /** One iteration of the guarded top-curve loop of `create_digit_2`. */
  function Curve2(col: int): (cells: seq<Cell>)
    ensures |cells| <= 1
    ensures forall cell :: cell in cells ==> cell.1 == col && 0 <= cell.0 < Side
  {
    var row := 6 + CurveDrop(col);
    if 0 <= row < Side then [(row, col)] else []
  }

  /** One iteration of the guarded diagonal loop of `create_digit_2`. */
  function Diag2(i: int): (cells: seq<Cell>)
    ensures AllInBounds(cells) && |cells| <= 1
  {
    var row := 12 + i;
    var col := 18 - i;
    if InBounds((row, col)) then [(row, col)] else []
  }

  /** Over the top-curve loop's range the guard holds: the curve stays within rows 6..9. */
  lemma Curve2Unguarded(col: int)
    requires 8 <= col < 20
    ensures 6 <= 6 + CurveDrop(col) <= 9
    ensures Curve2(col) == [(6 + CurveDrop(col), col)]
  {
    var d := col - 14;
    assert -6 <= d <= 5;
    assert 0 <= d * d <= 36 by {
      if d < 0 {
        assert d * d == (-d) * (-d);
      }
    }
  }

  /** Over the diagonal loop's range the guard holds: every iteration writes its cell. */
  lemma Diag2Unguarded(i: int)
    requires 0 <= i < 10
    ensures Diag2(i) == [(12 + i, 18 - i)]
  {
  }

  function Strokes2(): seq<Cell>
  {
    For(Range(8, 20), Curve2)             // top curve
    + For(Range(0, 10), Diag2)            // diagonal
    + HBars(Range(22, 24), Range(8, 20))  // bottom horizontal
  }

  /** A parabola over columns 8..19, a diagonal from (12, 18) to (21, 9), and the base. */
  predicate Shape2(cell: Cell)
  {
    Curve2Line(cell) || Diag2Line(cell) || Rect(cell, 22, 24, 8, 20)
  }

  /** The parabola: one cell per column 8..19, `CurveDrop` rows below row 6. */
  predicate Curve2Line(cell: Cell)
  {
    8 <= cell.1 < 20 && cell.0 == 6 + CurveDrop(cell.1)
  }

  /** The diagonal from (12, 18) to (21, 9). */
  predicate Diag2Line(cell: Cell)
  {
    12 <= cell.0 < 22 && cell.1 == 30 - cell.0
  }

  lemma Strokes2Cells(cell: Cell)
    ensures cell in Strokes2() <==> Shape2(cell)
  {
    Curve2Cells(cell);
    Diag2Cells(cell);
    HBarsRect(22, 24, 8, 20, cell);
  }

  lemma Curve2Cells(cell: Cell)
    ensures cell in For(Range(8, 20), Curve2) <==> Curve2Line(cell)
  {
    ForMember(Range(8, 20), Curve2, cell);
    if cell in For(Range(8, 20), Curve2) {
      var col :| col in Range(8, 20) && cell in Curve2(col);
      RangeMember(8, 20, col);
      Curve2Unguarded(col);
    }
    if Curve2Line(cell) {
      Curve2Unguarded(cell.1);
      RangeMember(8, 20, cell.1);
      assert cell in Curve2(cell.1);
    }
  }

  lemma Diag2Cells(cell: Cell)
    ensures cell in For(Range(0, 10), Diag2) <==> Diag2Line(cell)
  {
    ForMember(Range(0, 10), Diag2, cell);
    if cell in For(Range(0, 10), Diag2) {
      var i :| i in Range(0, 10) && cell in Diag2(i);
      RangeMember(0, 10, i);
      Diag2Unguarded(i);
    }
    if Diag2Line(cell) {
      Diag2Unguarded(cell.0 - 12);
      RangeMember(0, 10, cell.0 - 12);
      assert cell in Diag2(cell.0 - 12);
    }
  }

  lemma Strokes2Shape()
    ensures AllInBounds(Strokes2())
    ensures forall cell :: cell in Strokes2() <==> Shape2(cell)
  {
    forall cell
      ensures cell in Strokes2() <==> Shape2(cell)
    {
      Strokes2Cells(cell);
    }
    ShapeInBounds(2);
  }
  lemma Digit2Shape()
    ensures forall r, c :: 0 <= r < Side && 0 <= c < Side ==> Digit(2)[r][c] == if Shape2((r, c)) then 255 else 0
  {
    Strokes2Shape();
  }


  // ---------------------------------------------------------------- digit 3

  function Strokes3(): seq<Cell>
  {
    HBars(Range(5, 7), Range(8, 18))       // top horizontal
    + HBars(Range(13, 15), Range(10, 18))  // middle horizontal
    + HBars(Range(21, 23), Range(8, 18))   // bottom horizontal
    + VBars(Range(17, 18), Range(7, 13))   // right vertical sections
    + VBars(Range(17, 18), Range(15, 21))
  }

  predicate Shape3(cell: Cell)
  {
    Rect(cell, 5, 7, 8, 18) || Rect(cell, 13, 15, 10, 18) || Rect(cell, 21, 23, 8, 18)
    || Rect(cell, 7, 13, 17, 18) || Rect(cell, 15, 21, 17, 18)
  }

  lemma Strokes3Cells(cell: Cell)
    ensures cell in Strokes3() <==> Shape3(cell)
  {
    HBarsRect(5, 7, 8, 18, cell);
    HBarsRect(13, 15, 10, 18, cell);
    HBarsRect(21, 23, 8, 18, cell);
    VBarsRect(7, 13, 17, 18, cell);
    VBarsRect(15, 21, 17, 18, cell);
  }

  lemma Strokes3Shape()
    ensures AllInBounds(Strokes3())
    ensures forall cell :: cell in Strokes3() <==> Shape3(cell)
  {
    forall cell
      ensures cell in Strokes3() <==> Shape3(cell)
    {
      Strokes3Cells(cell);
    }
    ShapeInBounds(3);
  }
  lemma Digit3Shape()
    ensures forall r, c :: 0 <= r < Side && 0 <= c < Side ==> Digit(3)[r][c] == if Shape3((r, c)) then 255 else 0
  {
    Strokes3Shape();
  }


  // ---------------------------------------------------------------- digit 4

  /** One iteration of the guarded diagonal loop of `create_digit_4`; `i // 2` is floor division. */
  function Diag4(i: int): (cells: seq<Cell>)
    ensures AllInBounds(cells) && |cells| <= 1
  {
    var row := 6 + i;
    var col := 6 + i / 2;
    if InBounds((row, col)) then [(row, col)] else []
  }

  /** Over the loop's range the guard holds: every iteration writes its cell. */
  lemma Diag4Unguarded(i: int)
    requires 0 <= i < 12
    ensures Diag4(i) == [(6 + i, 6 + i / 2)]
  {
  }

  function Strokes4(): seq<Cell>
  {
    For(Range(0, 12), Diag4)              // left diagonal
    + HBars(Range(16, 18), Range(6, 20))  // horizontal bar
    + VBars(Range(16, 18), Range(4, 24))  // right vertical
  }

  /** A steep diagonal from (6, 6) to (17, 11), the crossbar and the right stem. */
  predicate Shape4(cell: Cell)
  {
    Diag4Line(cell) || Rect(cell, 16, 18, 6, 20) || Rect(cell, 4, 24, 16, 18)
  }

  /** The steep diagonal: rows 6..17, advancing one column every two rows. */
  predicate Diag4Line(cell: Cell)
  {
    6 <= cell.0 < 18 && cell.1 == 6 + (cell.0 - 6) / 2
  }

  lemma Strokes4Cells(cell: Cell)
    ensures cell in Strokes4() <==> Shape4(cell)
  {
    Diag4Cells(cell);
    HBarsRect(16, 18, 6, 20, cell);
    VBarsRect(4, 24, 16, 18, cell);
  }

  lemma Diag4Cells(cell: Cell)
    ensures cell in For(Range(0, 12), Diag4) <==> Diag4Line(cell)
  {
    ForMember(Range(0, 12), Diag4, cell);
    if cell in For(Range(0, 12), Diag4) {
      var i :| i in Range(0, 12) && cell in Diag4(i);
      RangeMember(0, 12, i);
      Diag4Unguarded(i);
    }
    if Diag4Line(cell) {
      Diag4Unguarded(cell.0 - 6);
      RangeMember(0, 12, cell.0 - 6);
      assert cell in Diag4(cell.0 - 6);
    }
  }

  lemma Strokes4Shape()
    ensures AllInBounds(Strokes4())
    ensures forall cell :: cell in Strokes4() <==> Shape4(cell)
  {
    forall cell
      ensures cell in Strokes4() <==> Shape4(cell)
    {
      Strokes4Cells(cell);
    }
    ShapeInBounds(4);
  }
  lemma Digit4Shape()
    ensures forall r, c :: 0 <= r < Side && 0 <= c < Side ==> Digit(4)[r][c] == if Shape4((r, c)) then 255 else 0
  {
    Strokes4Shape();
  }


  // ---------------------------------------------------------------- digit 5

  function Strokes5(): seq<Cell>
  {
    HBars(Range(5, 7), Range(8, 20))       // top horizontal
    + VBars(Range(8, 10), Range(7, 14))    // left vertical, top half
    + HBars(Range(13, 15), Range(8, 18))   // middle horizontal
    + VBars(Range(17, 18), Range(15, 22))  // right side, bottom
    + HBars(Range(22, 24), Range(9, 17))   // bottom horizontal
  }

  predicate Shape5(cell: Cell)
  {
    Rect(cell, 5, 7, 8, 20) || Rect(cell, 7, 14, 8, 10) || Rect(cell, 13, 15, 8, 18)
    || Rect(cell, 15, 22, 17, 18) || Rect(cell, 22, 24, 9, 17)
  }

  lemma Strokes5Cells(cell: Cell)
    ensures cell in Strokes5() <==> Shape5(cell)
  {
    HBarsRect(5, 7, 8, 20, cell);
    VBarsRect(7, 14, 8, 10, cell);
    HBarsRect(13, 15, 8, 18, cell);
    VBarsRect(15, 22, 17, 18, cell);
    HBarsRect(22, 24, 9, 17, cell);
  }

  lemma Strokes5Shape()
    ensures AllInBounds(Strokes5())
    ensures forall cell :: cell in Strokes5() <==> Shape5(cell)
  {
    forall cell
      ensures cell in Strokes5() <==> Shape5(cell)
    {
      Strokes5Cells(cell);
    }
    ShapeInBounds(5);
  }
  lemma Digit5Shape()
    ensures forall r, c :: 0 <= r < Side && 0 <= c < Side ==> Digit(5)[r][c] == if Shape5((r, c)) then 255 else 0
  {
    Strokes5Shape();
  }


  // ---------------------------------------------------------------- digit 6

  function Strokes6(): seq<Cell>
  {
    VBars(Range(8, 10), Range(6, 23))      // left vertical
    + HBars(Range(6, 8), Range(10, 16))    // top curve
    + HBars(Range(21, 23), Range(10, 18))  // bottom loop
    + VBars(Range(17, 18), Range(15, 22))
    + HBars(Range(15, 16), Range(10, 18))
  }

  predicate Shape6(cell: Cell)
  {
    Rect(cell, 6, 23, 8, 10) || Rect(cell, 6, 8, 10, 16) || Rect(cell, 21, 23, 10, 18)
    || Rect(cell, 15, 22, 17, 18) || Rect(cell, 15, 16, 10, 18)
  }

  lemma Strokes6Cells(cell: Cell)
    ensures cell in Strokes6() <==> Shape6(cell)
  {
    VBarsRect(6, 23, 8, 10, cell);
    HBarsRect(6, 8, 10, 16, cell);
    HBarsRect(21, 23, 10, 18, cell);
    VBarsRect(15, 22, 17, 18, cell);
    HBarsRect(15, 16, 10, 18, cell);
  }

  lemma Strokes6Shape()
    ensures AllInBounds(Strokes6())
    ensures forall cell :: cell in Strokes6() <==> Shape6(cell)
  {
    forall cell
      ensures cell in Strokes6() <==> Shape6(cell)
    {
      Strokes6Cells(cell);
    }
    ShapeInBounds(6);
  }
  lemma Digit6Shape()
    ensures forall r, c :: 0 <= r < Side && 0 <= c < Side ==> Digit(6)[r][c] == if Shape6((r, c)) then 255 else 0
  {
    Strokes6Shape();
  }


  // ---------------------------------------------------------------- digit 8

  function Strokes8(): seq<Cell>
  {
    HBars(Pair(6, 13), Range(10, 18))      // top loop
    + VBars(Pair(10, 17), Range(7, 13))
    + HBars(Range(22, 23), Range(10, 18))  // bottom loop
    + VBars(Pair(10, 17), Range(14, 22))
  }

  /** Two stacked boxes; row 13 closes the upper box and opens the lower one. */
  predicate Shape8(cell: Cell)
  {
    Rect(cell, 6, 7, 10, 18) || Rect(cell, 13, 14, 10, 18) || Rect(cell, 22, 23, 10, 18)
    || (7 <= cell.0 < 22 && cell.0 != 13 && (cell.1 == 10 || cell.1 == 17))
  }

  lemma Strokes8Cells(cell: Cell)
    ensures cell in Strokes8() <==> Shape8(cell)
  {
    HBarsPair(6, 13, 10, 18, cell);
    VBarsPair(10, 17, 7, 13, cell);
    HBarsRect(22, 23, 10, 18, cell);
    VBarsPair(10, 17, 14, 22, cell);
  }

  lemma Strokes8Shape()
    ensures AllInBounds(Strokes8())
    ensures forall cell :: cell in Strokes8() <==> Shape8(cell)
  {
    forall cell
      ensures cell in Strokes8() <==> Shape8(cell)
    {
      Strokes8Cells(cell);
    }
    ShapeInBounds(8);
  }
  lemma Digit8Shape()
    ensures forall r, c :: 0 <= r < Side && 0 <= c < Side ==> Digit(8)[r][c] == if Shape8((r, c)) then 255 else 0
  {
    Strokes8Shape();
  }


  // ---------------------------------------------------------------- digit 9

  function Strokes9(): seq<Cell>
  {
    HBars(Pair(6, 13), Range(10, 18))      // top loop
    + VBars(Pair(10, 17), Range(7, 13))
    + VBars(Range(17, 19), Range(14, 23))  // right vertical tail
  }

  /** A box over rows 6..13 and a two-pixel tail on columns 17..18 below it. */
  predicate Shape9(cell: Cell)
  {
    Rect(cell, 6, 7, 10, 18) || Rect(cell, 13, 14, 10, 18)
    || (7 <= cell.0 < 13 && (cell.1 == 10 || cell.1 == 17))
    || Rect(cell, 14, 23, 17, 19)
  }

  lemma Strokes9Cells(cell: Cell)
    ensures cell in Strokes9() <==> Shape9(cell)
  {
    HBarsPair(6, 13, 10, 18, cell);
    VBarsPair(10, 17, 7, 13, cell);
    VBarsRect(14, 23, 17, 19, cell);
  }

  lemma Strokes9Shape()
    ensures AllInBounds(Strokes9())
    ensures forall cell :: cell in Strokes9() <==> Shape9(cell)
  {
    forall cell
      ensures cell in Strokes9() <==> Shape9(cell)
    {
      Strokes9Cells(cell);
    }
    ShapeInBounds(9);
  }
  lemma Digit9Shape()
    ensures forall r, c :: 0 <= r < Side && 0 <= c < Side ==> Digit(9)[r][c] == if Shape9((r, c)) then 255 else 0
  {
    Strokes9Shape();
  }


  // ---------------------------------------------------------------- all digits

  /** The cells `create_digit_d` writes, in the order it writes them. */
  function Strokes(d: int): seq<Cell>
    requires 0 <= d < 10
  {
    if d == 0 then Strokes0()
    else if d == 1 then Strokes1()
    else if d == 2 then Strokes2()
    else if d == 3 then Strokes3()
    else if d == 4 then Strokes4()
    else if d == 5 then Strokes5()
    else if d == 6 then Strokes6()
    else if d == 7 then Strokes7()
    else if d == 8 then Strokes8()
    else Strokes9()
  }

  /** Every digit writes only in-bounds cells, and exactly the cells of its region. */
  lemma StrokesShape(d: int)
    requires 0 <= d < 10
    ensures AllInBounds(Strokes(d))
    ensures forall cell :: cell in Strokes(d) <==> Shape(d, cell)
  {
    if d == 0 { Strokes0Shape(); }
    else if d == 1 { Strokes1Shape(); }
    else if d == 2 { Strokes2Shape(); }
    else if d == 3 { Strokes3Shape(); }
    else if d == 4 { Strokes4Shape(); }
    else if d == 5 { Strokes5Shape(); }
    else if d == 6 { Strokes6Shape(); }
    else if d == 7 { Strokes7Shape(); }
    else if d == 8 { Strokes8Shape(); }
    else { Strokes9Shape(); }
  }

  /** `generators[d]()`, i.e. `create_digit_d()`: a 28 x 28 grid of 0s and 255s. */
  function Digit(d: int): (img: Image)
    requires 0 <= d < 10
    ensures IsGrid(img) && IsBinary(img)
  {
    StrokesShape(d);
    Draw(Strokes(d))
  }

  /** Every region lies inside the 28 x 28 grid. */
  lemma ShapeInBounds(d: int)
    requires 0 <= d < 10
    ensures forall cell :: Shape(d, cell) ==> InBounds(cell)
  {
  }

  /** The region drawn for digit `d`. */
  predicate Shape(d: int, cell: Cell)
    requires 0 <= d < 10
  {
    if d == 0 then Shape0(cell)
    else if d == 1 then Shape1(cell)
    else if d == 2 then Shape2(cell)
    else if d == 3 then Shape3(cell)
    else if d == 4 then Shape4(cell)
    else if d == 5 then Shape5(cell)
    else if d == 6 then Shape6(cell)
    else if d == 7 then Shape7(cell)
    else if d == 8 then Shape8(cell)
    else Shape9(cell)
  }
}
