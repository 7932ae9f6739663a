/**
 * The sheet template of a label sheet and the pixel geometry derived from it
 * (`SheetTemplate` in netbox_qrcode/qrinventory.py).
 *
 * Lengths are in inches, as exact reals; `scale` is the print resolution in
 * dots per inch. Every pixel value is Python's `int()` of a scaled length,
 * which truncates toward zero; `Trunc` writes that out.
 */
module Sheet {
  import opened Outcomes

  /** The template's options. There is no `marginRight`/`marginBottom` in any
      pixel formula: they are carried and ignored, as in the source. */
  datatype SheetConfig = SheetConfig(
    rows: int,            // labels down a page
    cols: int,            // labels across a page
    height: real,         // label height, inches
    width: real,          // label width, inches
    marginTop: real,
    marginBottom: real,
    marginLeft: real,
    marginRight: real,
    paddingBottom: real,
    paddingRight: real,
    scale: int)           // dots per inch

  datatype ConfigError = NonPositiveRows | NonPositiveCols | NonPositiveScale

  const DefaultScale: int := 300

  /** A grid with at least one cell, at a positive resolution. */
  predicate Valid(c: SheetConfig) {
    c.rows > 0 && c.cols > 0 && c.scale > 0
  }

  /** Physical lengths that are not negative; then `int()` is the floor. */
  predicate NonNegative(c: SheetConfig) {
    c.height >= 0.0 && c.width >= 0.0 && c.marginTop >= 0.0 && c.marginLeft >= 0.0
    && c.paddingBottom >= 0.0 && c.paddingRight >= 0.0
  }

  /** Builds a template from its options, rejecting an empty grid or a
      non-positive resolution. Margins and paddings default to 0 inches and
      the resolution to 300 dpi, as the class attributes do. */
  function Make(rows: int, cols: int, height: real, width: real,
                marginTop: real := 0.0, marginBottom: real := 0.0,
                marginLeft: real := 0.0, marginRight: real := 0.0,
                paddingBottom: real := 0.0, paddingRight: real := 0.0,
                scale: int := DefaultScale): (r: Result<SheetConfig, ConfigError>)
    ensures r.Success? <==> rows > 0 && cols > 0 && scale > 0
    ensures r.Success? ==>
              && Valid(r.value) && r.value.rows == rows && r.value.cols == cols
              && r.value.height == height && r.value.width == width
              && r.value.marginTop == marginTop && r.value.marginBottom == marginBottom
              && r.value.marginLeft == marginLeft && r.value.marginRight == marginRight
              && r.value.paddingBottom == paddingBottom && r.value.paddingRight == paddingRight
              && r.value.scale == scale
    ensures r.Failure? ==> (r.error == NonPositiveRows <==> rows <= 0)
    ensures r.Failure? && rows > 0 ==> (r.error == NonPositiveCols <==> cols <= 0)
  {
    if rows <= 0 then Failure(NonPositiveRows)
    else if cols <= 0 then Failure(NonPositiveCols)
    else if scale <= 0 then Failure(NonPositiveScale)
    else Success(SheetConfig(rows, cols, height, width, marginTop, marginBottom,
                             marginLeft, marginRight, paddingBottom, paddingRight, scale))
  }

  /** The template built by the program's `main`: 3 x 10 labels of
      2.625 x 1 inches, 0.13 inches apart horizontally, at 300 dpi. */
  const MainTemplate: SheetConfig :=
    SheetConfig(10, 3, 1.0, 2.625, 0.0, 0.25, 0.0, 0.25, 0.0, 0.13, DefaultScale)

  /** Python's `int()` on a float: rounds toward zero. */
  function Trunc(x: real): int {
    if x >= 0.0 then x.Floor else -((-x).Floor)
  }

  /** The scaled value of a length, in fractional pixels. */
  function Px(c: SheetConfig, inches: real): real {
    c.scale as real * inches
  }

  /** Physical width of the page: the left margin, `cols` labels and the
      `cols - 1` gaps between them. */
  function PageExtentX(c: SheetConfig): real {
    c.marginLeft + c.cols as real * c.width + (c.cols - 1) as real * c.paddingRight
  }

  /** Physical height of the page: the top margin, `rows` labels and the
      `rows - 1` gaps between them. */
  function PageExtentY(c: SheetConfig): real {
    c.marginTop + c.rows as real * c.height + (c.rows - 1) as real * c.paddingBottom
  }

  /** Offset of a cell from the page's left or top edge, in inches. */
  function CellOffset(margin: real, index: int, size: real, padding: real): real {
    margin + index as real * (size + padding)
  }

  /** Page width in pixels: the whole pixels covered by the physical width. */
  function PageWidth(c: SheetConfig): int {
    Trunc(Px(c, PageExtentX(c)))
  }

  /** Page height in pixels: the whole pixels covered by the physical height. */
  function PageHeight(c: SheetConfig): int {
    Trunc(Px(c, PageExtentY(c)))
  }

  /** The page's (width, height) in pixels. */
  function PageSize(c: SheetConfig): (int, int) {
    (PageWidth(c), PageHeight(c))
  }

  /** Label width in pixels. */
  function LabelWidth(c: SheetConfig): int {
    Trunc(Px(c, c.width))
  }

  /** Label height in pixels. */
  function LabelHeight(c: SheetConfig): int {
    Trunc(Px(c, c.height))
  }

  /** The label's (width, height) in pixels. */
  function LabelSize(c: SheetConfig): (int, int) {
    (LabelWidth(c), LabelHeight(c))
  }

  /** Pixel origin of the cell in column `col` and row `row`. */
  function LabelBox(c: SheetConfig, col: int, row: int): (int, int) {
    (Trunc(Px(c, CellOffset(c.marginLeft, col, c.width, c.paddingRight))),
     Trunc(Px(c, CellOffset(c.marginTop, row, c.height, c.paddingBottom))))
  }

  // ---------------------------------------------------------------------
  // Properties of the geometry

  /** `Trunc` rounds toward zero: down for non-negative values, up for
      negative ones. */
  lemma TruncTowardZero(x: real)
    ensures 0.0 <= x ==> 0 <= Trunc(x) && Trunc(x) as real <= x < Trunc(x) as real + 1.0
    ensures x < 0.0 ==> Trunc(x) <= 0 && Trunc(x) as real - 1.0 < x <= Trunc(x) as real
  {
  }

  /** For a template with non-negative lengths, every pixel value is the
      number of whole pixels covered by the scaled physical length. */
  lemma PixelsAreWholeScaledLengths(c: SheetConfig, col: nat, row: nat)
    requires Valid(c) && NonNegative(c)
    ensures PageWidth(c) as real <= Px(c, PageExtentX(c)) < PageWidth(c) as real + 1.0
    ensures PageHeight(c) as real <= Px(c, PageExtentY(c)) < PageHeight(c) as real + 1.0
    ensures LabelWidth(c) as real <= Px(c, c.width) < LabelWidth(c) as real + 1.0
    ensures LabelHeight(c) as real <= Px(c, c.height) < LabelHeight(c) as real + 1.0
    ensures LabelBox(c, col, row).0 as real <= Px(c, CellOffset(c.marginLeft, col, c.width, c.paddingRight))
                                             < LabelBox(c, col, row).0 as real + 1.0
    ensures LabelBox(c, col, row).1 as real <= Px(c, CellOffset(c.marginTop, row, c.height, c.paddingBottom))
                                             < LabelBox(c, col, row).1 as real + 1.0
  {
    CellInPageX(c, 0);
    CellInPageY(c, 0);
    CellsApart(c.marginLeft, c.width, c.paddingRight, col, col + 1);
    CellsApart(c.marginTop, c.height, c.paddingBottom, row, row + 1);
    PixelBounds(c, PageExtentX(c));
    PixelBounds(c, PageExtentY(c));
    PixelBounds(c, c.width);
    PixelBounds(c, c.height);
    PixelBounds(c, CellOffset(c.marginLeft, col, c.width, c.paddingRight));
    PixelBounds(c, CellOffset(c.marginTop, row, c.height, c.paddingBottom));
  }

  /** The pixel count of one non-negative length. */
  lemma PixelBounds(c: SheetConfig, x: real)
    requires Valid(c) && 0.0 <= x
    ensures 0 <= Trunc(Px(c, x)) && Trunc(Px(c, x)) as real <= Px(c, x) < Trunc(Px(c, x)) as real + 1.0
  {
    MulNonNeg(c.scale as real, x);
    TruncTowardZero(Px(c, x));
  }

  /** The right and bottom margins never reach the page size. */
  lemma PageSizeIgnoresFarMargins(c: SheetConfig, right: real, bottom: real)
    ensures PageSize(c.(marginRight := right, marginBottom := bottom)) == PageSize(c)
  {
    var d := c.(marginRight := right, marginBottom := bottom);
    assert PageExtentX(d) == PageExtentX(c) && PageExtentY(d) == PageExtentY(c);
    assert Px(d, PageExtentX(d)) == Px(c, PageExtentX(c));
    assert Px(d, PageExtentY(d)) == Px(c, PageExtentY(c));
  }

  /** The `main` template: 2440 x 3000 pages of 787 x 300 labels, the second
      column starting at pixel 826. */
  lemma MainTemplateGeometry()
    ensures PageSize(MainTemplate) == (2440, 3000)
    ensures LabelSize(MainTemplate) == (787, 300)
    ensures LabelBox(MainTemplate, 0, 0) == (0, 0)
    ensures LabelBox(MainTemplate, 1, 0) == (826, 0)
  {
    assert Px(MainTemplate, PageExtentX(MainTemplate)) == 2440.5;
    assert Px(MainTemplate, PageExtentY(MainTemplate)) == 3000.0;
    assert Px(MainTemplate, MainTemplate.width) == 787.5;
    assert Px(MainTemplate, CellOffset(0.0, 1, 2.625, 0.13)) == 826.5;
  }

  /** The first cell starts at the scaled left and top margins. */
  lemma LabelBoxAtOrigin(c: SheetConfig)
    ensures LabelBox(c, 0, 0) == (Trunc(Px(c, c.marginLeft)), Trunc(Px(c, c.marginTop)))
  {
  }

  /** Truncation of non-negative values is superadditive. */
  lemma TruncAdd(x: real, y: real)
    requires 0.0 <= x && 0.0 <= y
    ensures Trunc(x) + Trunc(y) <= Trunc(x + y)
  {
    TruncTowardZero(x);
    TruncTowardZero(y);
    TruncTowardZero(x + y);
  }

  /** Truncation of non-negative values is monotonic. */
  lemma TruncMono(x: real, y: real)
    requires 0.0 <= x <= y
    ensures Trunc(x) <= Trunc(y)
  {
    TruncTowardZero(x);
    TruncTowardZero(y);
  }

  lemma MulNonNeg(a: real, b: real)
    requires 0.0 <= a && 0.0 <= b
    ensures 0.0 <= a * b
  {
  }

  lemma MulMono(s: real, x: real, y: real)
    requires 0.0 <= s && x <= y
    ensures s * x <= s * y
  {
  }

  lemma Distrib(s: real, x: real, y: real)
    ensures s * (x + y) == s * x + s * y
  {
  }

  /** The physical facts behind `AxisFits`: with pitch `p = size + padding`,
      a label in cell `i` ends before cell `j > i` starts and before the
      end of a run of `j` cells. */
  lemma AxisGap(margin: real, size: real, padding: real, i: int, j: int)
    requires 0.0 <= size && 0.0 <= padding && 0 <= i < j
    ensures margin + i as real * (size + padding) + size <= margin + j as real * (size + padding)
    ensures margin + i as real * (size + padding) + size <= margin + j as real * size + (j - 1) as real * padding
  {
    var p := size + padding;
    var k := (j - i - 1) as real;
    MulNonNeg(k, p);
    Distrib(p, i as real, k + 1.0);
    assert j as real * p == i as real * p + k * p + p;
    Distrib(j as real, size, padding);
    Distrib(padding, j as real, -1.0);
  }

  /** Truncation of a sum of two non-negative pixel lengths covers the two
      truncations side by side. */
  lemma TruncRun(x: real, y: real, z: real)
    requires 0.0 <= x && 0.0 <= y && x + y <= z
    ensures Trunc(x) + Trunc(y) <= Trunc(z)
  {
    TruncAdd(x, y);
    TruncMono(x + y, z);
  }

  /** Two non-negative lengths side by side within a third: their pixel
      counts side by side stay within the third's. */
  lemma PixelRun(c: SheetConfig, x: real, y: real, z: real)
    requires Valid(c) && 0.0 <= x && 0.0 <= y && x + y <= z
    ensures Trunc(Px(c, x)) + Trunc(Px(c, y)) <= Trunc(Px(c, z))
  {
    MulNonNeg(c.scale as real, x);
    MulNonNeg(c.scale as real, y);
    Distrib(c.scale as real, x, y);
    MulMono(c.scale as real, x + y, z);
    TruncRun(Px(c, x), Px(c, y), Px(c, z));
  }

  /** Physically, a label in cell `i` ends before cell `j > i` starts. */
  lemma CellsApart(margin: real, size: real, padding: real, i: int, j: int)
    requires 0.0 <= margin && 0.0 <= size && 0.0 <= padding && 0 <= i < j
    ensures 0.0 <= CellOffset(margin, i, size, padding)
    ensures CellOffset(margin, i, size, padding) + size <= CellOffset(margin, j, size, padding)
  {
    MulNonNeg(i as real, size + padding);
    AxisGap(margin, size, padding, i, j);
  }

  /** Physically, a label in any column ends within the page width. */
  lemma CellInPageX(c: SheetConfig, col: int)
    requires Valid(c) && NonNegative(c) && 0 <= col < c.cols
    ensures 0.0 <= CellOffset(c.marginLeft, col, c.width, c.paddingRight)
    ensures CellOffset(c.marginLeft, col, c.width, c.paddingRight) + c.width <= PageExtentX(c)
  {
    MulNonNeg(col as real, c.width + c.paddingRight);
    AxisGap(c.marginLeft, c.width, c.paddingRight, col, c.cols);
  }

  /** Physically, a label in any row ends within the page height. */
  lemma CellInPageY(c: SheetConfig, row: int)
    requires Valid(c) && NonNegative(c) && 0 <= row < c.rows
    ensures 0.0 <= CellOffset(c.marginTop, row, c.height, c.paddingBottom)
    ensures CellOffset(c.marginTop, row, c.height, c.paddingBottom) + c.height <= PageExtentY(c)
  {
    MulNonNeg(row as real, c.height + c.paddingBottom);
    AxisGap(c.marginTop, c.height, c.paddingBottom, row, c.rows);
  }

  /** A label placed in column `col` of the grid ends within the page width. */
  lemma LabelFitsAcross(c: SheetConfig, col: int, row: int)
    requires Valid(c) && NonNegative(c) && 0 <= col < c.cols
    ensures LabelBox(c, col, row).0 + LabelWidth(c) <= PageWidth(c)
  {
    CellInPageX(c, col);
    PixelRun(c, CellOffset(c.marginLeft, col, c.width, c.paddingRight), c.width, PageExtentX(c));
  }

  /** A label placed in row `row` of the grid ends within the page height. */
  lemma LabelFitsDown(c: SheetConfig, col: int, row: int)
    requires Valid(c) && NonNegative(c) && 0 <= row < c.rows
    ensures LabelBox(c, col, row).1 + LabelHeight(c) <= PageHeight(c)
  {
    CellInPageY(c, row);
    PixelRun(c, CellOffset(c.marginTop, row, c.height, c.paddingBottom), c.height, PageExtentY(c));
  }

  /** A label in column `col` ends no later than any column to its right begins. */
  lemma ColumnsApart(c: SheetConfig, col: int, other: int, row: int, otherRow: int)
    requires Valid(c) && NonNegative(c) && 0 <= col < other
    ensures LabelBox(c, col, row).0 + LabelWidth(c) <= LabelBox(c, other, otherRow).0
  {
    CellsApart(c.marginLeft, c.width, c.paddingRight, col, other);
    PixelRun(c, CellOffset(c.marginLeft, col, c.width, c.paddingRight), c.width,
             CellOffset(c.marginLeft, other, c.width, c.paddingRight));
  }

  /** A label in row `row` ends no later than any row below it begins. */
  lemma RowsApart(c: SheetConfig, row: int, other: int, col: int, otherCol: int)
    requires Valid(c) && NonNegative(c) && 0 <= row < other
    ensures LabelBox(c, col, row).1 + LabelHeight(c) <= LabelBox(c, otherCol, other).1
  {
    CellsApart(c.marginTop, c.height, c.paddingBottom, row, other);
    PixelRun(c, CellOffset(c.marginTop, row, c.height, c.paddingBottom), c.height,
             CellOffset(c.marginTop, other, c.height, c.paddingBottom));
  }
}
