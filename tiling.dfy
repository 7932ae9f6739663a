/**
 * Pagination and tiling (`SheetTemplate.render_pages` in
 * netbox_qrcode/qrinventory.py): label `i` goes to page
 * `floor(i / (rows * cols))`, to the row and column of its slot on that
 * page, and is pasted at that cell's pixel origin.
 */
module Tiling {
  import opened Sheet

  /** A rendered image, reduced to what tiling uses: its colour mode and size. */
  datatype Bitmap = Bitmap(mode: string, width: int, height: int)

  /** One `paste` onto a page: which label, the image, and its top-left corner. */
  datatype Placement = Placement(index: nat, image: Bitmap, x: int, y: int)

  /** A page canvas: its mode, its size, its background and what was pasted
      on it, in pasting order. */
  datatype Page = Page(mode: string, width: int, height: int, fill: string, pasted: seq<Placement>)

  datatype PageError =
    | NoLabels           // `qr_imgs[0]` on an empty list
    | NegativePageSize   // `Image.new` refuses a negative width or height

  const White: string := "white"

  // ---------------------------------------------------------------------
  // Integer arithmetic

  lemma MulLe(a: int, b: int, d: int)
    requires a <= b && 0 <= d
    ensures a * d <= b * d
  {
  }

  /** Quotient and remainder are the only pair with `x == q * d + r` and `0 <= r < d`. */
  lemma DivUnique(x: int, d: int, q: int, r: int)
    requires 0 < d && 0 <= r < d && x == q * d + r
    ensures x / d == q && x % d == r
  {
    var q', r' := x / d, x % d;
    if q' < q {
      MulLe(q' + 1, q, d);
      assert false;
    } else if q < q' {
      MulLe(q + 1, q', d);
      assert false;
    }
  }

  lemma CastMul(a: int, b: int)
    ensures (a * b) as real == a as real * b as real
  {
  }

  lemma DivTimes(x: real, d: real)
    requires 0.0 < d
    ensures (x / d) * d == x
  {
  }

  /** The exact quotient of two integers lies between `q` and `q + 1`. */
  lemma RealQuotient(x: int, d: int, q: int)
    requires 0 < d && q * d <= x < q * d + d
    ensures q as real <= x as real / d as real < q as real + 1.0
  {
    CastMul(q, d);
    CastMul(q + 1, d);
    var r := x as real / d as real;
    DivTimes(x as real, d as real);
    if r < q as real {
      MulMono(d as real, r, q as real);
      assert false;
    }
    if q as real + 1.0 <= r {
      MulMono(d as real, q as real + 1.0, r);
      assert false;
    }
  }

  /** `math.floor` and `int()` of an exact quotient by a positive divisor are
      Euclidean division. */
  lemma FloorQuotient(x: int, d: int)
    requires 0 < d
    ensures (x as real / d as real).Floor == x / d
    ensures 0 <= x ==> Trunc(x as real / d as real) == x / d
  {
    RealQuotient(x, d, x / d);
    TruncTowardZero(x as real / d as real);
    if 0 <= x {
      assert 0 <= x / d;
    }
  }

  lemma MulAssoc(a: int, b: int, c: int)
    ensures a * (b * c) == (a * b) * c
  {
  }

  lemma MulDistrib(a: int, b: int, k: int)
    ensures (a + b) * k == a * k + b * k
  {
  }

  lemma MulPos(a: int, b: int)
    requires 0 < a && 0 < b
    ensures 0 < a * b
  {
  }

  /** Splitting an index into a block of `r * k` and a slot inside it. */
  lemma TwoLevelDiv(i: int, r: int, k: int)
    requires 0 <= i && 0 < r && 0 < k
    ensures 0 < r * k
    ensures i / k == (i / (r * k)) * r + (i % (r * k)) / k
    ensures i % k == (i % (r * k)) % k
    ensures 0 <= (i % (r * k)) / k < r
  {
    MulPos(r, k);
    var n := r * k;
    var p, m := i / n, i % n;
    var q, s := m / k, m % k;
    assert i == p * n + m;
    assert m == q * k + s;
    MulAssoc(p, r, k);
    MulDistrib(p * r, q, k);
    assert i == (p * r + q) * k + s;
    DivUnique(i, k, p * r + q, s);
    if r <= q {
      MulLe(r, q, k);
      assert false;
    }
  }

  /** Two-digit numbers in base `b` compare as their digits do. */
  lemma DigitOrder(hi1: int, lo1: int, hi2: int, lo2: int, b: int)
    requires 0 <= lo1 < b && 0 <= lo2 < b
    ensures hi1 * b + lo1 < hi2 * b + lo2 <==> hi1 < hi2 || (hi1 == hi2 && lo1 < lo2)
    ensures hi1 * b + lo1 == hi2 * b + lo2 <==> hi1 == hi2 && lo1 == lo2
  {
    if hi1 < hi2 {
      MulLe(hi1 + 1, hi2, b);
    } else if hi2 < hi1 {
      MulLe(hi2 + 1, hi1, b);
    }
  }

  /** A row below `r` and a column below `k` make a slot below `r * k`. */
  lemma SlotBound(row: int, col: int, r: int, k: int)
    requires 0 <= row < r && 0 <= col < k
    ensures 0 <= row * k + col < r * k
  {
    MulLe(0, row, k);
    MulLe(row + 1, r, k);
  }

  // ---------------------------------------------------------------------
  // Index arithmetic of render_pages

  /** Labels on one page. */
  function PerPage(c: SheetConfig): (r: int)
    requires Valid(c)
    ensures r > 0 && r % c.cols == 0 && r / c.cols == c.rows
  {
    DivUnique(c.rows * c.cols, c.cols, c.rows, 0);
    c.rows * c.cols
  }

  /** `math.ceil(len / (rows * cols))`. */
  function PageCount(n: nat, c: SheetConfig): int
    requires Valid(c)
  {
    -((-(n as real) / PerPage(c) as real).Floor)
  }

  /** `math.floor(idx / (rows * cols))`. */
  function PageOf(i: nat, c: SheetConfig): int
    requires Valid(c)
  {
    (i as real / PerPage(c) as real).Floor
  }

  /** `int(idx / cols) - page * rows`. */
  function RowOf(i: nat, c: SheetConfig): int
    requires Valid(c)
  {
    Trunc(i as real / c.cols as real) - PageOf(i, c) * c.rows
  }

  /** `idx % cols`. */
  function ColOf(i: nat, c: SheetConfig): int
    requires Valid(c)
  {
    i % c.cols
  }

  /** The page count is the fewest pages that hold `n` labels. */
  lemma PageCountIsCeiling(n: nat, c: SheetConfig)
    requires Valid(c)
    ensures 0 <= PageCount(n, c)
    ensures (PageCount(n, c) - 1) * PerPage(c) < n <= PageCount(n, c) * PerPage(c)
    ensures PageCount(n, c) == 0 <==> n == 0
  {
    var p := PerPage(c);
    FloorQuotient(-(n as int), p);
    var q := (-(n as int)) / p;
    assert q * p <= -(n as int) < q * p + p;
    assert PageCount(n, c) == -q;
    if -q < 0 {
      MulLe(1, q, p);
      assert false;
    }
    if n == 0 {
      DivUnique(0, p, 0, 0);
    }
    if -q == 0 {
      assert n <= 0;
    }
  }

  /** The page, row and column of index `i` are its quotient by the page
      capacity and the row and column of its remainder. */
  lemma SlotOf(i: nat, c: SheetConfig)
    requires Valid(c)
    ensures PageOf(i, c) == i / PerPage(c)
    ensures RowOf(i, c) == (i % PerPage(c)) / c.cols
    ensures RowOf(i, c) == (i / c.cols) % c.rows
    ensures ColOf(i, c) == (i % PerPage(c)) % c.cols
    ensures 0 <= PageOf(i, c) && 0 <= RowOf(i, c) < c.rows && 0 <= ColOf(i, c) < c.cols
    ensures i == PageOf(i, c) * PerPage(c) + RowOf(i, c) * c.cols + ColOf(i, c)
  {
    var p := PerPage(c);
    FloorQuotient(i, p);
    FloorQuotient(i, c.cols);
    TwoLevelDiv(i, c.rows, c.cols);
    var m := i % p;
    assert m == (m / c.cols) * c.cols + m % c.cols;
    DivUnique(i / c.cols, c.rows, i / p, m / c.cols);
  }

  /** Every label of a list of `n` lands on one of the `PageCount(n)` pages. */
  lemma PageInRange(i: nat, n: nat, c: SheetConfig)
    requires Valid(c) && i < n
    ensures 0 <= PageOf(i, c) < PageCount(n, c)
  {
    SlotOf(i, c);
    PageCountIsCeiling(n, c);
    var p := PerPage(c);
    if PageCount(n, c) <= PageOf(i, c) {
      MulLe(PageCount(n, c), PageOf(i, c), p);
      assert false;
    }
  }

  /** Two different labels never share a page, row and column. */
  lemma SlotsDistinct(i: nat, j: nat, c: SheetConfig)
    requires Valid(c) && i != j
    ensures (PageOf(i, c), RowOf(i, c), ColOf(i, c)) != (PageOf(j, c), RowOf(j, c), ColOf(j, c))
  {
    SlotOf(i, c);
    SlotOf(j, c);
  }

  /** (page, row, column) in lexicographic order. */
  predicate SlotBefore(a: (int, int, int), b: (int, int, int)) {
    a.0 < b.0 || (a.0 == b.0 && (a.1 < b.1 || (a.1 == b.1 && a.2 < b.2)))
  }

  /** Labels fill the sheets row by row, page by page, in input order. */
  lemma RowMajorOrder(i: nat, j: nat, c: SheetConfig)
    requires Valid(c) && i < j
    ensures SlotBefore((PageOf(i, c), RowOf(i, c), ColOf(i, c)), (PageOf(j, c), RowOf(j, c), ColOf(j, c)))
  {
    SlotOf(i, c);
    SlotOf(j, c);
    SlotBound(RowOf(i, c), ColOf(i, c), c.rows, c.cols);
    SlotBound(RowOf(j, c), ColOf(j, c), c.rows, c.cols);
    DigitOrder(PageOf(i, c), RowOf(i, c) * c.cols + ColOf(i, c),
               PageOf(j, c), RowOf(j, c) * c.cols + ColOf(j, c), PerPage(c));
    DigitOrder(RowOf(i, c), ColOf(i, c), RowOf(j, c), ColOf(j, c), c.cols);
  }

  /** With 30 labels a page, 31 labels take two pages and the 31st label
      (index 30) opens the second page at row 0, column 0. */
  lemma ThirtyOneLabels()
    ensures PerPage(MainTemplate) == 30
    ensures PageCount(31, MainTemplate) == 2
    ensures PageOf(30, MainTemplate) == 1 && RowOf(30, MainTemplate) == 0 && ColOf(30, MainTemplate) == 0
  {
    FloorQuotient(-31, 30);
    FloorQuotient(30, 30);
    FloorQuotient(30, 3);
  }
}
