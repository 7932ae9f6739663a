/**
 * Page composition (`SheetTemplate.render_pages` in
 * netbox_qrcode/qrinventory.py): one white page per `rows * cols` labels,
 * each label pasted at the pixel origin of its cell.
 */
module Pages {
  import opened Outcomes
  import opened Sheet
  import opened Tiling

  /** The smaller of two integers: where a page's block ends. */
  function Min(a: int, b: int): int {
    if a <= b then a else b
  }

  /** Where label `i` is pasted: at the origin of its column and row. */
  function PlacementOf(c: SheetConfig, labels: seq<Bitmap>, i: nat): (p: Placement)
    requires Valid(c) && i < |labels|
  {
    var (x, y) := LabelBox(c, ColOf(i, c), RowOf(i, c));
    Placement(i, labels[i], x, y)
  }

  /** What page `k` holds once the first `upto` labels are pasted: the
      placements of the labels `k * PerPage(c)`, ... of its block that are
      below `upto`, in input order. */
  function PageContents(c: SheetConfig, labels: seq<Bitmap>, k: nat, upto: nat): seq<Placement>
    requires Valid(c) && upto <= |labels|
  {
    var lo := k * PerPage(c);
    var hi := Min(upto, lo + PerPage(c));
    if hi <= lo then []
    else seq(hi - lo, j requires 0 <= j < hi - lo => PlacementOf(c, labels, lo + j))
  }

  /** A page as `Image.new(mode, page_size, 'white')` creates it: the given
      mode, the template's page size in pixels, a white fill, nothing pasted. */
  function BlankPage(c: SheetConfig, mode: string): Page {
    Page(mode, PageWidth(c), PageHeight(c), White, [])
  }

  /** `page.paste(img, (x, y))`, recorded as a placement appended to what the
      page already holds; the page's mode, size and fill are unchanged. */
  function Paste(p: Page, index: nat, img: Bitmap, x: int, y: int): Page {
    p.(pasted := p.pasted + [Placement(index, img, x, y)])
  }

  /** Pasting label `i` extends its own page's contents by it and leaves
      every other page as it was. */
  lemma PageContentsStep(c: SheetConfig, labels: seq<Bitmap>, k: nat, i: nat)
    requires Valid(c) && i < |labels|
    ensures PageContents(c, labels, k, i + 1)
         == if k == PageOf(i, c) then PageContents(c, labels, k, i) + [PlacementOf(c, labels, i)]
            else PageContents(c, labels, k, i)
  {
    SlotOf(i, c);
    var p, n := PageOf(i, c), PerPage(c);
    var slot := RowOf(i, c) * c.cols + ColOf(i, c);
    SlotBound(RowOf(i, c), ColOf(i, c), c.rows, c.cols);
    MulLe(0, k, n);
    if k == p {
      assert k * n <= i < k * n + n;
      var a, b := PageContents(c, labels, k, i), PageContents(c, labels, k, i + 1);
      assert |b| == |a| + 1;
      assert forall j :: 0 <= j < |b| ==> b[j] == (a + [PlacementOf(c, labels, i)])[j];
    } else if k < p {
      MulLe(k + 1, p, n);
      MulDistrib(k, 1, n);
      assert k * n + n <= i;
    } else {
      MulLe(p + 1, k, n);
      MulDistrib(p, 1, n);
      assert i < k * n;
    }
  }

  /** `render_pages`: tiles `labels` onto `PageCount` pages. Fails as the
      source does on an empty list (`qr_imgs[0]`), and on a page size with a
      negative side, which `Image.new` rejects. */
  method RenderPages(c: SheetConfig, labels: seq<Bitmap>) returns (r: Result<seq<Page>, PageError>)
    requires Valid(c)
    ensures r.Failure? <==> labels == [] || PageWidth(c) < 0 || PageHeight(c) < 0
    ensures r.Failure? ==> (r.error == NoLabels <==> labels == [])
    ensures r.Success? ==>
              && |r.value| == PageCount(|labels|, c)
              && forall k :: 0 <= k < |r.value| ==>
                   r.value[k] == BlankPage(c, labels[0].mode).(pasted := PageContents(c, labels, k, |labels|))
  {
    var numPages := PageCount(|labels|, c);
    PageCountIsCeiling(|labels|, c);
    if |labels| == 0 {
      return Failure(NoLabels);
    }
    var mode := labels[0].mode;
    var pageSize := (PageWidth(c), PageHeight(c));
    if pageSize.0 < 0 || pageSize.1 < 0 {
      return Failure(NegativePageSize);
    }
    var pages := seq(numPages, _ => Page(mode, pageSize.0, pageSize.1, White, []));
    var idx := 0;
    while idx < |labels|
      invariant 0 <= idx <= |labels|
      invariant |pages| == numPages
      invariant forall k :: 0 <= k < numPages ==>
                  pages[k] == BlankPage(c, mode).(pasted := PageContents(c, labels, k, idx))
    {
      var img := labels[idx];
      var page := PageOf(idx, c);
      var row := RowOf(idx, c);
      var col := ColOf(idx, c);
      // the source inlines the formula of `label_box` here
      var x := Trunc(Px(c, CellOffset(c.marginLeft, col, c.width, c.paddingRight)));
      var y := Trunc(Px(c, CellOffset(c.marginTop, row, c.height, c.paddingBottom)));
      PageInRange(idx, |labels|, c);
      forall k | 0 <= k < numPages
        ensures PageContents(c, labels, k, idx + 1)
             == if k == page then PageContents(c, labels, k, idx) + [PlacementOf(c, labels, idx)]
                else PageContents(c, labels, k, idx)
      {
        PageContentsStep(c, labels, k, idx);
      }
      pages := pages[page := Paste(pages[page], idx, img, x, y)];
      idx := idx + 1;
    }
    return Success(pages);
  }

  // ---------------------------------------------------------------------
  // What the pages hold

  /** Label `i` is on page `PageOf(i)`, as that page's `i mod PerPage`-th
      paste. */
  lemma LabelOnItsPage(c: SheetConfig, labels: seq<Bitmap>, i: nat)
    requires Valid(c) && i < |labels|
    ensures 0 <= PageOf(i, c) < PageCount(|labels|, c)
    ensures var k := PageOf(i, c);
      && i % PerPage(c) < |PageContents(c, labels, k, |labels|)|
      && PageContents(c, labels, k, |labels|)[i % PerPage(c)] == PlacementOf(c, labels, i)
  {
    SlotOf(i, c);
    PageInRange(i, |labels|, c);
    var k, n := PageOf(i, c), PerPage(c);
    MulLe(0, k, n);
    assert k * n + i % n == i;
  }

  /** Page `k` holds exactly the labels of its block, in input order, and
      each of them sits in its own slot on that page. */
  lemma PageHoldsItsBlock(c: SheetConfig, labels: seq<Bitmap>, k: nat, j: nat)
    requires Valid(c) && j < |PageContents(c, labels, k, |labels|)|
    ensures var i := k * PerPage(c) + j;
      && i < |labels| && PageContents(c, labels, k, |labels|)[j] == PlacementOf(c, labels, i)
      && PageOf(i, c) == k && RowOf(i, c) * c.cols + ColOf(i, c) == j
  {
    var n := PerPage(c);
    MulLe(0, k, n);
    var i := k * n + j;
    assert j < n;
    SlotOf(i, c);
    SlotBound(RowOf(i, c), ColOf(i, c), c.rows, c.cols);
    DigitOrder(PageOf(i, c), RowOf(i, c) * c.cols + ColOf(i, c), k, j, n);
  }

  /** No page is blank: every one of the `PageCount` pages receives at least
      one label, and only the last may be partly filled. */
  lemma PagesAreFilled(c: SheetConfig, labels: seq<Bitmap>, k: nat)
    requires Valid(c) && k < PageCount(|labels|, c)
    ensures 0 < |PageContents(c, labels, k, |labels|)|
    ensures k + 1 < PageCount(|labels|, c) ==> |PageContents(c, labels, k, |labels|)| == PerPage(c)
  {
    var n := PerPage(c);
    PageCountIsCeiling(|labels|, c);
    MulLe(0, k, n);
    MulLe(k, PageCount(|labels|, c) - 1, n);
    if k + 1 < PageCount(|labels|, c) {
      MulLe(k + 1, PageCount(|labels|, c) - 1, n);
      MulDistrib(k, 1, n);
    }
  }

  // ---------------------------------------------------------------------
  // Where the labels end up on the page

  /** A label image no larger than one cell. */
  predicate FitsCell(c: SheetConfig, b: Bitmap) {
    0 <= b.width <= LabelWidth(c) && 0 <= b.height <= LabelHeight(c)
  }

  /** Two pasted rectangles that do not overlap. */
  predicate Apart(a: Placement, b: Placement) {
    a.x + a.image.width <= b.x || b.x + b.image.width <= a.x
    || a.y + a.image.height <= b.y || b.y + b.image.height <= a.y
  }

  /** A label that fits its cell lies entirely on the page. */
  lemma PlacementInsidePage(c: SheetConfig, labels: seq<Bitmap>, i: nat)
    requires Valid(c) && NonNegative(c) && i < |labels| && FitsCell(c, labels[i])
    ensures var p := PlacementOf(c, labels, i);
      0 <= p.x && p.x + p.image.width <= PageWidth(c) && 0 <= p.y && p.y + p.image.height <= PageHeight(c)
  {
    SlotOf(i, c);
    var col, row := ColOf(i, c), RowOf(i, c);
    PixelsAreWholeScaledLengths(c, col, row);
    LabelFitsAcross(c, col, row);
    LabelFitsDown(c, col, row);
  }

  /** Two labels that fit their cells never overlap on a page. */
  lemma PlacementsApart(c: SheetConfig, labels: seq<Bitmap>, i: nat, j: nat)
    requires Valid(c) && NonNegative(c) && i < |labels| && j < |labels| && i != j
    requires FitsCell(c, labels[i]) && FitsCell(c, labels[j])
    ensures PageOf(i, c) == PageOf(j, c) ==> Apart(PlacementOf(c, labels, i), PlacementOf(c, labels, j))
  {
    SlotsDistinct(i, j, c);
    var ci, ri, cj, rj := ColOf(i, c), RowOf(i, c), ColOf(j, c), RowOf(j, c);
    SlotOf(i, c);
    SlotOf(j, c);
    if ci < cj {
      ColumnsApart(c, ci, cj, ri, rj);
    } else if cj < ci {
      ColumnsApart(c, cj, ci, rj, ri);
    } else if ri < rj {
      RowsApart(c, ri, rj, ci, cj);
    } else if rj < ri {
      RowsApart(c, rj, ri, cj, ci);
    }
  }
}
