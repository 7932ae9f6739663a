# netbox-qrcode label sheet layout, in Dafny

This project models the layout engine of `SheetTemplate` in the netbox-qrcode
inventory printer. That engine turns inventory records into QR-code labels
and tiles them onto printable label sheets. The model covers three parts:

- **Sheet geometry** (`sheet.dfy`, module `Sheet`). A template gives the grid
  (`rows` × `cols`), the label size and the page margins and padding in
  inches, and a print resolution `scale` in dots per inch. From these it
  derives page and label sizes in pixels and the pixel origin of every cell.
  Each pixel value is Python's `int()`, a truncation toward zero (`Trunc`),
  of a scaled length. Lengths are exact reals.
- **Pagination and tiling** (`tiling.dfy`, module `Tiling`; `pages.dfy`,
  module `Pages`). Label `i` goes to page `floor(i / (rows*cols))`, row
  `int(i / cols) - page*rows` and column `i % cols`. `RenderPages` builds
  `ceil(n / (rows*cols))` white pages in the first label's mode and pastes
  each label at its cell's origin, in a loop, as the source does.
- **Font-size search and label split** (`textfit.dfy`, module `TextFit`;
  `labels.dfy`, module `Labels`). `RenderText` tries font sizes 56, 55, …
  and keeps the first whose measured text box is more than 4 pixels smaller
  than the target box on both axes. `RenderLabel` gives the text the label
  width left over after the QR image, and the full label height.

Text measurement is a parameter, `measure(text, size)`. It stands for font
loading, the fallback to the default font, and `textbbox`. The QR image is
also a parameter: only its mode and size are modelled.

Choices the model makes about the code:

- Image modes: the code has no mode check. Every page takes the first
  label's mode, and `RenderPages` has no mode error.
- Row formula: the code computes the row as `int(i/cols) - page*rows`.
  `Tiling.SlotOf` proves this equal to `(i div cols) mod rows`.
- Template validation: the code does not check the grid or the resolution.
  `Sheet.Make` rejects non-positive rows, cols and scale, and
  `Pages.RenderPages` requires a validated template (see "Left out").
- Font-size floor: the code's loop has no lower bound. `RenderText` stops
  at size 1 (see Findings).

## Model

| member | source | states |
|---|---|---|
| `Sheet.Make` | netbox_qrcode/qrinventory.py:16-30 | A template is built exactly from the given options, with margins and paddings defaulting to 0 and scale to 300. It is rejected when rows, cols or scale is not positive, and the error names the first of them that is not. |
| `Sheet.Trunc` | netbox_qrcode/qrinventory.py:35 | Python's `int()`. No contract of its own; `TruncTowardZero` states its value. |
| `Sheet.PageWidth` | netbox_qrcode/qrinventory.py:33-35 | No contract of its own; `PixelsAreWholeScaledLengths`, `LabelFitsAcross` and `MainTemplateGeometry` state its value. |
| `Sheet.PageHeight` | netbox_qrcode/qrinventory.py:37-40 | No contract of its own; `PixelsAreWholeScaledLengths`, `LabelFitsDown` and `MainTemplateGeometry` state its value. |
| `Sheet.PageSize` | netbox_qrcode/qrinventory.py:42-44 | No contract of its own; `PixelsAreWholeScaledLengths` and `MainTemplateGeometry` state both components, and `PageSizeIgnoresFarMargins` that the far margins do not change it. |
| `Sheet.LabelWidth` | netbox_qrcode/qrinventory.py:47-48 | No contract of its own; `PixelsAreWholeScaledLengths` and `MainTemplateGeometry` state its value. |
| `Sheet.LabelHeight` | netbox_qrcode/qrinventory.py:51-52 | No contract of its own; `PixelsAreWholeScaledLengths` and `MainTemplateGeometry` state its value. |
| `Sheet.LabelSize` | netbox_qrcode/qrinventory.py:55-56 | No contract of its own; `MainTemplateGeometry` states its value for the `main` template. |
| `Sheet.LabelBox` | netbox_qrcode/qrinventory.py:58-62 | No contract of its own; `PixelsAreWholeScaledLengths`, `LabelBoxAtOrigin`, `ColumnsApart`, `RowsApart` and `MainTemplateGeometry` state its value. |
| `Sheet.TruncTowardZero` | netbox_qrcode/qrinventory.py:35 | `int()` of a float rounds toward zero: the floor for non-negative values, the ceiling for negative ones. |
| `Sheet.PixelsAreWholeScaledLengths` | netbox_qrcode/qrinventory.py:32-62 | On a valid template with non-negative lengths, page width and height, label width and height, and both coordinates of every cell origin are the whole number of pixels in the scaled physical length: `p <= scale*len < p + 1`. |
| `Sheet.PageSizeIgnoresFarMargins` | netbox_qrcode/qrinventory.py:33-44 | Changing `margin_right` or `margin_bottom` never changes the page size. |
| `Sheet.MainTemplateGeometry` | netbox_qrcode/qrinventory.py:193-204 | For the `main` template: pages are 2440×3000, labels are 787×300, `label_box(0,0) = (0,0)` and `label_box(1,0) = (826,0)`. |
| `Sheet.LabelBoxAtOrigin` | netbox_qrcode/qrinventory.py:58-62 | The first cell's origin is the scaled left and top margins. |
| `Sheet.LabelFitsAcross` | netbox_qrcode/qrinventory.py:33-35 | On a valid template with non-negative lengths, a label in any column of the grid, placed at its cell origin, ends within the page width. |
| `Sheet.LabelFitsDown` | netbox_qrcode/qrinventory.py:37-40 | On a valid template with non-negative lengths, a label in any row of the grid ends within the page height. |
| `Sheet.ColumnsApart` | netbox_qrcode/qrinventory.py:58-62 | On a valid template with non-negative lengths, a label in column `a` ends, in pixels, no later than any column `b > a` begins. |
| `Sheet.RowsApart` | netbox_qrcode/qrinventory.py:58-62 | On a valid template with non-negative lengths, a label in row `a` ends no later than any row `b > a` begins. |
| `Tiling.PerPage` | netbox_qrcode/qrinventory.py:111 | A page holds `rows*cols > 0` labels: `rows` full rows of `cols`. |
| `Tiling.PageCount` | netbox_qrcode/qrinventory.py:111 | `math.ceil(n / (rows*cols))`. No contract of its own; `PageCountIsCeiling` states its value. |
| `Tiling.PageOf` | netbox_qrcode/qrinventory.py:119 | No contract of its own; `SlotOf` states its value. |
| `Tiling.RowOf` | netbox_qrcode/qrinventory.py:120 | No contract of its own; `SlotOf` states its value. |
| `Tiling.ColOf` | netbox_qrcode/qrinventory.py:121 | No contract of its own; `SlotOf` states its value. |
| `Tiling.FloorQuotient` | netbox_qrcode/qrinventory.py:119-120 | `math.floor` of an exact integer quotient by a positive divisor, and `int()` of it for a non-negative dividend, is integer division. |
| `Tiling.PageCountIsCeiling` | netbox_qrcode/qrinventory.py:111 | The page count is the fewest pages that hold `n` labels: `(count-1)*perPage < n <= count*perPage`. It is 0 exactly when `n` is 0. |
| `Tiling.SlotOf` | netbox_qrcode/qrinventory.py:118-121 | `page = i div perPage`, `row = (i mod perPage) div cols = (i div cols) mod rows` in `[0, rows)`, `col = i mod cols` in `[0, cols)`, and `i = page*perPage + row*cols + col`. |
| `Tiling.PageInRange` | netbox_qrcode/qrinventory.py:116-128 | Every index below `n` lands on a page below the page count, so `pages[page]` is always in range. |
| `Tiling.SlotsDistinct` | netbox_qrcode/qrinventory.py:118-121 | Two different indices never share a (page, row, col). |
| `Tiling.RowMajorOrder` | netbox_qrcode/qrinventory.py:118-121 | A lower index always has a lexicographically smaller (page, row, col): cells fill row by row, page by page. |
| `Tiling.ThirtyOneLabels` | netbox_qrcode/qrinventory.py:111-121 | With 30 labels a page, 31 labels take 2 pages, and index 30 goes to page 1, row 0, column 0. |
| `Pages.PlacementOf` | netbox_qrcode/qrinventory.py:119-128 | No contract of its own; `LabelOnItsPage`, `PlacementInsidePage` and `PlacementsApart` state where label `i` goes. |
| `Pages.PageContents` | netbox_qrcode/qrinventory.py:113-128 | No contract of its own. The block definition `RenderPages` is proved against; `PageContentsStep`, `PageHoldsItsBlock` and `PagesAreFilled` state its value. |
| `Pages.BlankPage` | netbox_qrcode/qrinventory.py:114-116 | No contract of its own; `RenderPages` states each page's mode, size and fill. |
| `Pages.Paste` | netbox_qrcode/qrinventory.py:128 | No contract of its own; `PageContentsStep` states what a paste appends. |
| `Pages.PageContentsStep` | netbox_qrcode/qrinventory.py:118-128 | Pasting label `i` appends it to its own page's contents and leaves every other page as it was. |
| `Pages.RenderPages` | netbox_qrcode/qrinventory.py:107-130 | An empty list fails with `NoLabels`, as `qr_imgs[0]` does. Otherwise a page size with a negative side fails with `NegativePageSize`, as `Image.new` does. Otherwise there are `PageCount` pages, each white, in the first label's mode and of the page size. Page `k` holds, in input order, each label of its block pasted at `label_box(col(i), row(i))`. |
| `Pages.LabelOnItsPage` | netbox_qrcode/qrinventory.py:118-128 | Label `i` is on page `page(i)`, as that page's `(i mod perPage)`-th paste. |
| `Pages.PageHoldsItsBlock` | netbox_qrcode/qrinventory.py:118-128 | The `j`-th paste on page `k` is label `k*perPage + j`, whose page is `k` and whose slot `row*cols + col` is `j`. |
| `Pages.PagesAreFilled` | netbox_qrcode/qrinventory.py:111-116 | No page is left blank. Every page but the last holds exactly `rows*cols` labels. |
| `Pages.PlacementInsidePage` | netbox_qrcode/qrinventory.py:115-128 | A label no larger than a cell, on a valid template with non-negative lengths, lies entirely on its page. |
| `Pages.PlacementsApart` | netbox_qrcode/qrinventory.py:118-128 | On a valid template with non-negative lengths, two different labels no larger than a cell never overlap on the same page. |
| `TextFit.JoinLines` | netbox_qrcode/qrinventory.py:66 | `'\n'.join(lines)` as a left fold. No contract of its own; `JoinLinesConcat` states that joining splits at any point into the two joins and one break between them, and `JoinLinesBreaks` and `JoinLinesLength` state its number of breaks and its length. |
| `TextFit.JoinLinesConcat` | netbox_qrcode/qrinventory.py:66 | Joining two non-empty runs of lines gives the join of the first, one line break, and the join of the second. |
| `TextFit.JoinLinesBreaks` | netbox_qrcode/qrinventory.py:66 | Joining lines that contain no line break gives exactly one break fewer than there are lines. |
| `TextFit.JoinLinesLength` | netbox_qrcode/qrinventory.py:66 | The joined text is as long as all lines together plus one character between each two neighbouring lines. |
| `TextFit.FitsIn` | netbox_qrcode/qrinventory.py:78 | The exit test `w < max_w - 4 and h < max_h - 4`. No contract of its own; `RenderText` and `AsWrittenSearch` are stated through it. |
| `TextFit.FirstFitUnique` | netbox_qrcode/qrinventory.py:69-80 | At most one size is the first from 56 downward that fits. So the fitting size with a negative box behind a `NegativeSize` failure is the size the loop stops at. |
| `TextFit.RenderText` | netbox_qrcode/qrinventory.py:64-85 | On success, the size is the largest from 56 down to 1 whose measured box satisfies `w < max_w - 4` and `h < max_h - 4`, and the image is mode `L`, exactly `(w, h)` with both non-negative, of the joined text. Every larger size failed. A target box with a negative side fails with `NegativeSize`, as `Image.new` at line 67 does. `TextTooLarge` means no size from 56 down to 1 fits. `NegativeSize` on a non-negative target means the first fitting size has a box with a negative side, which `Image.new` at line 82 rejects. |
| `TextFit.AsWrittenSearch` | netbox_qrcode/qrinventory.py:65-80 | The loop as written, run for at most `steps` iterations. If it exits, it stops at the first size from the start that fits, every size tried before failed, and it fits. Otherwise every size it tried failed. |
| `TextFit.AsWrittenNeverEnds` | netbox_qrcode/qrinventory.py:69-80 | When the target box is at most 4 pixels wide and every measured width is non-negative, the loop as written never exits, however many iterations it runs. |
| `TextFit.AsWrittenAgrees` | netbox_qrcode/qrinventory.py:69-80 | When some size within the iteration budget fits, the loop as written stops at the first fitting size. |
| `TextFit.BestFitIsAsWritten` | netbox_qrcode/qrinventory.py:64-85 | The size the bounded search returns on success is the size the loop as written stops at, starting from 56. |
| `Labels.RenderLabel` | netbox_qrcode/qrinventory.py:88-104 | The text is fitted into `(label_width - qr_width, label_height)`. On success, the QR image and the text together end more than 4 pixels before the label's right edge, and the text ends more than 4 pixels before its bottom edge. The QR image's height is not bounded. The failures are those of `RenderText` on that box: `NegativeSize` when the box or the first fitting text box has a negative side, and `TextTooLarge` when no size from 56 down to 1 fits. |

## Left out

- `QRInventory` (netbox_qrcode/qrinventory.py:142-189) is network and environment plumbing, so it is not modelled. Neither is `main`, apart from its template (`Sheet.MainTemplate`).
- QR encoding and the `thumbnail` resize call foreign libraries. The QR image is a parameter of `Labels.RenderLabel`.
- Font loading, the default-font fallback, drawing and `textbbox` are replaced by the `measure` parameter. No pixels are modelled, and the `font` argument is folded into `measure`.
- `get_concat`, `get_qr` and `get_qr_text` belong to the `utilities` module, which is not part of this model. A label is kept as its two parts. The size of the joined image is not modelled.
- `render_document` (netbox_qrcode/qrinventory.py:133-139) writes the pages to a file with dpi metadata. This is file I/O.
- The debug `print` in `render_pages` (netbox_qrcode/qrinventory.py:126) is output only.
- Float arithmetic: lengths and quotients are exact reals, so IEEE rounding is not covered.
- The `**kwargs` update in `__init__` is replaced by the explicit `SheetConfig` datatype. Unknown option names are not representable.
- `Pages.RenderPages`: requires a template with positive rows, cols and scale, as produced by `Sheet.Make`. The source raises `ZeroDivisionError` for an empty grid and does not reject negative grids. Those cases are not modelled.
- `Pages.RenderPages`: a paste is recorded as a placement (index, image, corner) in pasting order. Pixel compositing and the mode conversion PIL applies when pasting are not modelled.
- `TextFit.RenderText`: stops at font size 1 and fails, where the source keeps decrementing. See Findings.

## Findings

| source | as written | input that shows it | evidently intended | confidence | as-written member | corrected member |
|---|---|---|---|---|---|---|
| netbox_qrcode/qrinventory.py:69-80 | The font-size loop has no lower bound. It stops only when a measured box is more than 4 pixels inside the target box. | A template with `width = 0.5`, `height = 1`: labels are 150×300 pixels, the QR thumbnail is 150 pixels wide, and `render_text` gets a 0-pixel-wide box. No text box can be narrower than -4, so the loop never ends. | Stop at a smallest usable size and report that the text does not fit. | not executed | `TextFit.AsWrittenNeverEnds` | `TextFit.RenderText` |
