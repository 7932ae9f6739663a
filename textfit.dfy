/**
 * The font-size search of `SheetTemplate.render_text` in
 * netbox_qrcode/qrinventory.py: starting at size 56 and going down by one,
 * the first size whose measured text box is more than 4 pixels narrower and
 * shorter than the target box is used, and the text image is cropped to that
 * measured box.
 *
 * Text measurement (font loading with its fallback, and `textbbox`) is a
 * parameter: `measure(text, size)` is the box the text occupies at that size.
 */
module TextFit {
  import opened Outcomes

  /** A measured text box: the right and bottom edges of `textbbox` from (0, 0). */
  datatype Box = Box(width: int, height: int)

  /** The cropped text image `render_text` returns. */
  datatype TextImage = TextImage(mode: string, width: int, height: int, fontSize: int, text: string)

  datatype TextError =
    | TextTooLarge   // no size down to `MinFontSize` fits
    | NegativeSize   // `Image.new` refuses a negative width or height

  const InitialFontSize: int := 56
  /** The search stops here; the source has no lower bound (see `AsWrittenSearch`). */
  const MinFontSize: int := 1
  /** Pixels kept free on each axis. */
  const SafetyMargin: int := 4

  /** The loop's exit test `w < max_w - 4 and h < max_h - 4`. */
  predicate FitsIn(b: Box, maxW: int, maxH: int) {
    b.width < maxW - SafetyMargin && b.height < maxH - SafetyMargin
  }

  /** `'\n'.join(lines)`. */
  function JoinLines(lines: seq<string>): string {
    if |lines| == 0 then ""
    else if |lines| == 1 then lines[0]
    else JoinLines(lines[..|lines| - 1]) + "\n" + lines[|lines| - 1]
  }

  /** The number of line breaks in a string. */
  function Newlines(s: string): nat {
    if |s| == 0 then 0
    else Newlines(s[..|s| - 1]) + (if s[|s| - 1] == '\n' then 1 else 0)
  }

  lemma {:induction false} NewlinesAppend(a: string, b: string)
    ensures Newlines(a + b) == Newlines(a) + Newlines(b)
    decreases |b|
  {
    if |b| == 0 {
      assert a + b == a;
    } else {
      var b' := b[..|b| - 1];
      assert (a + b)[..|a + b| - 1] == a + b';
      assert (a + b)[|a + b| - 1] == b[|b| - 1];
      NewlinesAppend(a, b');
    }
  }

  /** Joining lines that hold no line break yields one break between each
      two neighbouring lines and no other. */
  lemma {:induction false} JoinLinesBreaks(lines: seq<string>)
    requires |lines| > 0
    requires forall i :: 0 <= i < |lines| ==> Newlines(lines[i]) == 0
    ensures Newlines(JoinLines(lines)) == |lines| - 1
    decreases |lines|
  {
    if |lines| > 1 {
      var init := lines[..|lines| - 1];
      JoinLinesBreaks(init);
      NewlinesAppend(JoinLines(init), "\n");
      NewlinesAppend(JoinLines(init) + "\n", lines[|lines| - 1]);
      assert Newlines("\n") == 1 by {
        assert "\n"[..0] == "";
      }
    }
  }

  /** Joining two non-empty runs of lines is joining each and putting one
      break between them: line `k` is followed by a break and then line
      `k + 1`, wherever the list is split. */
  lemma {:induction false} JoinLinesConcat(a: seq<string>, b: seq<string>)
    requires |a| > 0 && |b| > 0
    ensures JoinLines(a + b) == JoinLines(a) + "\n" + JoinLines(b)
    decreases |b|
  {
    assert (a + b)[|a + b| - 1] == b[|b| - 1];
    if |b| == 1 {
      assert (a + b)[..|a + b| - 1] == a;
    } else {
      var b' := b[..|b| - 1];
      assert (a + b)[..|a + b| - 1] == a + b';
      JoinLinesConcat(a, b');
    }
  }

  /** The sum of the lines' lengths. */
  function TotalLength(lines: seq<string>): nat {
    if |lines| == 0 then 0 else TotalLength(lines[..|lines| - 1]) + |lines[|lines| - 1]|
  }

  /** The joined text is every line's characters plus one break between
      each two neighbouring lines. */
  lemma {:induction false} JoinLinesLength(lines: seq<string>)
    requires |lines| > 0
    ensures |JoinLines(lines)| == TotalLength(lines) + |lines| - 1
    decreases |lines|
  {
    if |lines| > 1 {
      JoinLinesLength(lines[..|lines| - 1]);
    }
  }

  /** `s` is the largest size from 56 down to `MinFontSize` whose box fits. */
  predicate FirstFit(maxW: int, maxH: int, text: string, measure: (string, int) -> Box, s: int) {
    && MinFontSize <= s <= InitialFontSize
    && FitsIn(measure(text, s), maxW, maxH)
    && forall t :: s < t <= InitialFontSize ==> !FitsIn(measure(text, t), maxW, maxH)
  }

  /** There is at most one first fitting size. */
  lemma FirstFitUnique(maxW: int, maxH: int, text: string, measure: (string, int) -> Box, s: int, s': int)
    requires FirstFit(maxW, maxH, text, measure, s)
    requires FirstFit(maxW, maxH, text, measure, s')
    ensures s == s'
  {
  }

  /** `img` is the text rendered at the first fitting size, cropped to its
      box. */
  predicate BestFit(maxW: int, maxH: int, text: string, measure: (string, int) -> Box, img: TextImage) {
    && FirstFit(maxW, maxH, text, measure, img.fontSize)
    && img == TextImage("L", measure(text, img.fontSize).width, measure(text, img.fontSize).height,
                        img.fontSize, text)
  }

  /** The first fitting size has a box with a negative side, so the cropped
      image cannot be created. */
  predicate FitIsNegative(maxW: int, maxH: int, text: string, measure: (string, int) -> Box) {
    exists s :: MinFontSize <= s <= InitialFontSize && FirstFit(maxW, maxH, text, measure, s)
                && (measure(text, s).width < 0 || measure(text, s).height < 0)
  }

  /** No size from 56 down to `MinFontSize` fits. */
  predicate NoFit(maxW: int, maxH: int, text: string, measure: (string, int) -> Box) {
    forall t :: MinFontSize <= t <= InitialFontSize ==> !FitsIn(measure(text, t), maxW, maxH)
  }

  /** `render_text` with a lower bound on the font size: the first size from
      56 downward that fits, and the text image cropped to its measured box;
      `TextTooLarge` when no size down to `MinFontSize` fits. */
  method RenderText(maxW: int, maxH: int, lines: seq<string>, measure: (string, int) -> Box)
    returns (r: Result<TextImage, TextError>)
    ensures maxW < 0 || maxH < 0 ==> r == Failure(NegativeSize)
    ensures r.Success? ==>
              && BestFit(maxW, maxH, JoinLines(lines), measure, r.value)
              && 0 <= r.value.width && 0 <= r.value.height
    ensures r == Failure(TextTooLarge) ==> NoFit(maxW, maxH, JoinLines(lines), measure)
    ensures r == Failure(NegativeSize) && 0 <= maxW && 0 <= maxH ==>
              FitIsNegative(maxW, maxH, JoinLines(lines), measure)
  {
    if maxW < 0 || maxH < 0 {
      // `Image.new('L', max_size, 'white')`
      return Failure(NegativeSize);
    }
    var fontSize := InitialFontSize;
    var text := JoinLines(lines);
    var tooLarge := true;
    var w, h := 0, 0;
    while tooLarge && MinFontSize <= fontSize
      invariant MinFontSize - 1 <= fontSize <= InitialFontSize
      invariant tooLarge ==> forall t :: fontSize < t <= InitialFontSize ==> !FitsIn(measure(text, t), maxW, maxH)
      invariant !tooLarge ==>
                  && fontSize < InitialFontSize
                  && FitsIn(measure(text, fontSize + 1), maxW, maxH) && Box(w, h) == measure(text, fontSize + 1)
                  && forall t :: fontSize + 1 < t <= InitialFontSize ==> !FitsIn(measure(text, t), maxW, maxH)
      decreases tooLarge, fontSize
    {
      var box := measure(text, fontSize);
      w, h := box.width, box.height;
      if w < maxW - SafetyMargin && h < maxH - SafetyMargin {
        tooLarge := false;
      }
      fontSize := fontSize - 1;
    }
    if tooLarge {
      return Failure(TextTooLarge);
    }
    if w < 0 || h < 0 {
      // `Image.new('L', (w, h), 'white')`
      assert FirstFit(maxW, maxH, text, measure, fontSize + 1);
      return Failure(NegativeSize);
    }
    return Success(TextImage("L", w, h, fontSize + 1, text));
  }

  // ---------------------------------------------------------------------
  // The loop as written, without a lower bound

  /** The source's loop run for at most `steps` iterations from `size`: the
      size at which it leaves the loop, if it does within those steps. */
  function AsWrittenSearch(text: string, measure: (string, int) -> Box, maxW: int, maxH: int,
                           size: int, steps: nat): (r: Option<int>)
    ensures r.Some? ==>
              && size - steps < r.value <= size
              && FitsIn(measure(text, r.value), maxW, maxH)
              && forall t :: r.value < t <= size ==> !FitsIn(measure(text, t), maxW, maxH)
    ensures r.None? ==> forall t :: size - steps < t <= size ==> !FitsIn(measure(text, t), maxW, maxH)
    decreases steps
  {
    if steps == 0 then None
    else if FitsIn(measure(text, size), maxW, maxH) then Some(size)
    else AsWrittenSearch(text, measure, maxW, maxH, size - 1, steps - 1)
  }

  /** With a target box at most 4 pixels wide (a QR code filling the label's
      width leaves no room for text), no size ever passes the test: the
      loop as written never ends, however many iterations it runs. */
  lemma {:induction false} AsWrittenNeverEnds(text: string, measure: (string, int) -> Box,
                                                maxW: int, maxH: int, size: int, steps: nat)
    requires maxW <= SafetyMargin
    requires forall t :: 0 <= measure(text, t).width
    ensures AsWrittenSearch(text, measure, maxW, maxH, size, steps) == None
    decreases steps
  {
    if steps > 0 {
      assert !FitsIn(measure(text, size), maxW, maxH);
      AsWrittenNeverEnds(text, measure, maxW, maxH, size - 1, steps - 1);
    }
  }

  /** Where some size within the iteration budget fits, the loop as written
      stops at the first such size. */
  lemma {:induction false} AsWrittenAgrees(text: string, measure: (string, int) -> Box,
                                             maxW: int, maxH: int, s: int, size: int, steps: nat)
    requires s <= size && size - s < steps
    requires FitsIn(measure(text, s), maxW, maxH)
    requires forall t :: s < t <= size ==> !FitsIn(measure(text, t), maxW, maxH)
    ensures AsWrittenSearch(text, measure, maxW, maxH, size, steps) == Some(s)
    decreases steps
  {
    if s < size {
      AsWrittenAgrees(text, measure, maxW, maxH, s, size - 1, steps - 1);
    }
  }

  /** A size the bounded search may return is the size the loop as written
      stops at, starting from 56. */
  lemma BestFitIsAsWritten(maxW: int, maxH: int, text: string, measure: (string, int) -> Box,
                           img: TextImage)
    requires BestFit(maxW, maxH, text, measure, img)
    ensures AsWrittenSearch(text, measure, maxW, maxH, InitialFontSize, InitialFontSize) == Some(img.fontSize)
  {
    AsWrittenAgrees(text, measure, maxW, maxH, img.fontSize, InitialFontSize, InitialFontSize);
  }
}
