/**
 * One label (`SheetTemplate.render_label` in netbox_qrcode/qrinventory.py):
 * the QR image on the left, and the text fitted into the width the QR image
 * leaves, over the label's full height.
 *
 * The QR image is a parameter: encoding and the `thumbnail` resize are not
 * part of this model.
 */
module Labels {
  import opened Outcomes
  import opened Sheet
  import opened TextFit
  import opened Tiling

  /** The two parts of a label, left to right. */
  datatype Label = Label(qr: Bitmap, text: TextImage)

  /** `render_label`: fits the text into the room right of the QR image. The
      text part then ends more than 4 pixels before the label's right edge
      and its bottom edge. */
  method RenderLabel(c: SheetConfig, qr: Bitmap, lines: seq<string>, measure: (string, int) -> Box)
    returns (r: Result<Label, TextError>)
    ensures r.Success? ==>
              && r.value.qr == qr
              && BestFit(LabelWidth(c) - qr.width, LabelHeight(c), JoinLines(lines), measure, r.value.text)
              && qr.width + r.value.text.width < LabelWidth(c) - SafetyMargin
              && r.value.text.height < LabelHeight(c) - SafetyMargin
              && 0 <= r.value.text.width && 0 <= r.value.text.height
    ensures LabelWidth(c) - qr.width < 0 || LabelHeight(c) < 0 ==> r == Failure(NegativeSize)
    ensures r == Failure(TextTooLarge) ==> NoFit(LabelWidth(c) - qr.width, LabelHeight(c), JoinLines(lines), measure)
    ensures r == Failure(NegativeSize) && 0 <= LabelWidth(c) - qr.width && 0 <= LabelHeight(c) ==>
              FitIsNegative(LabelWidth(c) - qr.width, LabelHeight(c), JoinLines(lines), measure)
  {
    var textWidth := LabelWidth(c) - qr.width;
    var text := RenderText(textWidth, LabelHeight(c), lines, measure);
    match text {
      case Failure(e) => return Failure(e);
      case Success(img) => return Success(Label(qr, img));
    }
  }
}
