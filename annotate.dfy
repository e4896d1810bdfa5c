/**
 * What the `/detect` endpoint draws on the uploaded image for each accepted
 * detection, as a log of drawing calls: the box outline, a filled label
 * background directly above the box, and the white label text on it.
 */
module Annotate {
  import opened Vocabulary
  import opened Filter

  /** Width in pixels of a box outline. */
  const OutlineWidth: nat := 3

  /** Colour of the label text. */
  const White: Color := RGB(255, 255, 255)

  /**
   * One drawing call: `draw.rectangle(..., outline=, width=)`,
   * `draw.rectangle(..., fill=)` and `draw.text(..., fill=)`. The text is
   * `f'{disease} {confidence:.2f}'`; it is kept as its two parts.
   */
  datatype DrawOp =
    | Outline(rect: Box, color: Color, width: nat)
    | Fill(rect: Box, color: Color)
    | Text(x: real, y: real, disease: string, confidence: real, color: Color)

  /**
   * The label background of a box whose label text is `textHeight` high:
   * from `x_min` to `x_max`, and from `y_min - textHeight` up to `y_min`.
   */
  function LabelBackground(b: Box, textHeight: real): Box
  {
    Box(b.xMin, b.yMin - textHeight, b.xMax, b.yMin)
  }

  /**
   * The background is as wide as the box, as high as the text, and its bottom
   * edge touches the top edge of the box; nothing clamps it to the image, so
   * it starts above the image (negative y) whenever the text is taller than
   * the space above the box.
   */
  lemma LabelBackgroundSitsOnBox(b: Box, textHeight: real)
    ensures LabelBackground(b, textHeight).yMax == b.yMin
    ensures LabelBackground(b, textHeight).xMin == b.xMin && LabelBackground(b, textHeight).xMax == b.xMax
    ensures LabelBackground(b, textHeight).yMax - LabelBackground(b, textHeight).yMin == textHeight
    ensures LabelBackground(b, textHeight).yMin < 0.0 <==> b.yMin < textHeight
  {
  }

  /** The three drawing calls for one detection, given the measured height of its label text. */
  function Annotation(d: Detection, textHeight: real): (ops: seq<DrawOp>)
    requires d.disease in ClassColors
    ensures |ops| == 3
  {
    var color := ClassColors[d.disease];
    var background := LabelBackground(d.box, textHeight);
    [Outline(d.box, color, OutlineWidth),
     Fill(background, color),
     Text(d.box.xMin, background.yMin, d.disease, d.confidence, White)]
  }

  /** Every detection's label has a palette colour. */
  predicate AllColored(ds: seq<Detection>)
  {
    forall i :: 0 <= i < |ds| ==> ds[i].disease in ClassColors
  }

  /**
   * Everything drawn for a sequence of detections, in order; `textHeight`
   * stands for the font's measurement of a label text.
   */
  function Annotations(ds: seq<Detection>, textHeight: (string, real) -> real): (ops: seq<DrawOp>)
    requires AllColored(ds)
    ensures |ops| == 3 * |ds|
  {
    if ds == [] then []
    else
      var last := ds[|ds| - 1];
      Annotations(ds[..|ds| - 1], textHeight) + Annotation(last, textHeight(last.disease, last.confidence))
  }

  /** The calls at positions 3k, 3k+1, 3k+2 draw the k-th detection, and only it. */
  lemma {:induction false} AnnotationsAt(ds: seq<Detection>, textHeight: (string, real) -> real, k: nat)
    requires AllColored(ds)
    requires k < |ds|
    ensures Annotations(ds, textHeight)[3 * k .. 3 * k + 3]
         == Annotation(ds[k], textHeight(ds[k].disease, ds[k].confidence))
  {
    var n := |ds|;
    var init := ds[..n - 1];
    assert AllColored(init) by {
      forall i | 0 <= i < |init| ensures init[i].disease in ClassColors {
        assert init[i] == ds[i];
      }
    }
    if k < n - 1 {
      AnnotationsAt(init, textHeight, k);
      assert init[k] == ds[k];
    }
  }
}
