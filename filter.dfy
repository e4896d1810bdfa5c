/**
 * The detection filter of the `/detect` endpoint: which raw model boxes
 * become detections, stated as a predicate on one box and as a function on
 * the whole sequence of boxes the model returned.
 */
module Filter {
  import opened Wrappers
  import opened Vocabulary

  /** A box as `(x_min, y_min, x_max, y_max)` in pixel coordinates. */
  datatype Box = Box(xMin: real, yMin: real, xMax: real, yMax: real)

  /** One box of the model's output: `int(box.cls)`, `float(box.conf)`, `box.xyxy[0]`. */
  datatype RawBox = RawBox(classIndex: nat, confidence: real, xyxy: Box)

  /** One entry of `detection_list`: `{"disease", "confidence", "box"}`. */
  datatype Detection = Detection(disease: string, confidence: real, box: Box)

  /**
   * The body of the inner loop: a box is kept when its confidence reaches the
   * threshold, its class index names a vocabulary label, and that label has a
   * palette colour; an index past the vocabulary gives `None` and is dropped.
   */
  function Accept(r: RawBox): (d: Option<Detection>)
    ensures d.Some? ==> d.value.disease in DiseaseLabels && d.value.disease in ClassColors
    ensures d.Some? ==> d.value.confidence == r.confidence && d.value.box == r.xyxy
  {
    if r.confidence >= ConfidenceThreshold then
      match LabelAt(r.classIndex)
      case Some(name) => if name in ClassColors then Some(Detection(name, r.confidence, r.xyxy)) else None
      case None => None
    else
      None
  }

  /**
   * The exact acceptance rule: since the palette covers the vocabulary, the
   * palette test only ever rejects what the range test already rejected.
   */
  lemma AcceptIff(r: RawBox)
    ensures Accept(r).Some? <==> r.confidence >= ConfidenceThreshold && r.classIndex < |DiseaseLabels|
    ensures Accept(r).Some? ==> Accept(r).value == Detection(DiseaseLabels[r.classIndex], r.confidence, r.xyxy)
  {
    PaletteCoversVocabulary();
    assert r.classIndex < |DiseaseLabels| ==> DiseaseLabels[r.classIndex] in DiseaseLabels;
  }

  /** The model returns one result per image, each with its boxes: the nested loops visit them in this order. */
  function Flatten(results: seq<seq<RawBox>>): seq<RawBox>
  {
    if results == [] then [] else Flatten(results[..|results| - 1]) + results[|results| - 1]
  }

  /** The detections accepted from `raws`, in the order the loop visits the boxes. */
  function Accepted(raws: seq<RawBox>): (ds: seq<Detection>)
    ensures |ds| <= |raws|
    ensures forall d :: d in ds ==> d.disease in DiseaseLabels && d.confidence >= ConfidenceThreshold
  {
    if raws == [] then []
    else
      var last := raws[|raws| - 1];
      match Accept(last)
      case Some(d) => (AcceptIff(last); Accepted(raws[..|raws| - 1]) + [d])
      case None => Accepted(raws[..|raws| - 1])
  }

  /** The positions in `raws` of the boxes that are accepted, ascending. */
  function AcceptedIndices(raws: seq<RawBox>): seq<nat>
  {
    if raws == [] then []
    else if Accept(raws[|raws| - 1]).Some? then AcceptedIndices(raws[..|raws| - 1]) + [|raws| - 1]
    else AcceptedIndices(raws[..|raws| - 1])
  }

  /** The distinct labels of a sequence of detections: the `detected_diseases` set. */
  function LabelSet(ds: seq<Detection>): set<string>
  {
    set i | 0 <= i < |ds| :: ds[i].disease
  }

  /**
   * `Accepted` keeps exactly the accepted boxes, each once, in iteration order:
   * its k-th entry is the detection of the k-th accepted position, the
   * positions ascend, and every accepted position is among them.
   */
  lemma {:induction false} AcceptedInOrder(raws: seq<RawBox>)
    ensures |AcceptedIndices(raws)| == |Accepted(raws)|
    ensures forall k :: 0 <= k < |AcceptedIndices(raws)| ==>
      AcceptedIndices(raws)[k] < |raws| && Accept(raws[AcceptedIndices(raws)[k]]) == Some(Accepted(raws)[k])
    ensures forall k, m :: 0 <= k < m < |AcceptedIndices(raws)| ==> AcceptedIndices(raws)[k] < AcceptedIndices(raws)[m]
    ensures forall i :: 0 <= i < |raws| && Accept(raws[i]).Some? ==> i in AcceptedIndices(raws)
  {
    if raws != [] {
      var init := raws[..|raws| - 1];
      AcceptedInOrder(init);
      forall i | 0 <= i < |init| ensures raws[i] == init[i] { }
    }
  }

  /** Filtering distributes over concatenation: boxes are judged one at a time. */
  lemma {:induction false} AcceptedAppend(a: seq<RawBox>, b: seq<RawBox>)
    ensures Accepted(a + b) == Accepted(a) + Accepted(b)
  {
    if b == [] {
      assert a + b == a;
    } else {
      var b' := b[..|b| - 1];
      AcceptedAppend(a, b');
      assert (a + b)[..|a + b| - 1] == a + b';
    }
  }

  /** A box with an out-of-range class index is skipped silently: it adds nothing. */
  lemma OutOfRangeIndexSkipped(raws: seq<RawBox>, r: RawBox)
    requires r.classIndex >= |DiseaseLabels|
    ensures Accepted(raws + [r]) == Accepted(raws)
  {
    assert (raws + [r])[..|raws|] == raws;
  }

  /** Every label in the set of an accepted sequence is a vocabulary label, and the set is empty only for no detections. */
  lemma {:induction false} LabelSetOfAccepted(raws: seq<RawBox>)
    ensures forall l :: l in LabelSet(Accepted(raws)) ==> l in DiseaseLabels
    ensures LabelSet(Accepted(raws)) == {} <==> Accepted(raws) == []
  {
    var ds := Accepted(raws);
    if ds != [] {
      assert ds[0].disease in LabelSet(ds);
    }
  }

  /** `LabelSet` depends only on which detections occur, not on their order. */
  lemma LabelSetOfPermutation(a: seq<Detection>, b: seq<Detection>)
    requires multiset(a) == multiset(b)
    ensures LabelSet(a) == LabelSet(b)
  {
    forall l | l in LabelSet(a) ensures l in LabelSet(b) {
      var i :| 0 <= i < |a| && a[i].disease == l;
      assert a[i] in multiset(b);
      var j :| 0 <= j < |b| && b[j] == a[i];
    }
    forall l | l in LabelSet(b) ensures l in LabelSet(a) {
      var j :| 0 <= j < |b| && b[j].disease == l;
      assert b[j] in multiset(a);
      var i :| 0 <= i < |a| && a[i] == b[j];
    }
  }
}
