/**
 * The `/detect` endpoint after model inference: the nested loop over the
 * model's results that filters boxes, draws them and accumulates the
 * detection list, the label set and the box counter; then the verdict and
 * the response, plus the record stored when something was detected.
 */
module Detect {
  import opened Wrappers
  import opened Vocabulary
  import opened Filter
  import opened Annotate
  import opened Condition

  /**
   * The JSON response: "Kondisi Tomat" (written as `condition.Name()`), "Keterangan", "num_boxes_detected",
   * and, when something was detected, "detections" and "image_url".
   */
  datatype Response = Response(
    condition: Condition,
    remark: string,
    numBoxesDetected: nat,
    detections: Option<seq<Detection>>,
    imageUrl: Option<string>)

  /** The document added to the `tomato_detections` collection. */
  datatype Record = Record(
    timestamp: nat,
    condition: Condition,
    remark: string,
    numBoxesDetected: nat,
    detections: seq<Detection>,
    imageUrl: string)

  /** The detections the endpoint accepts from the model's results. */
  function AcceptedOf(results: seq<seq<RawBox>>): seq<Detection>
  {
    Accepted(Flatten(results))
  }

  lemma LabelSetAppend(ds: seq<Detection>, d: Detection)
    ensures LabelSet(ds + [d]) == LabelSet(ds) + {d.disease}
  {
    var e := ds + [d];
    assert e[|ds|] == d;
    forall l | l in LabelSet(ds) ensures l in LabelSet(e) {
      var i :| 0 <= i < |ds| && ds[i].disease == l;
      assert e[i] == ds[i];
    }
  }

  lemma AcceptedSnoc(seen: seq<RawBox>, box: RawBox)
    ensures Accepted(seen + [box])
         == Accepted(seen) + (if Accept(box).Some? then [Accept(box).value] else [])
  {
    assert (seen + [box])[..|seen|] == seen;
  }

  lemma AnnotationsSnoc(ds: seq<Detection>, d: Detection, textHeight: (string, real) -> real)
    requires AllColored(ds) && d.disease in ClassColors
    ensures AllColored(ds + [d])
    ensures Annotations(ds + [d], textHeight)
         == Annotations(ds, textHeight) + Annotation(d, textHeight(d.disease, d.confidence))
  {
    assert (ds + [d])[..|ds|] == ds;
  }

  /**
   * The state the detection loop keeps in step: the label set and the
   * counter agree with the list, and the image shows exactly the drawings of
   * the listed detections.
   */
  predicate InStep(detectionList: seq<Detection>, detectedDiseases: set<string>, numBoxesDetected: nat,
                   drawn: seq<DrawOp>, textHeight: (string, real) -> real)
  {
    && detectedDiseases == LabelSet(detectionList)
    && numBoxesDetected == |detectionList|
    && AllColored(detectionList)
    && drawn == Annotations(detectionList, textHeight)
  }

  /**
   * The body of the inner `for` loop, for one box: when it passes the
   * filter, draw its outline, label background and label text, append it to
   * `detection_list`, add its label to `detected_diseases` and count it.
   */
  method VisitBox(box: RawBox, textHeight: (string, real) -> real,
                  detectionList: seq<Detection>, detectedDiseases: set<string>, numBoxesDetected: nat, drawn: seq<DrawOp>)
    returns (detectionList': seq<Detection>, detectedDiseases': set<string>, numBoxesDetected': nat, drawn': seq<DrawOp>)
    requires InStep(detectionList, detectedDiseases, numBoxesDetected, drawn, textHeight)
    ensures detectionList' == detectionList + (if Accept(box).Some? then [Accept(box).value] else [])
    ensures InStep(detectionList', detectedDiseases', numBoxesDetected', drawn', textHeight)
  {
    detectionList', detectedDiseases', numBoxesDetected', drawn' := detectionList, detectedDiseases, numBoxesDetected, drawn;
    var confidence := box.confidence;
    if confidence >= ConfidenceThreshold {
      var diseaseName := LabelAt(box.classIndex);
      if diseaseName.Some? && diseaseName.value in ClassColors {
        var name := diseaseName.value;
        var b := box.xyxy;
        var color := ClassColors[name];
        drawn' := drawn' + [Outline(b, color, OutlineWidth)];
        var textYMin := b.yMin - textHeight(name, confidence);
        drawn' := drawn' + [Fill(Box(b.xMin, textYMin, b.xMax, b.yMin), color)];
        drawn' := drawn' + [Text(b.xMin, textYMin, name, confidence, White)];
        var d := Detection(name, confidence, b);
        assert drawn' == drawn + Annotation(d, textHeight(name, confidence));
        LabelSetAppend(detectionList, d);
        AnnotationsSnoc(detectionList, d, textHeight);
        detectionList' := detectionList' + [d];
        detectedDiseases' := detectedDiseases' + {name};
        numBoxesDetected' := numBoxesDetected' + 1;
      }
    }
  }

  /**
   * The inner `for` loop, over the boxes of one result: it extends the list
   * with the accepted boxes, in order, keeping the rest of the state in step.
   */
  method ScanBoxes(boxes: seq<RawBox>, textHeight: (string, real) -> real, ghost before: seq<RawBox>,
                   detectionList: seq<Detection>, detectedDiseases: set<string>, numBoxesDetected: nat, drawn: seq<DrawOp>)
    returns (detectionList': seq<Detection>, detectedDiseases': set<string>, numBoxesDetected': nat, drawn': seq<DrawOp>)
    requires detectionList == Accepted(before)
    requires InStep(detectionList, detectedDiseases, numBoxesDetected, drawn, textHeight)
    ensures detectionList' == Accepted(before + boxes)
    ensures InStep(detectionList', detectedDiseases', numBoxesDetected', drawn', textHeight)
  {
    detectionList', detectedDiseases', numBoxesDetected', drawn' := detectionList, detectedDiseases, numBoxesDetected, drawn;
    var j := 0;
    assert before + boxes[..0] == before;
    while j < |boxes|
      invariant 0 <= j <= |boxes|
      invariant detectionList' == Accepted(before + boxes[..j])
      invariant InStep(detectionList', detectedDiseases', numBoxesDetected', drawn', textHeight)
    {
      assert before + boxes[..j + 1] == (before + boxes[..j]) + [boxes[j]];
      AcceptedSnoc(before + boxes[..j], boxes[j]);
      detectionList', detectedDiseases', numBoxesDetected', drawn' :=
        VisitBox(boxes[j], textHeight, detectionList', detectedDiseases', numBoxesDetected', drawn');
      j := j + 1;
    }
    assert boxes[..j] == boxes;
  }

  /**
   * The nested `for` loops over the model's results and their boxes: the
   * list holds the accepted detections in visiting order, the set their
   * labels, the counter their number, and the image their drawings.
   */
  method ScanResults(results: seq<seq<RawBox>>, textHeight: (string, real) -> real)
    returns (detectionList: seq<Detection>, detectedDiseases: set<string>, numBoxesDetected: nat, drawn: seq<DrawOp>)
    ensures detectionList == AcceptedOf(results)
    ensures InStep(detectionList, detectedDiseases, numBoxesDetected, drawn, textHeight)
  {
    numBoxesDetected := 0;
    detectionList := [];
    detectedDiseases := {};
    drawn := [];
    var i := 0;
    while i < |results|
      invariant 0 <= i <= |results|
      invariant detectionList == Accepted(Flatten(results[..i]))
      invariant InStep(detectionList, detectedDiseases, numBoxesDetected, drawn, textHeight)
    {
      detectionList, detectedDiseases, numBoxesDetected, drawn :=
        ScanBoxes(results[i], textHeight, Flatten(results[..i]), detectionList, detectedDiseases, numBoxesDetected, drawn);
      assert results[..i + 1][..i] == results[..i];
      i := i + 1;
    }
    assert results[..i] == results;
  }

  /**
   * The endpoint after inference. `imageUrl` is the public URL the object
   * store gives the uploaded annotated image and `timestamp` the clock's
   * reading; both are used only when something was detected. `uploaded` is
   * the annotated image that is saved and uploaded, if any.
   */
  method Detect(results: seq<seq<RawBox>>, textHeight: (string, real) -> real, imageUrl: string, timestamp: nat)
    returns (response: Response, record: Option<Record>, uploaded: Option<seq<DrawOp>>)
    ensures response.numBoxesDetected == |AcceptedOf(results)|
    ensures AcceptedOf(results) == [] ==>
      response == Response(NotATomato, NotATomatoRemark, 0, None, None) && record == None && uploaded == None
    ensures AcceptedOf(results) != [] ==>
      && response.detections == Some(AcceptedOf(results))
      && response.imageUrl == Some(imageUrl)
      && record == Some(Record(timestamp, response.condition, response.remark, response.numBoxesDetected, AcceptedOf(results), imageUrl))
      && AllColored(AcceptedOf(results))
      && uploaded == Some(Annotations(AcceptedOf(results), textHeight))
    ensures response.condition == Healthy <==>
      AcceptedOf(results) != [] && forall d :: d in AcceptedOf(results) ==> d.disease == HealthyLabel
    ensures response.condition == Healthy ==> response.remark == HealthyRemark
    ensures response.condition == NotHealthy <==>
      exists d :: d in AcceptedOf(results) && d.disease != HealthyLabel
    ensures response.condition == NotHealthy ==>
      && ParseRemark(response.remark).Some?
      && ParseRemark(response.remark).value != []
      && IsEnumeration(ParseRemark(response.remark).value, LabelSet(AcceptedOf(results)) - {HealthyLabel})
      && response.remark == NotHealthyPrefix + Join(ParseRemark(response.remark).value)
  {
    var detectionList, detectedDiseases, numBoxesDetected, drawn := ScanResults(results, textHeight);
    var iteration := IterateSet(detectedDiseases);
    var verdict := Classify(numBoxesDetected, detectedDiseases, iteration);
    VerdictOfDetections(detectionList, iteration);
    if verdict.condition == NotATomato {
      response := Response(verdict.condition, verdict.remark, numBoxesDetected, None, None);
      record := None;
      uploaded := None;
      return;
    }
    uploaded := Some(drawn);
    record := Some(Record(timestamp, verdict.condition, verdict.remark, numBoxesDetected, detectionList, imageUrl));
    response := Response(verdict.condition, verdict.remark, numBoxesDetected, Some(detectionList), Some(imageUrl));
  }

  /**
   * The verdict in terms of the detections themselves: "Healthy" iff there
   * is at least one and all are `'Healthy'`; "Not Healthy" iff some is not,
   * and then the remark names each of their other labels exactly once.
   */
  lemma {:induction false} VerdictOfDetections(ds: seq<Detection>, iteration: seq<string>)
    requires forall i :: 0 <= i < |ds| ==> ds[i].disease in DiseaseLabels
    requires IsEnumeration(iteration, LabelSet(ds))
    ensures Classify(|ds|, LabelSet(ds), iteration).condition == Healthy
        <==> ds != [] && forall d :: d in ds ==> d.disease == HealthyLabel
    ensures Classify(|ds|, LabelSet(ds), iteration).condition == NotHealthy
        <==> exists d :: d in ds && d.disease != HealthyLabel
    ensures Classify(|ds|, LabelSet(ds), iteration).condition == NotHealthy ==>
      var names := ParseRemark(Classify(|ds|, LabelSet(ds), iteration).remark);
      && names.Some? && names.value != [] && IsEnumeration(names.value, LabelSet(ds) - {HealthyLabel})
      && Classify(|ds|, LabelSet(ds), iteration).remark == NotHealthyPrefix + Join(names.value)
  {
    var labels := LabelSet(ds);
    LabelsOfDetections(ds);
    if ds != [] {
      assert ds[0].disease in labels;
    }
    ClassifyByLabels(|ds|, labels, iteration);
    if forall d :: d in ds ==> d.disease == HealthyLabel {
      forall l | l in labels ensures l == HealthyLabel {
        var i :| 0 <= i < |ds| && ds[i].disease == l;
        assert ds[i] in ds;
      }
    }
    if forall l :: l in labels ==> l == HealthyLabel {
      forall d | d in ds ensures d.disease == HealthyLabel {
        var i :| 0 <= i < |ds| && ds[i] == d;
        assert ds[i].disease in labels;
      }
    }
    if Classify(|ds|, labels, iteration).condition == NotHealthy {
      NoLabelHasComma();
      RemarkNamesEachDiseaseOnce(|ds|, labels, iteration);
    }
  }

  /** A label is in the set of a detection sequence exactly when some detection carries it. */
  lemma LabelsOfDetections(ds: seq<Detection>)
    ensures forall l :: l in LabelSet(ds) <==> exists d :: d in ds && d.disease == l
  {
    forall l | l in LabelSet(ds) ensures exists d :: d in ds && d.disease == l {
      var i :| 0 <= i < |ds| && ds[i].disease == l;
      assert ds[i] in ds;
    }
    forall l | (exists d :: d in ds && d.disease == l) ensures l in LabelSet(ds) {
      var d :| d in ds && d.disease == l;
      var i :| 0 <= i < |ds| && ds[i] == d;
    }
  }

  /**
   * The verdict is a function of the multiset of detections: reordering the
   * boxes, and whichever order Python iterates the label set in, gives the
   * same condition and a remark naming the same diseases.
   */
  lemma {:induction false} ClassifyIgnoresDetectionOrder(a: seq<Detection>, b: seq<Detection>, ia: seq<string>, ib: seq<string>)
    requires multiset(a) == multiset(b)
    requires IsEnumeration(ia, LabelSet(a)) && IsEnumeration(ib, LabelSet(b))
    ensures Classify(|a|, LabelSet(a), ia).condition == Classify(|b|, LabelSet(b), ib).condition
    ensures multiset(NonHealthy(ia)) == multiset(NonHealthy(ib))
  {
    LabelSetOfPermutation(a, b);
    assert |a| == |multiset(a)| == |multiset(b)| == |b|;
    EnumerationsAgree(ia, ib, LabelSet(a));
  }

  /** The verdict on an image whose only label is "bacterial-Spot". */
  lemma BacterialSpotVerdict()
    ensures Classify(1, {"bacterial-Spot"}, ["bacterial-Spot"]) == Verdict(NotHealthy, NotHealthyPrefix + "bacterial-Spot")
  {
    assert IsEnumeration(["bacterial-Spot"], {"bacterial-Spot"});
    assert NonHealthy(["bacterial-Spot"]) == ["bacterial-Spot"];
  }

  lemma OneBacterialSpotDetection(b: Box)
    ensures AcceptedOf([[RawBox(2, 0.8, b)]]) == [Detection("bacterial-Spot", 0.8, b)]
  {
    var raw := RawBox(2, 0.8, b);
    assert Flatten([[raw]]) == [raw];
    assert LabelAt(2) == Some("bacterial-Spot");
    assert Accept(raw) == Some(Detection("bacterial-Spot", 0.8, b));
    assert [raw][..0] == [];
  }

  lemma LabelSetOfOne(d: Detection)
    ensures LabelSet([d]) == {d.disease}
  {
    assert [d][0].disease in LabelSet([d]);
  }

  /**
   * One box of class 2 with confidence 0.8: one "bacterial-Spot" detection
   * with that box, and a "Not Healthy" remark naming that disease alone.
   */
  lemma OneBacterialSpotBox(b: Box)
    ensures AcceptedOf([[RawBox(2, 0.8, b)]]) == [Detection("bacterial-Spot", 0.8, b)]
    ensures var ds := AcceptedOf([[RawBox(2, 0.8, b)]]);
      LabelSet(ds) == {"bacterial-Spot"}
      && Classify(|ds|, LabelSet(ds), ["bacterial-Spot"]) == Verdict(NotHealthy, NotHealthyPrefix + "bacterial-Spot")
  {
    OneBacterialSpotDetection(b);
    LabelSetOfOne(Detection("bacterial-Spot", 0.8, b));
    BacterialSpotVerdict();
  }

  /**
   * Healthy and cracking fruit in one image: "Not Healthy", and the remark
   * names "cracking" once, however many cracking boxes there were.
   */
  lemma {:induction false} HealthyAndCracking(iteration: seq<string>)
    requires IsEnumeration(iteration, {HealthyLabel, "cracking"})
    ensures forall count: nat :: count > 0 ==>
      Classify(count, {HealthyLabel, "cracking"}, iteration) == Verdict(NotHealthy, NotHealthyPrefix + "cracking")
  {
    var names := NonHealthy(iteration);
    assert "cracking" in names;
    assert forall x :: x in names ==> x == "cracking";
    OnlyElement(names, "cracking");
    assert |{HealthyLabel, "cracking"}| == 2;
  }
}
