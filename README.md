# Tomato disease detection: detection filter and condition classifier

This project models the post-processing step of the tomato disease detection
service's `/detect` endpoint (`yolo_api.py`). The endpoint takes the boxes an
object-detection model returns for an uploaded image and does three things:

- It keeps a box when its confidence reaches `CONFIDENCE_THRESHOLD` (0.5),
  its class index names one of the seven labels of `disease_labels`, and that
  label has a colour in `class_colors`.
- It draws every kept box on the image: the outline, a filled label
  background above the box, and the label text. Each kept box also goes into
  `detection_list` and `detected_diseases`, and adds one to
  `num_boxes_detected`.
- It derives the verdict ("Kondisi Tomat") and the remark ("Keterangan").
  The verdict is "Healthy", "Not Healthy" (the remark lists the diseases), or
  "Bukan Gambar Tomat" (not a tomato). The last one returns early, without
  detections, image URL or a stored record.

Modules:

- `Vocabulary` (vocabulary.dfy) holds the constant tables.
- `Filter` (filter.dfy) holds the per-box acceptance rule and `Accepted`, the
  specification function for the whole box sequence.
- `Annotate` (annotate.dfy) describes the drawing as a log of drawing calls.
  It also gives the geometry of the label background.
- `Condition` (condition.dfy) is the classifier. It also holds `', '.join`
  and a parser that reads a joined list back.
- `Detect` (detect.dfy) is the imperative loop of the endpoint, plus the
  response and the stored record.
- `Wrappers` (wrappers.dfy) holds `Option` and `NoDuplicates`.

The model comes from the code in these places:

- The "Not Healthy" remark lists the diseases in Python's set iteration
  order, which depends on string hashes, not in the order they were first
  seen. So the iteration order is an input to the model. `IsEnumeration` describes it, and
  the nondeterministic method `IterateSet` chooses it. Every property is
  proved for every such order.
- The threshold is the constant 0.5 (yolo_api.py:47).
- Inputs from outside the core are parameters. The model's output is
  `results: seq<seq<RawBox>>` (one sequence of boxes per result). The font's
  measurement of a label text is `textHeight`. The public URL of the uploaded
  image is `imageUrl`, and `datetime.now()` is `timestamp`.

## Model

| member | source | states |
|---|---|---|
| Vocabulary.PaletteCoversVocabulary | yolo_api.py:34-45 | the palette has a colour for exactly the seven vocabulary labels |
| Vocabulary.VocabularyHasNoDuplicates | yolo_api.py:34 | the vocabulary has seven labels, each one different |
| Vocabulary.NoLabelHasComma | yolo_api.py:34 | no label contains a comma, so a comma-joined list of labels can be split back |
| Filter.Accept | yolo_api.py:77-85 | a kept box becomes a detection with a vocabulary label that has a palette colour, and with the box's own confidence and coordinates |
| Filter.AcceptIff | yolo_api.py:79-83 | a box is kept iff its confidence is at least 0.5 and its class index is below 7, and then its label is `disease_labels[class_index]`; the palette test never rejects anything more |
| Filter.OutOfRangeIndexSkipped | yolo_api.py:81-83 | a box whose class index is past the vocabulary adds nothing to the detections, and no error is raised |
| Filter.Accepted | yolo_api.py:75-100 | there are no more detections than boxes, and each detection has a vocabulary label and a confidence of at least the threshold |
| Filter.AcceptedInOrder | yolo_api.py:94-98 | the detection list has one entry per kept box, in visiting order: entry k comes from the k-th kept position, the positions ascend, and every kept position is among them |
| Filter.AcceptedAppend | yolo_api.py:75-76 | each box is judged on its own, so filtering boxes from two results is filtering each and concatenating |
| Filter.LabelSetOfAccepted | yolo_api.py:81-99 | every label in `detected_diseases` is a vocabulary label, and the set is empty exactly when no box was kept |
| Filter.LabelSetOfPermutation | yolo_api.py:99 | the label set depends only on which detections occur, not on their order |
| Annotate.LabelBackgroundSitsOnBox | yolo_api.py:89-91 | the label background is as wide as the box and as high as the text, and its bottom edge is the top of the box; nothing clamps it to the image, so its top is negative exactly when the text is taller than `y_min` |
| Annotate.Annotations | yolo_api.py:87-92 | three drawing calls are made per detection |
| Annotate.AnnotationsAt | yolo_api.py:87-92 | calls 3k, 3k+1 and 3k+2 draw the k-th detection: its outline, its label background and its label text, in that order |
| Condition.NonHealthy | yolo_api.py:108 | the list comprehension keeps exactly the labels other than `'Healthy'`, and keeps them free of duplicates |
| Condition.NameInjective | yolo_api.py:104-111 | the verdict strings "Healthy", "Not Healthy" and "Bukan Gambar Tomat" are pairwise different, so the string in the response determines the verdict |
| Condition.SingletonTest | yolo_api.py:103 | the test `'Healthy' in s and len(s) == 1` holds exactly when `s == {'Healthy'}` |
| Condition.Classify | yolo_api.py:103-112 | the verdict is "Bukan Gambar Tomat" iff the count is 0, and "Healthy" iff the count is positive and the label set is `{'Healthy'}`; these two verdicts come with their fixed remarks |
| Condition.ClassifyByLabels | yolo_api.py:103-109 | when a positive count means a non-empty set: "Healthy" iff every label is `'Healthy'`, and "Not Healthy" iff some label is not |
| Condition.ParseJoin | yolo_api.py:108 | splitting `', '.join(names)` gives back `names` when no name contains a comma |
| Condition.RemarkNamesEachDiseaseOnce | yolo_api.py:106-109 | a "Not Healthy" remark is the fixed prefix followed by the `', '`-join of a non-empty list that names each detected label other than `'Healthy'` exactly once, and never names `'Healthy'` |
| Condition.EnumerationsAgree | yolo_api.py:108 | whatever order Python iterates the set in, the remark names the same diseases |
| Condition.IterateSet | yolo_api.py:108 | iterating the set visits each element exactly once |
| Detect.VisitBox | yolo_api.py:77-100 | one pass of the inner loop appends the box's detection when it is kept, and nothing otherwise; it keeps the counter, the label set and the drawings in step with the list |
| Detect.ScanBoxes | yolo_api.py:76-100 | the inner loop over the boxes of one result extends `detection_list` with exactly the accepted boxes, in order, and keeps the counter, the label set and the drawings in step |
| Detect.ScanResults | yolo_api.py:63-100 | after the nested loops, `detection_list` holds the accepted detections of all results in order, `num_boxes_detected` is its length, `detected_diseases` is the set of its labels, and the image shows exactly their drawings |
| Detect.VerdictOfDetections | yolo_api.py:103-109 | "Healthy" iff at least one detection and all are `'Healthy'`; "Not Healthy" iff some detection is not `'Healthy'`, and then the remark is the prefix followed by the `', '`-join of a list naming each other label once |
| Detect.LabelsOfDetections | yolo_api.py:99 | a label is in `detected_diseases` iff some detection carries it |
| Detect.ClassifyIgnoresDetectionOrder | yolo_api.py:103-109 | reordering the detections does not change the verdict or the diseases the remark names |
| Detect.OneBacterialSpotBox | yolo_api.py:79-109 | one box of class 2 with confidence 0.8 gives one "bacterial-Spot" detection with that box, its label set is `{'bacterial-Spot'}`, and classifying those detections gives a "Not Healthy" remark that names only that disease |
| Detect.HealthyAndCracking | yolo_api.py:103-109 | with labels `'Healthy'` and `'cracking'` and any positive count, the verdict is "Not Healthy" and the remark names "cracking" exactly once, in either iteration order |
| Detect.Detect | yolo_api.py:103-151 | with no detections, the response is "Bukan Gambar Tomat" with its fixed remark and count 0, and there are no detections, URL, stored record or uploaded image; otherwise the response and the stored record both carry the verdict, remark, count, detections and URL, the annotated image is uploaded, and the verdict follows the labels as described above; a "Not Healthy" remark is the prefix followed by the `', '`-join of a list naming each non-Healthy label once |

## Left out

- HTTP routing, reading `request.files`, the 400 reply "No image provided", and `jsonify` are request/response plumbing. The scratch-file save and `os.remove` are file-system effects.
- Model inference (`model.predict`, RT-DETR/YOLO) is a foreign model. Its output is the input `results`.
- Opening the image, loading the font with the `IOError` fallback, and `img.save` are library effects. Drawing is modelled as a returned log of drawing calls, not as changes to pixels.
- The measured text height comes from PIL's font metrics. It is the parameter `textHeight`, a function of the label and the confidence, which is what the label text is made from.
- The label text `f'{disease_name} {confidence:.2f}'` is kept as its label and confidence. Float formatting is not modelled.
- Confidence and box coordinates are `real`, not IEEE floats. Tensor-to-float conversions (`float(box.conf)`, `.item()`) are the identity.
- The class index is a `nat`, because the detector emits no negative class. For a negative index the test `class_index < len(disease_labels)` would pass: indices -7 to -1 would pick a label counted from the end of the list, and an index of -8 or lower would raise `IndexError`.
- The Firebase Storage upload, `make_public`, the Firestore `add`, `uuid` and `datetime.now()` are external services and a clock. The model returns the record that would be added and the image that would be uploaded. The URL and timestamp are parameters.
- The articles endpoints (`create_article`, `get_articles`, `get_article_by_id`) are thin Firestore/Storage wrappers.
- `server.js` is a network proxy in front of the service.
- Condition.Classify: the order of names in a "Not Healthy" remark is not fixed, because Python's set iteration order is not. The model takes that order as an input and states only order-free facts about it.
