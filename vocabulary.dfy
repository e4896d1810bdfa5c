/**
 * The process-wide, read-only tables of the detection service: the ordered
 * label vocabulary indexed by the model's class index, the palette of box
 * colours, and the confidence threshold.
 */
module Vocabulary {
  import opened Wrappers

  /** One colour channel, 0..255 as PIL expects it. */
  newtype Channel = x: int | 0 <= x < 256

  datatype Color = RGB(red: Channel, green: Channel, blue: Channel)

  /** The label of the one class that is not a disease. */
  const HealthyLabel: string := "Healthy"

  /** The model's class index `i` names `DiseaseLabels[i]`. */
  const DiseaseLabels: seq<string> :=
    [HealthyLabel, "Rotten-Tomato", "bacterial-Spot", "blossomendrotrotation",
     "cracking", "spliting", "sunscaled"]

  /** The box colour of every label that is drawn. */
  const ClassColors: map<string, Color> := map[
    "bacterial-Spot" := RGB(14, 122, 254),
    HealthyLabel := RGB(199, 252, 0),
    "Rotten-Tomato" := RGB(0, 183, 235),
    "blossomendrotrotation" := RGB(134, 34, 255),
    "cracking" := RGB(254, 0, 86),
    "spliting" := RGB(0, 255, 206),
    "sunscaled" := RGB(255, 128, 0)
  ]

  /** A raw box with a confidence below this value is discarded. */
  const ConfidenceThreshold: real := 0.5

  /** `disease_labels[i] if i < len(disease_labels) else None`. */
  function LabelAt(classIndex: nat): Option<string>
  {
    if classIndex < |DiseaseLabels| then Some(DiseaseLabels[classIndex]) else None
  }

  /**
   * The palette has a colour for exactly the vocabulary's labels, so the
   * palette membership test rejects no label that the vocabulary produces.
   */
  lemma PaletteCoversVocabulary()
    ensures forall l :: l in ClassColors <==> l in DiseaseLabels
  {
  }

  /** The vocabulary names each label once. */
  lemma VocabularyHasNoDuplicates()
    ensures NoDuplicates(DiseaseLabels)
    ensures |DiseaseLabels| == 7
  {
  }

  /** No label contains a comma, so a comma-joined list of labels can be split back. */
  lemma NoLabelHasComma()
    ensures forall l :: l in DiseaseLabels ==> ',' !in l
  {
  }
}
