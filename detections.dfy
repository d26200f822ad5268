/** The detection record that flows from the detectors through the
    proximity estimator to the audio scheduler (a Python dict in the
    source). The keys every detector sets are constant fields; the five keys
    that the proximity analysis adds later, in place, are mutable fields that
    start out absent. */
module Detections {
  import opened Common

  /** `[x1, y1, x2, y2]` in pixels, top-left and bottom-right corners. */
  datatype Box = Box(x1: int, y1: int, x2: int, y2: int)

  /** The 'distance_category' value. */
  datatype Category = Immediate | Near | Far

  class Detection {
    const className: string
    const originalClass: string
    const confidence: real
    const bbox: Box
    const center: (int, int)
    const priority: int

    var distanceCategory: Option<Category>
    var distanceM: Option<real>
    var direction: Option<string>
    var directionPhrase: Option<string>
    var threatScore: Option<int>

    /** A record as the detectors build it, before any proximity analysis. */
    predicate Unanalyzed()
      reads this
    {
      distanceCategory.None? && distanceM.None? && direction.None? &&
      directionPhrase.None? && threatScore.None?
    }

    constructor (className: string, originalClass: string, confidence: real,
                 bbox: Box, center: (int, int), priority: int)
      ensures this.className == className && this.originalClass == originalClass
      ensures this.confidence == confidence && this.bbox == bbox
      ensures this.center == center && this.priority == priority
      ensures Unanalyzed()
    {
      this.className := className;
      this.originalClass := originalClass;
      this.confidence := confidence;
      this.bbox := bbox;
      this.center := center;
      this.priority := priority;
      distanceCategory, distanceM, direction := None, None, None;
      directionPhrase, threatScore := None, None;
    }
  }

  /** `d.get('threat_score', 0)`. */
  function ThreatOr0(d: Detection): int
    reads d
  {
    d.threatScore.GetOr(0)
  }

  /** The threat scores of a list of detections, in list order. */
  function ThreatScores(ds: seq<Detection>): (ks: seq<int>)
    reads ds
    ensures |ks| == |ds|
    ensures forall i :: 0 <= i < |ds| ==> ks[i] == ThreatOr0(ds[i])
  {
    if ds == [] then [] else ThreatScores(ds[..|ds| - 1]) + [ThreatOr0(ds[|ds| - 1])]
  }
}
