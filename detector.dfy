/** HazardDetector (src/detector.py): the mapping from the object
    detector's raw boxes to detection records, and the fusion of those
    records with the image-analysis detections. */
module Detector {
  import opened Common
  import opened Config
  import opened Detections

  // ---------------------------------------------------------------------
  // Adapter: raw boxes of the object detector -> detection records
  // ---------------------------------------------------------------------

  /** coco_hazard_mapping: COCO class names folded into hazard categories. */
  const COCO_HAZARD_MAPPING: map<string, string> := map[
    "person" := "person", "bicycle" := "bicycle", "car" := "car",
    "motorcycle" := "motorcycle", "bus" := "car", "truck" := "car",
    "chair" := "obstacle", "bench" := "obstacle", "potted plant" := "obstacle",
    "fire hydrant" := "obstacle", "stop sign" := "sign",
    "parking meter" := "obstacle", "backpack" := "obstacle", "suitcase" := "obstacle"
  ]

  /** `coco_hazard_mapping.get(name, name)`. */
  function HazardType(name: string): string {
    if name in COCO_HAZARD_MAPPING then COCO_HAZARD_MAPPING[name] else name
  }

  /** Remapping is idempotent: every hazard type maps to itself. */
  lemma HazardTypeIdempotent(name: string)
    ensures HazardType(HazardType(name)) == HazardType(name)
  {
    if name in COCO_HAZARD_MAPPING {
      var t := COCO_HAZARD_MAPPING[name];
      assert t in {"person", "bicycle", "car", "motorcycle", "obstacle", "sign"};
      assert HazardType(t) == t;
    }
  }

  /** Names outside the mapping pass through unchanged, and the classes the
      mapping folds together get the same priority. */
  lemma HazardTypePriority(name: string)
    ensures name !in COCO_HAZARD_MAPPING ==> HazardType(name) == name
    ensures name in {"bus", "truck"} ==> PriorityOf(HazardType(name)) == PriorityOf("car") == 3
    ensures HazardType(name) == "obstacle" ==> PriorityOf(HazardType(name)) == 1
  {
  }

  /** One box of the object detector's output: float corners, a confidence
      and the detector's class name. */
  datatype RawBox = RawBox(x1: real, y1: real, x2: real, y2: real, confidence: real, className: string)

  /** The 'center' key: the midpoint of the box, each coordinate truncated. */
  function CenterOf(r: RawBox): (int, int) {
    (Trunc((r.x1 + r.x2) / 2.0), Trunc((r.y1 + r.y2) / 2.0))
  }

  /** The truncated centre lies inside the truncated box. */
  lemma CenterInsideBox(r: RawBox)
    requires r.x1 <= r.x2 && r.y1 <= r.y2
    ensures Trunc(r.x1) <= CenterOf(r).0 <= Trunc(r.x2)
    ensures Trunc(r.y1) <= CenterOf(r).1 <= Trunc(r.y2)
  {
    TruncMonotone(r.x1, (r.x1 + r.x2) / 2.0);
    TruncMonotone((r.x1 + r.x2) / 2.0, r.x2);
    TruncMonotone(r.y1, (r.y1 + r.y2) / 2.0);
    TruncMonotone((r.y1 + r.y2) / 2.0, r.y2);
  }

  /** The record `detect` builds from one raw box. */
  predicate BuiltFrom(d: Detection, r: RawBox)
    reads d
  {
    && d.className == HazardType(r.className)
    && d.originalClass == r.className
    && d.confidence == r.confidence
    && d.bbox == Box(Trunc(r.x1), Trunc(r.y1), Trunc(r.x2), Trunc(r.y2))
    && d.center == CenterOf(r)
    && d.priority == PriorityOf(HazardType(r.className))
    && d.Unanalyzed()
  }

  /** The record-building loop of `detect`: one new record per raw box, in order. */
  method Detect(raws: seq<RawBox>) returns (ds: seq<Detection>)
    ensures |ds| == |raws|
    ensures forall i :: 0 <= i < |ds| ==> fresh(ds[i]) && BuiltFrom(ds[i], raws[i])
    ensures forall i, j :: 0 <= i < j < |ds| ==> ds[i] != ds[j]
  {
    ds := [];
    for i := 0 to |raws|
      invariant |ds| == i
      invariant forall k :: 0 <= k < i ==> fresh(ds[k]) && BuiltFrom(ds[k], raws[k])
      invariant forall k, l :: 0 <= k < l < i ==> ds[k] != ds[l]
    {
      var r := raws[i];
      var hazardType := HazardType(r.className);
      var d := new Detection(hazardType, r.className, r.confidence,
                             Box(Trunc(r.x1), Trunc(r.y1), Trunc(r.x2), Trunc(r.y2)),
                             CenterOf(r), PriorityOf(hazardType));
      ds := ds + [d];
    }
  }

  // ---------------------------------------------------------------------
  // Intersection over union
  // ---------------------------------------------------------------------

  function Max(a: int, b: int): int { if a >= b then a else b }
  function Min(a: int, b: int): int { if a <= b then a else b }

  function Area(b: Box): int {
    (b.x2 - b.x1) * (b.y2 - b.y1)
  }

  /** The corners of the intersection rectangle of two boxes. */
  function Intersection(a: Box, b: Box): Box {
    Box(Max(a.x1, b.x1), Max(a.y1, b.y1), Min(a.x2, b.x2), Min(a.y2, b.y2))
  }

  /** The intersection has strictly positive width and height. */
  predicate Intersects(a: Box, b: Box) {
    var i := Intersection(a, b);
    i.x2 > i.x1 && i.y2 > i.y1
  }

  /** The IoU that combine_detections computes; 0 where it computes none
      (no positive intersection, or a union that is not positive). */
  function IoU(cv: Box, ml: Box): (r: real)
    ensures 0.0 <= r <= 1.0
    ensures r > 0.0 ==> Intersects(cv, ml)
  {
    if Intersects(cv, ml) then
      var inter := Area(Intersection(cv, ml));
      var union := Area(cv) + Area(ml) - inter;
      IntersectionBounds(cv, ml);
      if union > 0 then inter as real / union as real else 0.0
    else 0.0
  }

  lemma MulMonotone(a: int, b: int, c: int, d: int)
    requires 0 < a <= c && 0 < b <= d
    ensures 0 < a * b <= c * d
  {
    assert a * b <= c * b;
    assert c * b <= c * d;
  }

  /** A positive intersection is no larger than either box. */
  lemma IntersectionBounds(a: Box, b: Box)
    requires Intersects(a, b)
    ensures 0 < Area(Intersection(a, b)) <= Area(a)
    ensures Area(Intersection(a, b)) <= Area(b)
  {
    var i := Intersection(a, b);
    MulMonotone(i.x2 - i.x1, i.y2 - i.y1, a.x2 - a.x1, a.y2 - a.y1);
    MulMonotone(i.x2 - i.x1, i.y2 - i.y1, b.x2 - b.x1, b.y2 - b.y1);
  }

  /** Whenever the intersection is positive the union is too, so the
      source's `else 0` guard on the union is never taken. */
  lemma UnionPositive(a: Box, b: Box)
    requires Intersects(a, b)
    ensures Area(a) + Area(b) - Area(Intersection(a, b)) > 0
  {
    IntersectionBounds(a, b);
  }

  /** IoU does not depend on which box is the image-analysis one. */
  lemma IoUSymmetric(a: Box, b: Box)
    ensures IoU(a, b) == IoU(b, a)
  {
    assert Intersection(a, b) == Intersection(b, a);
  }

  /** "Significant overlap": IoU above 0.3. */
  predicate Overlaps(cv: Box, ml: Box) {
    Intersects(cv, ml) && IoU(cv, ml) > 0.3
  }

  /** The overlap test in integers: 10 * intersection > 3 * union. */
  lemma OverlapsInIntegers(cv: Box, ml: Box)
    ensures Overlaps(cv, ml) <==>
      Intersects(cv, ml) &&
      10 * Area(Intersection(cv, ml)) > 3 * (Area(cv) + Area(ml) - Area(Intersection(cv, ml)))
  {
    if Intersects(cv, ml) {
      var inter := Area(Intersection(cv, ml));
      var union := Area(cv) + Area(ml) - inter;
      UnionPositive(cv, ml);
      assert IoU(cv, ml) == inter as real / union as real;
      DivAbove(inter as real, union as real, 0.3);
    }
  }

  lemma DivAbove(a: real, b: real, c: real)
    requires b > 0.0
    ensures a / b > c <==> a > c * b
  {
    var q := a / b;
    assert q * b == a;
    if q > c {
      assert (q - c) * b > 0.0;
    } else {
      assert (c - q) * b >= 0.0;
    }
  }

  // ---------------------------------------------------------------------
  // Fusion
  // ---------------------------------------------------------------------

  /** Some ML detection overlaps the image-analysis detection `c`. */
  predicate IsDuplicate(c: Detection, ml: seq<Detection>) {
    exists j :: 0 <= j < |ml| && Overlaps(c.bbox, ml[j].bbox)
  }

  /** The image-analysis detections that survive fusion, in their order. */
  function KeptCv(ml: seq<Detection>, cv: seq<Detection>): seq<Detection> {
    if cv == [] then []
    else KeptCv(ml, cv[..|cv| - 1]) + (if IsDuplicate(cv[|cv| - 1], ml) then [] else [cv[|cv| - 1]])
  }

  /** combine_detections: a copy of the ML list followed by every image-analysis
      detection that no ML detection overlaps. Nothing is mutated. */
  method CombineDetections(ml: seq<Detection>, cv: seq<Detection>) returns (all: seq<Detection>)
    ensures all == ml + KeptCv(ml, cv)
  {
    all := ml;
    for i := 0 to |cv|
      invariant all == ml + KeptCv(ml, cv[..i])
    {
      var cvDet := cv[i];
      var isDuplicate := false;
      var cvBox := cvDet.bbox;
      var j := 0;
      while j < |ml|
        invariant 0 <= j <= |ml|
        invariant !isDuplicate
        invariant forall k :: 0 <= k < j ==> !Overlaps(cvBox, ml[k].bbox)
      {
        var mlBox := ml[j].bbox;
        var x1 := Max(cvBox.x1, mlBox.x1);
        var y1 := Max(cvBox.y1, mlBox.y1);
        var x2 := Min(cvBox.x2, mlBox.x2);
        var y2 := Min(cvBox.y2, mlBox.y2);
        if x2 > x1 && y2 > y1 {
          var intersection := (x2 - x1) * (y2 - y1);
          var cvArea := (cvBox.x2 - cvBox.x1) * (cvBox.y2 - cvBox.y1);
          var mlArea := (mlBox.x2 - mlBox.x1) * (mlBox.y2 - mlBox.y1);
          var union := cvArea + mlArea - intersection;
          var iou := if union > 0 then intersection as real / union as real else 0.0;
          if iou > 0.3 {
            isDuplicate := true;
            break;
          }
        }
        j := j + 1;
      }
      assert isDuplicate <==> IsDuplicate(cvDet, ml);
      if !isDuplicate {
        all := all + [cvDet];
      }
      assert cv[..i + 1][..i] == cv[..i];
    }
    assert cv[..|cv|] == cv;
  }

  // ---------------------------------------------------------------------
  // Properties of fusion
  // ---------------------------------------------------------------------

  /** The positions in `cv` of the image-analysis detections that survive. */
  function KeptIndices(ml: seq<Detection>, cv: seq<Detection>): seq<int> {
    if cv == [] then []
    else KeptIndices(ml, cv[..|cv| - 1]) + (if IsDuplicate(cv[|cv| - 1], ml) then [] else [|cv| - 1])
  }

  /** A CV detection survives iff no ML detection overlaps it, and the
      survivors keep their original relative order. */
  lemma {:induction false} KeptCvCharacterized(ml: seq<Detection>, cv: seq<Detection>)
    ensures var idx := KeptIndices(ml, cv);
      && |idx| == |KeptCv(ml, cv)|
      && (forall k :: 0 <= k < |idx| ==> 0 <= idx[k] < |cv| && KeptCv(ml, cv)[k] == cv[idx[k]])
      && (forall k, l :: 0 <= k < l < |idx| ==> idx[k] < idx[l])
      && (forall i :: 0 <= i < |cv| ==> (i in idx <==> !IsDuplicate(cv[i], ml)))
  {
    if cv != [] {
      var n := |cv| - 1;
      var pre := cv[..n];
      KeptCvCharacterized(ml, pre);
      var idx0 := KeptIndices(ml, pre);
      assert forall k :: 0 <= k < |idx0| ==> idx0[k] < n;
      assert forall i :: 0 <= i < n ==> pre[i] == cv[i];
    }
  }

  /** Fusion treats each CV detection on its own: splitting the CV list
      splits the survivors the same way, so CV boxes are never compared
      with each other. */
  lemma {:induction false} KeptCvAppend(ml: seq<Detection>, a: seq<Detection>, b: seq<Detection>)
    ensures KeptCv(ml, a + b) == KeptCv(ml, a) + KeptCv(ml, b)
  {
    if b == [] {
      assert a + b == a;
    } else {
      var n := |b| - 1;
      KeptCvAppend(ml, a, b[..n]);
      assert (a + b)[..|a + b| - 1] == a + b[..n];
    }
  }

  lemma {:induction false} KeptCvLength(ml: seq<Detection>, cv: seq<Detection>)
    ensures |KeptCv(ml, cv)| <= |cv|
  {
    if cv != [] {
      KeptCvLength(ml, cv[..|cv| - 1]);
    }
  }

  /** Without ML detections every CV detection is kept. */
  lemma {:induction false} KeptCvWithoutMl(cv: seq<Detection>)
    ensures KeptCv([], cv) == cv
  {
    if cv != [] {
      KeptCvWithoutMl(cv[..|cv| - 1]);
      assert cv[..|cv| - 1] + [cv[|cv| - 1]] == cv;
    }
  }

  /** What combine_detections promises, stated on its result
      `ml + KeptCv(ml, cv)`: the ML detections come first, unchanged and in
      order, whatever the confidences; the length is between |ml| and
      |ml| + |cv|; an empty CV list gives the ML list and an empty ML list
      gives the CV list. */
  lemma FusionProperties(ml: seq<Detection>, cv: seq<Detection>)
    ensures var all := ml + KeptCv(ml, cv);
      && all[..|ml|] == ml
      && |ml| <= |all| <= |ml| + |cv|
      && (cv == [] ==> all == ml)
      && (ml == [] ==> all == cv)
  {
    KeptCvLength(ml, cv);
    KeptCvWithoutMl(cv);
    assert [] + cv == cv;
  }
}
