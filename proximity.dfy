/** ProximityEstimator (src/proximity.py): distance category and metres from
    box geometry, the five direction zones, the threat score, the choice of
    the most critical detection and the centre-corridor clearance. */
module Proximity {
  import opened Common
  import opened Config
  import opened Detections

  /** The 'direction' values. */
  datatype Direction = Center | Left | Right | FarLeft | FarRight

  function DirectionName(d: Direction): string {
    match d
    case Center => "center"
    case Left => "left"
    case Right => "right"
    case FarLeft => "far_left"
    case FarRight => "far_right"
  }

  /** Mirroring about the frame centre: left and right swap. */
  function Mirror(d: Direction): Direction {
    match d
    case Center => Center
    case Left => Right
    case Right => Left
    case FarLeft => FarRight
    case FarRight => FarLeft
  }

  /** Position from the far left (0) to the far right (4). */
  function DirectionRank(d: Direction): int {
    match d
    case FarLeft => 0
    case Left => 1
    case Center => 2
    case Right => 3
    case FarRight => 4
  }

  /** Closeness: far (0), near (1), immediate (2). */
  function CategoryRank(c: Category): int {
    match c
    case Far => 0
    case Near => 1
    case Immediate => 2
  }

  const DIRECTION_PHRASES: map<string, string> := map[
    "center" := "directly ahead", "left" := "on the left", "right" := "on the right",
    "far_left" := "far left", "far_right" := "far right"
  ]

  /** get_directional_phrase: a fixed phrase per zone, 'ahead' for anything else. */
  function DirectionalPhrase(direction: string): string {
    if direction in DIRECTION_PHRASES then DIRECTION_PHRASES[direction] else "ahead"
  }

  /** The five zones have five different phrases, none of them the fallback. */
  lemma DirectionalPhraseDistinct(d: Direction, e: Direction)
    ensures DirectionalPhrase(DirectionName(d)) != "ahead"
    ensures d != e ==> DirectionalPhrase(DirectionName(d)) != DirectionalPhrase(DirectionName(e))
  {
  }

  /** A string that names no zone gets the fallback phrase. */
  lemma DirectionalPhraseFallback(direction: string)
    requires forall d: Direction :: direction != DirectionName(d)
    ensures DirectionalPhrase(direction) == "ahead"
  {
    assert direction != DirectionName(Center) && direction != DirectionName(Left);
    assert direction != DirectionName(Right) && direction != DirectionName(FarLeft);
    assert direction != DirectionName(FarRight);
  }

  const DIRECTION_SCORES: map<string, int> := map[
    "center" := 10, "left" := 7, "right" := 7, "far_left" := 3, "far_right" := 3
  ]

  /** `direction_scores.get(direction, 5)`. */
  function DirectionScore(direction: string): int {
    if direction in DIRECTION_SCORES then DIRECTION_SCORES[direction] else 5
  }

  function DistanceScore(c: Category): int {
    match c
    case Immediate => 40
    case Near => 25
    case Far => 10
  }

  /** The threat score of analyze_detection. */
  function ThreatScore(priority: int, category: Category, direction: string): (r: int)
    ensures r <= 100
  {
    var total := priority * 10 + DistanceScore(category) + DirectionScore(direction);
    if total < 100 then total else 100
  }

  /** For a fixed priority and direction a closer category never lowers the score. */
  lemma ThreatMonotoneInCategory(priority: int, c1: Category, c2: Category, direction: string)
    requires CategoryRank(c1) <= CategoryRank(c2)
    ensures ThreatScore(priority, c1, direction) <= ThreatScore(priority, c2, direction)
  {
  }

  /** A higher priority never lowers the score. */
  lemma ThreatMonotoneInPriority(p1: int, p2: int, category: Category, direction: string)
    requires p1 <= p2
    ensures ThreatScore(p1, category, direction) <= ThreatScore(p2, category, direction)
  {
  }

  /** For a non-negative priority and one of the five zones the score lies in 13..100. */
  lemma ThreatRange(priority: int, category: Category, d: Direction)
    requires priority >= 0
    ensures 13 <= ThreatScore(priority, category, DirectionName(d)) <= 100
  {
  }

  /** Python `round(x, 1)` on an exact value: to the nearest tenth, ties to
      the even tenth. */
  function Round1(x: real): (r: real)
    ensures -0.05 <= r - x <= 0.05
    ensures (r * 10.0).Floor as real == r * 10.0
  {
    var k := (x * 10.0).Floor;
    var f := x * 10.0 - k as real;
    var n := if f > 0.5 then k + 1 else if f < 0.5 then k else if k % 2 == 0 then k else k + 1;
    n as real / 10.0
  }

  /** Rounding to tenths never crosses a bound that is itself a whole number of tenths. */
  lemma Round1Bounds(x: real, m: int)
    ensures m as real / 10.0 <= x ==> m as real / 10.0 <= Round1(x)
    ensures x <= m as real / 10.0 ==> Round1(x) <= m as real / 10.0
  {
    var k := (x * 10.0).Floor;
    if m as real / 10.0 <= x {
      assert m as real <= x * 10.0;
      assert m <= k;
    }
    if x <= m as real / 10.0 {
      assert x * 10.0 <= m as real;
      assert k <= m;
    }
  }

  function MinReal(a: real, b: real): real { if a <= b then a else b }
  function MaxReal(a: real, b: real): real { if a >= b then a else b }

  /** The estimator for one frame size. The pixel thresholds are cached at
      construction as in `__init__`: `int(H * ratio)`. */
  datatype ProximityEstimator = ProximityEstimator(frameWidth: int, frameHeight: int)
  {
    const immediateHeightPx: int := Trunc(frameHeight as real * IMMEDIATE_HEIGHT_RATIO)
    const immediateBottomPx: int := Trunc(frameHeight as real * IMMEDIATE_BOTTOM_RATIO)
    const nearHeightPx: int := Trunc(frameHeight as real * NEAR_HEIGHT_RATIO)
    const nearBottomPx: int := Trunc(frameHeight as real * NEAR_BOTTOM_RATIO)

    /** The ratios divide by the frame's width and height. */
    predicate Valid() {
      frameWidth > 0 && frameHeight > 0
    }

    /** 0.6 * bottom / H + 0.3 * height / H + 0.1 * area / (W * H). */
    function ProximityScore(b: Box): real
      requires Valid()
    {
      var height := b.y2 - b.y1;
      var width := b.x2 - b.x1;
      var heightRatio := height as real / frameHeight as real;
      var bottomRatio := b.y2 as real / frameHeight as real;
      var areaRatio := (height * width) as real / (frameWidth * frameHeight) as real;
      bottomRatio * 0.6 + heightRatio * 0.3 + areaRatio * 0.1
    }

    predicate IsImmediate(b: Box)
      requires Valid()
    {
      b.y2 - b.y1 > immediateHeightPx || b.y2 > immediateBottomPx || ProximityScore(b) > 0.7
    }

    predicate IsNear(b: Box)
      requires Valid()
    {
      b.y2 - b.y1 > nearHeightPx || b.y2 > nearBottomPx || ProximityScore(b) > 0.4
    }

    /** The distance formula of each category, before clamping. */
    function RawDistance(c: Category, score: real): real {
      match c
      case Immediate => MinReal(score * 3.0, 2.0)
      case Near => 2.0 + (0.7 - score) * 10.0
      case Far => 5.0 + (0.4 - score) * 20.0
    }

    /** calculate_distance_category: (category, metres). The metres are
        clamped to [0.5, 15] and rounded to one decimal; they are at most 2
        when immediate, at least 2 when near and at least 5 when far. */
    function CalculateDistanceCategory(b: Box): (r: (Category, real))
      requires Valid()
      ensures 0.5 <= r.1 <= 15.0
      ensures r.0 == Immediate ==> r.1 <= 2.0
      ensures r.0 == Near ==> r.1 >= 2.0
      ensures r.0 == Far ==> r.1 >= 5.0
    {
      var score := ProximityScore(b);
      var category := if IsImmediate(b) then Immediate else if IsNear(b) then Near else Far;
      var clamped := MaxReal(0.5, MinReal(RawDistance(category, score), 15.0));
      Round1Bounds(clamped, 5);
      Round1Bounds(clamped, 150);
      Round1Bounds(clamped, 20);
      Round1Bounds(clamped, 50);
      (category, Round1(clamped))
    }

    /** The category is immediate iff one of the three immediate tests holds,
        otherwise near iff one of the three near tests holds, otherwise far. */
    lemma CategoryCharacterized(b: Box)
      requires Valid()
      ensures CalculateDistanceCategory(b).0 == Immediate <==> IsImmediate(b)
      ensures CalculateDistanceCategory(b).0 == Near <==> !IsImmediate(b) && IsNear(b)
      ensures CalculateDistanceCategory(b).0 == Far <==> !IsImmediate(b) && !IsNear(b)
    {
    }

    /** Moving a box down the frame, keeping its size, never makes it farther. */
    lemma CloserWhenLower(b: Box, k: nat)
      requires Valid()
      ensures var lower := Box(b.x1, b.y1 + k, b.x2, b.y2 + k);
        CategoryRank(CalculateDistanceCategory(b).0) <= CategoryRank(CalculateDistanceCategory(lower).0)
    {
      var lower := Box(b.x1, b.y1 + k, b.x2, b.y2 + k);
      var h := frameHeight as real;
      assert (b.y2 + k) as real / h == b.y2 as real / h + k as real / h;
      assert ProximityScore(lower) == ProximityScore(b) + (k as real / h) * 0.6;
      assert k as real / h >= 0.0;
    }

    /** (center_x - W/2) / (W/2). */
    function OffsetRatio(b: Box): real
      requires Valid()
    {
      var centerX := (b.x1 + b.x2) as real / 2.0;
      var frameCenter := frameWidth as real / 2.0;
      (centerX - frameCenter) / frameCenter
    }

    /** calculate_direction. */
    function CalculateDirection(b: Box): Direction
      requires Valid()
    {
      var ratio := OffsetRatio(b);
      if (if ratio < 0.0 then -ratio else ratio) < 0.2 then Center
      else if ratio < -0.5 then FarLeft
      else if ratio < 0.0 then Left
      else if ratio > 0.5 then FarRight
      else Right
    }

    /** The zones in whole pixels: with s = x1 + x2 the doubled box centre,
        centre iff 5 * |s - W| < W, far left iff 2 * (s - W) < -W, far right
        iff 2 * (s - W) > W, and left/right on the remaining part of each side. */
    lemma DirectionInPixels(b: Box)
      requires Valid()
      ensures var s := b.x1 + b.x2 - frameWidth; var w := frameWidth;
        && (CalculateDirection(b) == Center <==> -w < 5 * s < w)
        && (CalculateDirection(b) == FarLeft <==> 5 * s <= -w && 2 * s < -w)
        && (CalculateDirection(b) == Left <==> 5 * s <= -w && -w <= 2 * s)
        && (CalculateDirection(b) == FarRight <==> 5 * s >= w && 2 * s > w)
        && (CalculateDirection(b) == Right <==> 5 * s >= w && 2 * s <= w)
    {
      var s := b.x1 + b.x2 - frameWidth;
      var w := frameWidth as real;
      assert OffsetRatio(b) == s as real / w;
      RatioScaled(s as real, w);
    }

    /** Mirroring a box about the frame centre mirrors its direction. */
    lemma DirectionMirror(b: Box)
      requires Valid()
      ensures CalculateDirection(Box(frameWidth - b.x2, b.y1, frameWidth - b.x1, b.y2)) == Mirror(CalculateDirection(b))
    {
      var m := Box(frameWidth - b.x2, b.y1, frameWidth - b.x1, b.y2);
      DirectionInPixels(b);
      DirectionInPixels(m);
    }

    /** Moving a box to the right never moves its direction to the left. */
    lemma DirectionMonotone(a: Box, b: Box)
      requires Valid()
      requires a.x1 + a.x2 <= b.x1 + b.x2
      ensures DirectionRank(CalculateDirection(a)) <= DirectionRank(CalculateDirection(b))
    {
      DirectionInPixels(a);
      DirectionInPixels(b);
    }

    /** The fields that analyze_detection writes, as a function of box and priority. */
    function AnalysisOf(b: Box, priority: int): (r: (Category, real, string, string, int))
      requires Valid()
      ensures 0.5 <= r.1 <= 15.0 && r.4 <= 100
    {
      var (category, distance) := CalculateDistanceCategory(b);
      var direction := DirectionName(CalculateDirection(b));
      (category, distance, direction, DirectionalPhrase(direction), ThreatScore(priority, category, direction))
    }

    /** analyze_detection: adds exactly the five proximity keys to the record,
        in place, and returns the same record. */
    method AnalyzeDetection(detection: Detection) returns (r: Detection)
      requires Valid()
      modifies detection
      ensures r == detection
      ensures var a := AnalysisOf(detection.bbox, detection.priority);
        && detection.distanceCategory == Some(a.0)
        && detection.distanceM == Some(a.1)
        && detection.direction == Some(a.2)
        && detection.directionPhrase == Some(a.3)
        && detection.threatScore == Some(a.4)
    {
      var bbox := detection.bbox;
      var (distanceCategory, distanceM) := CalculateDistanceCategory(bbox);
      var direction := DirectionName(CalculateDirection(bbox));
      var directionPhrase := DirectionalPhrase(direction);
      var threatScore := ThreatScore(detection.priority, distanceCategory, direction);
      detection.distanceCategory := Some(distanceCategory);
      detection.distanceM := Some(distanceM);
      detection.direction := Some(direction);
      detection.directionPhrase := Some(directionPhrase);
      detection.threatScore := Some(threatScore);
      r := detection;
    }

    /** filter_most_critical: None on an empty list, otherwise the element
        that heads the list once it is stably sorted by descending threat
        score, that is the first element of maximal score. */
    function FilterMostCritical(detections: seq<Detection>): (r: Option<Detection>)
      reads detections
      requires forall i :: 0 <= i < |detections| ==> detections[i].threatScore.Some?
      ensures r.None? <==> detections == []
      ensures r.Some? ==> exists i :: 0 <= i < |detections| && r.value == detections[i] &&
                            IsFirstMax(ThreatScores(detections), i)
    {
      if detections == [] then None
      else
        var i := FirstMaxIndex(ThreatScores(detections));
        Some(detections[i])
    }

    /** The detection's 'distance_m', 15 when it has none. */
    static function DistanceOr15(d: Detection): real
      reads d
    {
      d.distanceM.GetOr(15.0)
    }

    /** calculate_path_clearance: the path is blocked iff some detection
        overlapping the centre corridor is closer than 15 m; the clearance is
        the least such distance, and 15 when there is none. */
    method CalculatePathClearance(detections: seq<Detection>, centerCorridorWidth: real)
      returns (pathClear: bool, clearanceDistance: real)
      ensures var lb := frameWidth as real * (0.5 - centerCorridorWidth / 2.0);
              var rb := frameWidth as real * (0.5 + centerCorridorWidth / 2.0);
        && (pathClear <==> forall i :: 0 <= i < |detections| && InCorridor(detections[i].bbox, lb, rb) ==>
                                        DistanceOr15(detections[i]) >= 15.0)
        && clearanceDistance <= 15.0
        && (forall i :: 0 <= i < |detections| && InCorridor(detections[i].bbox, lb, rb) ==>
                          clearanceDistance <= DistanceOr15(detections[i]))
        && (pathClear ==> clearanceDistance == 15.0)
        && (!pathClear ==> exists i :: 0 <= i < |detections| && InCorridor(detections[i].bbox, lb, rb) &&
                                       clearanceDistance == DistanceOr15(detections[i]))
    {
      var leftBound := frameWidth as real * (0.5 - centerCorridorWidth / 2.0);
      var rightBound := frameWidth as real * (0.5 + centerCorridorWidth / 2.0);
      var minDistance := 15.0;
      pathClear := true;
      for i := 0 to |detections|
        invariant minDistance <= 15.0
        invariant pathClear <==> forall k :: 0 <= k < i && InCorridor(detections[k].bbox, leftBound, rightBound) ==>
                                              DistanceOr15(detections[k]) >= 15.0
        invariant forall k :: 0 <= k < i && InCorridor(detections[k].bbox, leftBound, rightBound) ==>
                                minDistance <= DistanceOr15(detections[k])
        invariant pathClear ==> minDistance == 15.0
        invariant !pathClear ==> exists k :: 0 <= k < i && InCorridor(detections[k].bbox, leftBound, rightBound) &&
                                             minDistance == DistanceOr15(detections[k])
      {
        var detection := detections[i];
        var x1, x2 := detection.bbox.x1, detection.bbox.x2;
        if x2 as real > leftBound && (x1 as real) < rightBound {
          if DistanceOr15(detection) < minDistance {
            minDistance := DistanceOr15(detection);
            pathClear := false;
          }
        }
      }
      clearanceDistance := if !pathClear then minDistance else 15.0;
    }
  }

  /** The estimator of the default 1280 x 720 frame. */
  const DEFAULT_ESTIMATOR: ProximityEstimator := ProximityEstimator(1280, 720)

  /** At 720 pixels the cached thresholds are 216, 576, 108 and 432 pixels. */
  lemma DefaultThresholds()
    ensures DEFAULT_ESTIMATOR.Valid()
    ensures DEFAULT_ESTIMATOR.immediateHeightPx == 216 && DEFAULT_ESTIMATOR.immediateBottomPx == 576
    ensures DEFAULT_ESTIMATOR.nearHeightPx == 108 && DEFAULT_ESTIMATOR.nearBottomPx == 432
  {
  }

  /** A large box at the bottom of the frame is immediate; a small box
      near the top is far. */
  lemma DefaultCategoryVectors()
    ensures DEFAULT_ESTIMATOR.CalculateDistanceCategory(Box(500, 600, 700, 700)).0 == Immediate
    ensures DEFAULT_ESTIMATOR.CalculateDistanceCategory(Box(600, 100, 650, 150)).0 == Far
  {
    DefaultThresholds();
    var far := Box(600, 100, 650, 150);
    assert DEFAULT_ESTIMATOR.ProximityScore(far) < 0.4;
  }

  /** A close pothole (priority 5) straight ahead scores the maximum, well above 50,
      and is described as directly ahead. */
  lemma DefaultPotholeThreat()
    ensures var a := DEFAULT_ESTIMATOR.AnalysisOf(Box(500, 600, 700, 700), 5);
      a.0 == Immediate && a.2 == "center" && a.3 == "directly ahead" && a.4 == 100
  {
    DefaultCategoryVectors();
    var b := Box(500, 600, 700, 700);
    DEFAULT_ESTIMATOR.DirectionInPixels(b);
  }

  /** x2 > left bound and x1 < right bound. */
  predicate InCorridor(b: Box, leftBound: real, rightBound: real) {
    b.x2 as real > leftBound && (b.x1 as real) < rightBound
  }

  /** Index `i` holds a maximal key and every earlier key is strictly smaller. */
  predicate IsFirstMax(ks: seq<int>, i: int) {
    && 0 <= i < |ks|
    && (forall j :: 0 <= j < |ks| ==> ks[j] <= ks[i])
    && (forall j :: 0 <= j < i ==> ks[j] < ks[i])
  }

  /** The first position of the largest key, scanning from the left. */
  function FirstMaxIndex(ks: seq<int>): (i: int)
    requires |ks| > 0
    ensures IsFirstMax(ks, i)
  {
    if |ks| == 1 then 0
    else
      var i := FirstMaxIndex(ks[..|ks| - 1]);
      if ks[|ks| - 1] > ks[i] then |ks| - 1 else i
  }

  /** The first maximum is unique, so any selection rule that picks "a
      maximal element, earliest on ties" picks this one. */
  lemma FirstMaxUnique(ks: seq<int>, i: int, j: int)
    requires IsFirstMax(ks, i) && IsFirstMax(ks, j)
    ensures i == j
  {
    assert ks[j] <= ks[i] && ks[i] <= ks[j];
  }

  lemma MulPositive(x: real, y: real)
    requires x > 0.0 && y > 0.0
    ensures x * y > 0.0
  {
  }

  /** Comparing a quotient by a positive divisor is comparing the dividend. */
  lemma DivCompare(a: real, b: real, c: real)
    requires b > 0.0
    ensures a / b < c <==> a < c * b
    ensures a / b > c <==> a > c * b
  {
    var q := a / b;
    assert q * b == a;
    if q < c { MulPositive(c - q, b); }
    if q > c { MulPositive(q - c, b); }
    if q == c { assert a == c * b; }
  }

  lemma RatioScaled(s: real, w: real)
    requires w > 0.0
    ensures s / w < 0.2 <==> 5.0 * s < w
    ensures s / w > -0.2 <==> 5.0 * s > -w
    ensures s / w < -0.5 <==> 2.0 * s < -w
    ensures s / w > 0.5 <==> 2.0 * s > w
    ensures s / w < 0.0 <==> s < 0.0
  {
    DivCompare(s, w, 0.2);
    DivCompare(s, w, -0.2);
    DivCompare(s, w, -0.5);
    DivCompare(s, w, 0.5);
    DivCompare(s, w, 0.0);
  }
}
