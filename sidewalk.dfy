/** SidewalkDetector (src/sidewalk_detector.py): the column-voting search
    for a sidewalk edge in a binary edge image, the warning-zone test of the
    user's position, and the way process_frame merges the two edge sources.
    The image filters that produce the edge image and the colour-based
    estimate are library routines; here the edge image is a 2-D array of
    pixel values (rows by columns) and the colour estimate a parameter. */
module Sidewalk {
  import opened Common
  import opened Config

  // ---------------------------------------------------------------------
  // Column search
  // ---------------------------------------------------------------------

  /** Python `range(start, stop, step)` for a step of 1 or -1. */
  function PyRange(start: int, stop: int, step: int): (r: seq<int>)
    requires step == 1 || step == -1
    ensures |r| == if step == 1 then (if start < stop then stop - start else 0)
                   else (if start > stop then start - stop else 0)
    ensures forall i :: 0 <= i < |r| ==> r[i] == start + i * step
    decreases if step == 1 then stop - start else start - stop
  {
    if (step == 1 && start < stop) || (step == -1 && start > stop) then [start] + PyRange(start + step, stop, step)
    else []
  }

  /** The columns in the order the search visits them: from the left
      border up to the middle, or from the right border down to it. */
  function SearchColumns(width: int, side: string): seq<int>
  {
    if side == "left" then PyRange(0, width / 2, 1) else PyRange(width - 1, width / 2, -1)
  }

  /** The number of the first `rows` pixels of column x that are non-zero. */
  function ColumnCount(edgeImage: array2<int>, x: int, rows: nat): (c: nat)
    reads edgeImage
    requires 0 <= x < edgeImage.Length1 && rows <= edgeImage.Length0
    ensures c <= rows
  {
    if rows == 0 then 0
    else ColumnCount(edgeImage, x, rows - 1) + (if edgeImage[rows - 1, x] > 0 then 1 else 0)
  }

  /** ColumnCount counts exactly the set pixels of the column. */
  lemma {:induction false} ColumnCountIsSetSize(edgeImage: array2<int>, x: int, rows: nat)
    requires 0 <= x < edgeImage.Length1 && rows <= edgeImage.Length0
    ensures ColumnCount(edgeImage, x, rows) == |set i | 0 <= i < rows && edgeImage[i, x] > 0|
  {
    if rows > 0 {
      ColumnCountIsSetSize(edgeImage, x, rows - 1);
      var before := set i | 0 <= i < rows - 1 && edgeImage[i, x] > 0;
      var now := set i | 0 <= i < rows && edgeImage[i, x] > 0;
      if edgeImage[rows - 1, x] > 0 {
        assert now == before + {rows - 1};
      } else {
        assert now == before;
      }
    }
  }

  /** `np.sum(edge_image[:, x] > 0)`. */
  method CountColumn(edgeImage: array2<int>, x: int) returns (count: nat)
    requires 0 <= x < edgeImage.Length1
    ensures count == ColumnCount(edgeImage, x, edgeImage.Length0)
  {
    count := 0;
    for i := 0 to edgeImage.Length0
      invariant count == ColumnCount(edgeImage, x, i)
    {
      if edgeImage[i, x] > 0 {
        count := count + 1;
      }
    }
  }

  /** A column votes when more than 30% of its pixels are set. */
  predicate ColumnVotes(edgeImage: array2<int>, x: int)
    reads edgeImage
    requires 0 <= x < edgeImage.Length1
  {
    ColumnCount(edgeImage, x, edgeImage.Length0) as real > edgeImage.Length0 as real * 0.3
  }

  predicate InColumns(edgeImage: array2<int>, xs: seq<int>) {
    forall i :: 0 <= i < |xs| ==> 0 <= xs[i] < edgeImage.Length1
  }

  /** The voting columns among `xs`, in the order of `xs`. */
  function VotesAlong(edgeImage: array2<int>, xs: seq<int>): (v: seq<int>)
    reads edgeImage
    requires InColumns(edgeImage, xs)
    ensures |v| <= |xs|
    ensures forall j :: 0 <= j < |v| ==> v[j] in xs && ColumnVotes(edgeImage, v[j])
  {
    if xs == [] then []
    else
      var last := xs[|xs| - 1];
      VotesAlong(edgeImage, xs[..|xs| - 1]) + (if ColumnVotes(edgeImage, last) then [last] else [])
  }

  /** Every voting column of the search is among the votes. */
  lemma {:induction false} VotesComplete(edgeImage: array2<int>, xs: seq<int>)
    requires InColumns(edgeImage, xs)
    ensures forall i :: 0 <= i < |xs| && ColumnVotes(edgeImage, xs[i]) ==> xs[i] in VotesAlong(edgeImage, xs)
  {
    if xs != [] {
      var pre := xs[..|xs| - 1];
      VotesComplete(edgeImage, pre);
      assert forall i :: 0 <= i < |pre| ==> pre[i] == xs[i];
    }
  }

  /** The votes collected over a prefix of the search are a prefix of all votes. */
  lemma {:induction false} VotesPrefix(edgeImage: array2<int>, xs: seq<int>, k: nat)
    requires InColumns(edgeImage, xs) && k <= |xs|
    ensures VotesAlong(edgeImage, xs[..k]) <= VotesAlong(edgeImage, xs)
    decreases |xs| - k
  {
    if k < |xs| {
      VotesPrefix(edgeImage, xs[..|xs| - 1], k);
      assert xs[..|xs| - 1][..k] == xs[..k];
    } else {
      assert xs[..k] == xs;
    }
  }

  predicate Increasing(s: seq<int>) {
    forall i, j :: 0 <= i < j < |s| ==> s[i] < s[j]
  }

  predicate Decreasing(s: seq<int>) {
    forall i, j :: 0 <= i < j < |s| ==> s[i] > s[j]
  }

  /** Every vote along `xs` lies below any bound that all of `xs` lie below. */
  lemma VotesBelow(edgeImage: array2<int>, xs: seq<int>, bound: int)
    requires InColumns(edgeImage, xs)
    requires forall i :: 0 <= i < |xs| ==> xs[i] < bound
    ensures forall j :: 0 <= j < |VotesAlong(edgeImage, xs)| ==> VotesAlong(edgeImage, xs)[j] < bound
  {
  }

  /** Every vote along `xs` lies above any bound that all of `xs` lie above. */
  lemma VotesAbove(edgeImage: array2<int>, xs: seq<int>, bound: int)
    requires InColumns(edgeImage, xs)
    requires forall i :: 0 <= i < |xs| ==> xs[i] > bound
    ensures forall j :: 0 <= j < |VotesAlong(edgeImage, xs)| ==> VotesAlong(edgeImage, xs)[j] > bound
  {
  }

  /** Votes along an increasing search are increasing. */
  lemma {:induction false} VotesIncreasing(edgeImage: array2<int>, xs: seq<int>)
    requires InColumns(edgeImage, xs) && Increasing(xs)
    ensures Increasing(VotesAlong(edgeImage, xs))
  {
    if xs != [] {
      var pre := xs[..|xs| - 1];
      VotesIncreasing(edgeImage, pre);
      VotesBelow(edgeImage, pre, xs[|xs| - 1]);
    }
  }

  /** Votes along a decreasing search are decreasing. */
  lemma {:induction false} VotesDecreasing(edgeImage: array2<int>, xs: seq<int>)
    requires InColumns(edgeImage, xs) && Decreasing(xs)
    ensures Decreasing(VotesAlong(edgeImage, xs))
  {
    if xs != [] {
      var pre := xs[..|xs| - 1];
      VotesDecreasing(edgeImage, pre);
      VotesAbove(edgeImage, pre, xs[|xs| - 1]);
    }
  }

  /** The left search visits every column of [0, w/2) in increasing order,
      the right search every column of (w/2, w - 1] in decreasing order; the
      middle column w/2 is never examined. */
  lemma SearchColumnsOrdered(edgeImage: array2<int>, side: string)
    ensures var w := edgeImage.Length1;
            var xs := SearchColumns(w, side);
      && InColumns(edgeImage, xs)
      && (side == "left" ==> Increasing(xs) && |xs| == w / 2 &&
                             forall i :: 0 <= i < |xs| ==> 0 <= xs[i] < w / 2)
      && (side != "left" ==> Decreasing(xs) && |xs| == (if w > 0 then w - 1 - w / 2 else 0) &&
                             forall i :: 0 <= i < |xs| ==> w / 2 < xs[i] <= w - 1)
      && (forall i :: 0 <= i < |xs| ==> xs[i] != w / 2)
  {
  }

  /** `int(np.median([a, b, c]))`: the value that has at least two of the
      three at or below it and at least two at or above it. */
  function Median3(a: int, b: int, c: int): (m: int)
    ensures m == a || m == b || m == c
    ensures (if a <= m then 1 else 0) + (if b <= m then 1 else 0) + (if c <= m then 1 else 0) >= 2
    ensures (if a >= m then 1 else 0) + (if b >= m then 1 else 0) + (if c >= m then 1 else 0) >= 2
  {
    if (a <= b <= c) || (c <= b <= a) then b
    else if (b <= a <= c) || (c <= a <= b) then a
    else c
  }

  /** The median of three values in strictly monotone order is the middle one. */
  lemma MedianOfMonotone(a: int, b: int, c: int)
    requires (a < b < c) || (a > b > c)
    ensures Median3(a, b, c) == b
  {
  }

  /** With three or more votes, the second one; otherwise nothing. */
  function EdgeOfVotes(votes: seq<int>): Option<int> {
    if |votes| >= 3 then Some(votes[1]) else None
  }

  /** What _find_edge_in_region finds: the second vote along the search,
      if there are at least three. */
  function RegionEdge(edgeImage: array2<int>, side: string): Option<int>
    reads edgeImage
  {
    var xs := SearchColumns(edgeImage.Length1, side);
    assert InColumns(edgeImage, xs);
    EdgeOfVotes(VotesAlong(edgeImage, xs))
  }

  /** One more column of the search adds its vote, if any, to the end. */
  lemma VoteStep(edgeImage: array2<int>, xs: seq<int>, k: nat)
    requires InColumns(edgeImage, xs) && k < |xs|
    ensures VotesAlong(edgeImage, xs[..k + 1]) ==
            VotesAlong(edgeImage, xs[..k]) + (if ColumnVotes(edgeImage, xs[k]) then [xs[k]] else [])
  {
    assert xs[..k + 1][..k] == xs[..k];
  }

  /** Stopping at the third vote gives the same answer as looking at all of them. */
  lemma ThirdVote(edgeImage: array2<int>, xs: seq<int>, k: nat)
    requires InColumns(edgeImage, xs) && k <= |xs|
    requires Increasing(xs) || Decreasing(xs)
    requires |VotesAlong(edgeImage, xs[..k])| == 3
    ensures var v := VotesAlong(edgeImage, xs[..k]);
      Some(Median3(v[0], v[1], v[2])) == EdgeOfVotes(VotesAlong(edgeImage, xs))
  {
    var v := VotesAlong(edgeImage, xs[..k]);
    VotesPrefix(edgeImage, xs, k);
    if Increasing(xs) {
      VotesIncreasing(edgeImage, xs);
    } else {
      VotesDecreasing(edgeImage, xs);
    }
    var all := VotesAlong(edgeImage, xs);
    assert v[1] == all[1];
    assert v[0] == all[0] && v[2] == all[2];
    MedianOfMonotone(v[0], v[1], v[2]);
  }

  /** _find_edge_in_region: chooses the columns of one half in search
      order, then walks them. */
  method FindEdgeInRegion(edgeImage: array2<int>, side: string) returns (edge: Option<int>)
    ensures edge == RegionEdge(edgeImage, side)
  {
    var width := edgeImage.Length1;
    var searchStart, searchEnd, searchDirection;
    if side == "left" {
      searchStart, searchEnd, searchDirection := 0, width / 2, 1;
    } else {
      searchStart, searchEnd, searchDirection := width - 1, width / 2, -1;
    }
    var columns := PyRange(searchStart, searchEnd, searchDirection);
    assert columns == SearchColumns(width, side);
    SearchColumnsOrdered(edgeImage, side);
    edge := SearchColumnsForEdge(edgeImage, columns);
  }

  /** The column loop of _find_edge_in_region: keeps the voting columns
      and at the third vote returns the median of the three. */
  method SearchColumnsForEdge(edgeImage: array2<int>, columns: seq<int>) returns (edge: Option<int>)
    requires InColumns(edgeImage, columns)
    requires Increasing(columns) || Decreasing(columns)
    ensures edge == EdgeOfVotes(VotesAlong(edgeImage, columns))
  {
    var height := edgeImage.Length0;
    var edgeVotes: seq<int> := [];
    for k := 0 to |columns|
      invariant edgeVotes == VotesAlong(edgeImage, columns[..k])
      invariant |edgeVotes| < 3
    {
      var x := columns[k];
      var columnEdges := CountColumn(edgeImage, x);
      VoteStep(edgeImage, columns, k);
      if columnEdges as real > height as real * 0.3 {
        edgeVotes := edgeVotes + [x];
        if |edgeVotes| >= 3 {
          ThirdVote(edgeImage, columns, k + 1);
          return Some(Median3(edgeVotes[0], edgeVotes[1], edgeVotes[2]));
        }
      }
    }
    assert columns[..|columns|] == columns;
    return None;
  }

  /** A left edge lies strictly inside the left half and a right edge in the
      right half past the middle column; the middle column W//2 is never
      examined, and neither edge is ever column 0. */
  lemma RegionEdgeRange(edgeImage: array2<int>, side: string)
    ensures var w := edgeImage.Length1;
      match RegionEdge(edgeImage, side)
      case None => true
      case Some(e) =>
        && (side == "left" ==> 1 <= e < w / 2)
        && (side != "left" ==> w / 2 < e <= w - 2)
        && e >= 1
  {
    var w := edgeImage.Length1;
    var xs := SearchColumns(w, side);
    assert InColumns(edgeImage, xs);
    var votes := VotesAlong(edgeImage, xs);
    SearchColumnsOrdered(edgeImage, side);
    if side == "left" {
      VotesIncreasing(edgeImage, xs);
    } else {
      VotesDecreasing(edgeImage, xs);
    }
    if |votes| >= 3 {
      assert votes[0] in xs && votes[1] in xs;
    }
  }

  /** detect_edges, from the combined edge image on: the left and the right search. */
  method DetectEdges(combinedEdges: array2<int>) returns (leftEdge: Option<int>, rightEdge: Option<int>)
    ensures leftEdge == RegionEdge(combinedEdges, "left")
    ensures rightEdge == RegionEdge(combinedEdges, "right")
  {
    leftEdge := FindEdgeInRegion(combinedEdges, "left");
    rightEdge := FindEdgeInRegion(combinedEdges, "right");
  }

  // ---------------------------------------------------------------------
  // User position and the per-frame merge
  // ---------------------------------------------------------------------

  datatype SidewalkDetector = SidewalkDetector(frameWidth: int, frameHeight: int)
  {
    const warningDistance: real := EDGE_WARNING_DISTANCE

    /** int(frame_width * warning_distance). */
    function WarningWidth(): int {
      Trunc(frameWidth as real * warningDistance)
    }

    /** The camera, and so the user, is at the middle column. */
    function UserX(): int {
      frameWidth / 2
    }

    /** check_user_position: near an edge iff the user's column is inside
        the warning zone next to either edge; the left edge is tested first. */
    function CheckUserPosition(leftEdge: Option<int>, rightEdge: Option<int>): (r: (bool, Option<string>))
      ensures r.0 <==> r.1.Some?
      ensures leftEdge.None? || rightEdge.None? ==> r == (false, None)
      ensures leftEdge.Some? && rightEdge.Some? ==>
        && (r.1 == Some("left") <==> UserX() < leftEdge.value + WarningWidth())
        && (r.1 == Some("right") <==> UserX() >= leftEdge.value + WarningWidth() &&
                                      UserX() > rightEdge.value - WarningWidth())
        && (r.0 <==> UserX() < leftEdge.value + WarningWidth() || UserX() > rightEdge.value - WarningWidth())
    {
      if leftEdge.None? || rightEdge.None? then (false, None)
      else
        var warningWidth := WarningWidth();
        var leftWarningZone := leftEdge.value + warningWidth;
        var rightWarningZone := rightEdge.value - warningWidth;
        var userX := UserX();
        if userX < leftWarningZone then (true, Some("left"))
        else if userX > rightWarningZone then (true, Some("right"))
        else (false, None)
    }
  }

  /** For a frame of non-negative width the warning width is a fifth of it, rounded down. */
  lemma WarningWidthInPixels(sd: SidewalkDetector)
    requires sd.frameWidth >= 0
    ensures sd.WarningWidth() == sd.frameWidth / 5
  {
    var w := sd.frameWidth;
    var ww := sd.WarningWidth();
    assert ww as real <= w as real * 0.2 < ww as real + 1.0;
    assert 5 * ww <= w < 5 * ww + 5;
  }

  /** At the default 1280-pixel width the zone is 256 pixels and the user
      stands at column 640: a left edge at 400 is too close, one at 300 is
      not, and a right edge at 850 is too close. */
  lemma DefaultPosition()
    ensures var sd := SidewalkDetector(1280, 720);
      && sd.WarningWidth() == 256 && sd.UserX() == 640
      && sd.CheckUserPosition(Some(400), Some(1000)) == (true, Some("left"))
      && sd.CheckUserPosition(Some(300), Some(1000)) == (false, None)
      && sd.CheckUserPosition(Some(300), Some(850)) == (true, Some("right"))
  {
    WarningWidthInPixels(SidewalkDetector(1280, 720));
  }

  /** Python `a or b` on an optional int: None and 0 are both false. */
  function PyOr(a: Option<int>, b: Option<int>): (r: Option<int>)
    ensures a.Some? && a.value != 0 ==> r == a
    ensures (a.None? || a.value == 0) ==> r == b
  {
    if a.Some? && a.value != 0 then a else b
  }

  /** What process_frame reports, without the annotated image. */
  datatype EdgeReport = EdgeReport(leftEdge: Option<int>, rightEdge: Option<int>,
                                   nearEdge: bool, edgeSide: Option<string>)

  /** The edges process_frame settles on: the edge-image result, and only
      if one of its edges is missing, each edge merged with the colour
      estimate by `or`. */
  function MergeEdges(detected: (Option<int>, Option<int>), byColor: (Option<int>, Option<int>)): (Option<int>, Option<int>)
  {
    var (leftEdge, rightEdge) := detected;
    if leftEdge.None? || rightEdge.None? then (PyOr(leftEdge, byColor.0), PyOr(rightEdge, byColor.1))
    else (leftEdge, rightEdge)
  }

  /** process_frame on the two edge estimates (edge image first, colour as fallback). */
  function ProcessFrameEdges(sd: SidewalkDetector, detected: (Option<int>, Option<int>),
                             byColor: (Option<int>, Option<int>)): (r: EdgeReport)
    ensures (r.nearEdge, r.edgeSide) == sd.CheckUserPosition(r.leftEdge, r.rightEdge)
    ensures (r.leftEdge, r.rightEdge) == MergeEdges(detected, byColor)
  {
    var (leftEdge, rightEdge) := MergeEdges(detected, byColor);
    var (nearEdge, edgeSide) := sd.CheckUserPosition(leftEdge, rightEdge);
    EdgeReport(leftEdge, rightEdge, nearEdge, edgeSide)
  }

  /** When the edge image yields both edges the colour estimate plays no part. */
  lemma ColourIgnoredWhenBothFound(sd: SidewalkDetector, detected: (Option<int>, Option<int>),
                                   c1: (Option<int>, Option<int>), c2: (Option<int>, Option<int>))
    requires detected.0.Some? && detected.1.Some?
    ensures ProcessFrameEdges(sd, detected, c1) == ProcessFrameEdges(sd, detected, c2)
    ensures ProcessFrameEdges(sd, detected, c1).leftEdge == detected.0
    ensures ProcessFrameEdges(sd, detected, c1).rightEdge == detected.1
  {
  }

  /** The edge search never reports column 0, so for its results the `or`
      merge is the same as keeping a found edge and falling back only on a
      missing one. */
  lemma MergeOfSearchedEdges(edgeImage: array2<int>, byColor: (Option<int>, Option<int>))
    ensures var detected := (RegionEdge(edgeImage, "left"), RegionEdge(edgeImage, "right"));
            var merged := MergeEdges(detected, byColor);
      && merged.0 == (if detected.0.None? then byColor.0 else detected.0)
      && merged.1 == (if detected.1.None? then byColor.1 else detected.1)
  {
    RegionEdgeRange(edgeImage, "left");
    RegionEdgeRange(edgeImage, "right");
  }

  /** A found edge at column 0 would be replaced by the colour estimate. */
  lemma ZeroEdgeIsReplaced(c: Option<int>)
    ensures MergeEdges((Some(0), None), (c, None)).0 == c
  {
  }
}
