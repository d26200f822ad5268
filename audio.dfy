/** AudioFeedback and AudioManager (src/audio_feedback.py): the per-key
    announcement cooldown, the warning sentences, the clear-path and
    sidewalk-edge announcements, and the per-frame decision of what to say.

    Each state change is specified twice: a pure step function over an
    `AudioState` value, about which the lemmas speak, and a method of the
    class that performs the change on its fields and promises that its new
    state is what the step function gives. Speech itself is the `spoken`
    log: every sentence handed to the speech engine is appended to it. The
    clock is the parameter `now`, in seconds. */
module Audio {
  import opened Common
  import opened Config
  import opened Detections
  import opened Proximity

  /** The mutable part of an AudioFeedback object. */
  datatype AudioState = AudioState(
    enabled: bool,
    lastAnnouncementTime: map<string, real>,
    lastAnnouncedObject: Option<string>,
    spoken: seq<string>)

  /** `last_announcement_time.get(key, 0)`. */
  function LastTime(times: map<string, real>, key: string): real {
    if key in times then times[key] else 0.0
  }

  /** The cooldown key of a detection: class name, '_', direction ('center' if absent). */
  function AnnouncementKey(className: string, direction: Option<string>): string {
    className + "_" + direction.GetOr("center")
  }

  /** Two tables agree on every key except `key`. */
  ghost predicate SameExcept(t1: map<string, real>, t2: map<string, real>, key: string) {
    forall k :: k != key ==> (k in t1 <==> k in t2) && (k in t1 ==> t1[k] == t2[k])
  }

  function Speak(s: AudioState, text: string): AudioState {
    s.(spoken := s.spoken + [text])
  }

  // ---------------------------------------------------------------------
  // should_announce
  // ---------------------------------------------------------------------

  /** should_announce: (answer, new state). */
  function ShouldAnnounceStep(s: AudioState, priority: int, key: string, now: real, cooldown: real): (r: (bool, AudioState))
    ensures r.0 <==> s.enabled && priority >= MIN_PRIORITY_FOR_AUDIO && now - LastTime(s.lastAnnouncementTime, key) >= cooldown
    ensures r.0 ==> r.1 == s.(lastAnnouncementTime := s.lastAnnouncementTime[key := now])
    ensures !r.0 ==> r.1 == s
  {
    if !s.enabled then (false, s)
    else if priority < MIN_PRIORITY_FOR_AUDIO then (false, s)
    else
      var lastTime := LastTime(s.lastAnnouncementTime, key);
      if now - lastTime < cooldown then (false, s)
      else (true, s.(lastAnnouncementTime := s.lastAnnouncementTime[key := now]))
  }

  /** should_announce touches no key but its own, and changes nothing but the table. */
  lemma ShouldAnnounceTouchesOnlyItsKey(s: AudioState, priority: int, key: string, now: real, cooldown: real)
    ensures var s' := ShouldAnnounceStep(s, priority, key, now, cooldown).1;
      && SameExcept(s.lastAnnouncementTime, s'.lastAnnouncementTime, key)
      && s'.enabled == s.enabled && s'.lastAnnouncedObject == s.lastAnnouncedObject && s'.spoken == s.spoken
  {
  }

  /** Once a key has been let through at time t1, it is refused at every
      time t2 before t1 + cooldown. */
  lemma ShouldAnnounceCooldown(s: AudioState, p1: int, p2: int, key: string, t1: real, t2: real, cooldown: real)
    requires ShouldAnnounceStep(s, p1, key, t1, cooldown).0
    requires t2 - t1 < cooldown
    ensures !ShouldAnnounceStep(ShouldAnnounceStep(s, p1, key, t1, cooldown).1, p2, key, t2, cooldown).0
  {
    var s' := ShouldAnnounceStep(s, p1, key, t1, cooldown).1;
    assert LastTime(s'.lastAnnouncementTime, key) == t1;
  }

  // ---------------------------------------------------------------------
  // generate_warning_message
  // ---------------------------------------------------------------------

  const CLASS_LABELS: map<string, string> := map[
    "pothole" := "pothole", "manhole" := "manhole cover", "stairs" := "stairs",
    "curb" := "curb", "step" := "step", "gap" := "gap",
    "broken_pavement" := "broken pavement", "person" := "pedestrian",
    "bicycle" := "bicycle", "car" := "vehicle", "obstacle" := "obstacle"
  ]

  /** class_labels.get(class_name, class_name). */
  function ClassLabel(className: string): string {
    if className in CLASS_LABELS then CLASS_LABELS[className] else className
  }

  /** The urgency prefix of each category. */
  function Urgency(c: Category): string {
    match c
    case Immediate => "DANGER: "
    case Near => "Caution: "
    case Far => "Notice: "
  }

  /** The whole metres of a distance, as `int(distance_m)` prints them. */
  function Metres(distance: real): string {
    IntToString(Trunc(distance))
  }

  /** What follows the number of metres: " meters." for a near object;
      for a danger " meter", an "s" if the distance exceeds 1 m, and "!". */
  function DistanceEnd(c: Category, distance: real): string {
    if c == Near then " meters." else " meter" + (if distance > 1.0 then "s" else "") + "!"
  }

  /** What follows the direction phrase: the distance and the closing mark,
      or only a full stop for a far object. */
  function WarningTail(c: Category, distance: real): string {
    if c == Far then "." else ", " + Metres(distance) + DistanceEnd(c, distance)
  }

  /** The urgency word, the spoken label and the direction phrase. */
  function WarningHead(className: string, c: Category, directionPhrase: Option<string>): string {
    Urgency(c) + ClassLabel(className) + " " + directionPhrase.GetOr("ahead")
  }

  /** The warning sentence for a record's class, 'distance_m' (default 5.0),
      'distance_category' (default near) and 'direction_phrase' (default
      'ahead'): "DANGER: L P, N meter(s)!", "Caution: L P, N meters." or
      "Notice: L P.". */
  function WarningMessage(className: string, distanceM: Option<real>, category: Option<Category>,
                          directionPhrase: Option<string>): string
  {
    var c := category.GetOr(Near);
    WarningHead(className, c, directionPhrase) + WarningTail(c, distanceM.GetOr(5.0))
  }

  /** generate_warning_message. */
  function GenerateWarningMessage(detection: Detection): string
    reads detection
  {
    WarningMessage(detection.className, detection.distanceM, detection.distanceCategory, detection.directionPhrase)
  }

  /** Every message opens with its urgency word, then the spoken label and
      the direction phrase, and ends with '!' exactly when it is a danger. The
      first letter alone tells the category: D, C or N. */
  lemma WarningMessageShape(className: string, distanceM: Option<real>, category: Option<Category>,
                            directionPhrase: Option<string>)
    ensures var m := WarningMessage(className, distanceM, category, directionPhrase);
            var c := category.GetOr(Near);
            var head := Urgency(c) + ClassLabel(className) + " " + directionPhrase.GetOr("ahead");
      && |head| < |m| && m[..|head|] == head
      && (m[|m| - 1] == '!' <==> c == Immediate)
      && (m[0] == 'D' <==> c == Immediate)
      && (m[0] == 'C' <==> c == Near)
      && (m[0] == 'N' <==> c == Far)
  {
    var c := category.GetOr(Near);
    var u := Urgency(c);
    var head := WarningHead(className, c, directionPhrase);
    var tail := WarningTail(c, distanceM.GetOr(5.0));
    var m := head + tail;
    if c != Far {
      var end := DistanceEnd(c, distanceM.GetOr(5.0));
      assert tail[|tail| - 1] == end[|end| - 1];
    }
    assert |tail| > 0 && m[|m| - 1] == tail[|tail| - 1];
    assert m[..|head|] == head;
    assert m[0] == head[0] == u[0];
  }

  /** A near or danger message is a fixed front, the whole metres, and an
      ending that depends only on the category and on whether the distance
      exceeds 1 m. */
  lemma MessageSplit(className: string, distance: real, c: Category, directionPhrase: Option<string>)
    requires c != Far
    ensures WarningMessage(className, Some(distance), Some(c), directionPhrase) ==
            (WarningHead(className, c, directionPhrase) + ", ") + Metres(distance) + DistanceEnd(c, distance)
  {
  }

  /** The last `k` letters of `a + b` are those of `b`. */
  lemma SuffixOf(a: string, b: string, k: nat)
    requires k <= |b|
    ensures (a + b)[|a + b| - k..] == b[|b| - k..]
  {
  }

  /** A danger message says "meters!" exactly when the distance exceeds 1 m
      and "meter!" otherwise. */
  lemma DangerPlural(className: string, distance: real, directionPhrase: Option<string>)
    ensures var m := WarningMessage(className, Some(distance), Some(Immediate), directionPhrase);
      && |m| >= 7
      && (m[|m| - 7..] == "meters!" <==> distance > 1.0)
      && (distance <= 1.0 ==> m[|m| - 6..] == "meter!")
  {
    MessageSplit(className, distance, Immediate, directionPhrase);
    PluralEnding(WarningMessage(className, Some(distance), Some(Immediate), directionPhrase),
                 (WarningHead(className, Immediate, directionPhrase) + ", ") + Metres(distance), distance);
  }

  /** Whatever precedes it, the danger ending reads "meters!" exactly above 1 m. */
  lemma PluralEnding(m: string, front: string, distance: real)
    requires m == front + DistanceEnd(Immediate, distance)
    ensures && |m| >= 7
      && (m[|m| - 7..] == "meters!" <==> distance > 1.0)
      && (distance <= 1.0 ==> m[|m| - 6..] == "meter!")
  {
    var end := DistanceEnd(Immediate, distance);
    SuffixOf(front, end, 7);
    if distance <= 1.0 {
      assert end == " meter!";
      SuffixOf(front, end, 6);
    } else {
      assert end == " meters!";
    }
  }

  /** Splitting `a + x + b` back into its parts. */
  lemma MiddleOf(a: string, x: string, y: string, b: string)
    requires a + x + b == a + y + b
    ensures x == y
  {
    assert |x| == |y|;
    assert x == (a + x + b)[|a|..|a| + |x|];
    assert y == (a + y + b)[|a|..|a| + |y|];
  }

  /** Two messages that end the same have the same distance ending: the
      singular and plural endings differ in their second-last letter. */
  lemma EndingFixed(c: Category, d1: real, d2: real, x: string, y: string)
    requires c != Far
    requires x + DistanceEnd(c, d1) == y + DistanceEnd(c, d2)
    ensures DistanceEnd(c, d1) == DistanceEnd(c, d2)
  {
    var e1, e2 := DistanceEnd(c, d1), DistanceEnd(c, d2);
    var m := x + e1;
    assert m[|m| - 2] == e1[|e1| - 2] && m[|m| - 2] == e2[|e2| - 2];
    assert c == Immediate ==> (e1[|e1| - 2] == 's' <==> d1 > 1.0) && (e2[|e2| - 2] == 's' <==> d2 > 1.0);
  }

  /** Near and danger messages carry the whole number of metres: two such
      messages about the same object and direction are equal only if the
      truncated distances are. */
  lemma DistanceIsSpoken(className: string, d1: real, d2: real, category: Category, directionPhrase: Option<string>)
    requires category != Far
    requires WarningMessage(className, Some(d1), Some(category), directionPhrase) ==
             WarningMessage(className, Some(d2), Some(category), directionPhrase)
    ensures Trunc(d1) == Trunc(d2)
  {
    MessageSplit(className, d1, category, directionPhrase);
    MessageSplit(className, d2, category, directionPhrase);
    var front := WarningHead(className, category, directionPhrase) + ", ";
    var end1 := DistanceEnd(category, d1);
    EndingFixed(category, d1, d2, front + Metres(d1), front + Metres(d2));
    MiddleOf(front, Metres(d1), Metres(d2), end1);
    IntToStringInjective(Trunc(d1), Trunc(d2));
  }

  /** The message of the test: a near pothole 2.5 m directly ahead. It names
      the pothole and says where it is. */
  lemma NearPotholeMessage()
    ensures WarningMessage("pothole", Some(2.5), Some(Near), Some("directly ahead")) ==
            "Caution: pothole directly ahead, 2 meters."
  {
    MessageSplit("pothole", 2.5, Near, Some("directly ahead"));
    PotholeHead();
    PotholeMetres();
    assert DistanceEnd(Near, 2.5) == " meters.";
    PotholeSentence();
  }

  lemma PotholeSentence()
    ensures "Caution: pothole directly ahead" + ", " + "2" + " meters." ==
            "Caution: pothole directly ahead, 2 meters."
  {
  }

  lemma PotholeHead()
    ensures WarningHead("pothole", Near, Some("directly ahead")) == "Caution: pothole directly ahead"
  {
    assert "pothole" in CLASS_LABELS;
    assert ClassLabel("pothole") == "pothole";
  }

  lemma PotholeMetres()
    ensures Metres(2.5) == "2"
  {
    assert Trunc(2.5) == 2;
  }

  // ---------------------------------------------------------------------
  // announce, announce_clear_path, announce_edge_warning, toggle
  // ---------------------------------------------------------------------

  /** announce: with `force` the cooldown is bypassed, and even a disabled
      object speaks. */
  function AnnounceStep(s: AudioState, force: bool, priority: int, key: string, message: string,
                        now: real, cooldown: real): AudioState
  {
    if !s.enabled && !force then s
    else if !force then
      var (ok, s1) := ShouldAnnounceStep(s, priority, key, now, cooldown);
      if ok then Speak(s1, message) else s1
    else Speak(s, message)
  }

  /** announce says its message exactly when forced, or when enabled and
      should_announce lets it through; it says nothing else. */
  lemma AnnounceSpeaksIff(s: AudioState, force: bool, priority: int, key: string, message: string,
                          now: real, cooldown: real)
    ensures var s' := AnnounceStep(s, force, priority, key, message, now, cooldown);
            var speaks := force || ShouldAnnounceStep(s, priority, key, now, cooldown).0;
      && s'.spoken == s.spoken + (if speaks then [message] else [])
      && s'.enabled == s.enabled && s'.lastAnnouncedObject == s.lastAnnouncedObject
      && SameExcept(s.lastAnnouncementTime, s'.lastAnnouncementTime, key)
  {
  }

  /** An unforced repeat under the same key within the cooldown is silent,
      whatever its priority. */
  lemma AnnounceCooldown(s: AudioState, p1: int, p2: int, key: string, m1: string, m2: string,
                         t1: real, t2: real, cooldown: real)
    requires ShouldAnnounceStep(s, p1, key, t1, cooldown).0
    requires t2 - t1 < cooldown
    ensures var s1 := AnnounceStep(s, false, p1, key, m1, t1, cooldown);
      && s1.spoken == s.spoken + [m1]
      && AnnounceStep(s1, false, p2, key, m2, t2, cooldown) == s1
  {
    var s1 := AnnounceStep(s, false, p1, key, m1, t1, cooldown);
    assert LastTime(s1.lastAnnouncementTime, key) == t1;
  }

  /** "Path clear for N meters." below 15 m, "Path clear for ahead." otherwise. */
  function ClearPathMessage(clearanceDistance: real): string {
    var distanceText := if clearanceDistance < 15.0 then IntToString(Trunc(clearanceDistance)) + " meters" else "ahead";
    "Path clear for " + distanceText + "."
  }

  /** announce_clear_path. */
  function ClearPathStep(s: AudioState, clearanceDistance: real, now: real, cooldown: real): AudioState {
    if !s.enabled then s
    else if s.lastAnnouncedObject == Some("clear") &&
            now - LastTime(s.lastAnnouncementTime, "clear") < cooldown * 2.0 then s
    else
      Speak(s.(lastAnnouncedObject := Some("clear"),
               lastAnnouncementTime := s.lastAnnouncementTime["clear" := now]),
            ClearPathMessage(clearanceDistance))
  }

  /** When announce_clear_path speaks it marks 'clear' as the last object
      and stamps the 'clear' key; when it does not it changes nothing. */
  lemma ClearPathEffect(s: AudioState, clearanceDistance: real, now: real, cooldown: real)
    ensures var s' := ClearPathStep(s, clearanceDistance, now, cooldown);
            var speaks := s.enabled && (s.lastAnnouncedObject != Some("clear") ||
                                        now - LastTime(s.lastAnnouncementTime, "clear") >= cooldown * 2.0);
      && (speaks ==> s'.spoken == s.spoken + [ClearPathMessage(clearanceDistance)] &&
                     s'.lastAnnouncedObject == Some("clear") &&
                     LastTime(s'.lastAnnouncementTime, "clear") == now &&
                     SameExcept(s.lastAnnouncementTime, s'.lastAnnouncementTime, "clear"))
      && (!speaks ==> s' == s)
  {
  }

  /** After a clear-path announcement at t1 none follows before t1 + 2 * cooldown. */
  lemma ClearPathSpacing(s: AudioState, d1: real, d2: real, t1: real, t2: real, cooldown: real)
    requires ClearPathStep(s, d1, t1, cooldown) != s
    requires t2 - t1 < cooldown * 2.0
    ensures var s1 := ClearPathStep(s, d1, t1, cooldown);
      ClearPathStep(s1, d2, t2, cooldown) == s1
  {
    var s1 := ClearPathStep(s, d1, t1, cooldown);
    assert s.enabled;
    assert LastTime(s1.lastAnnouncementTime, "clear") == t1;
  }

  /** The spoken number in a clear-path message reads back as the whole metres. */
  lemma ClearPathMessageDistance(clearanceDistance: real)
    requires 0.0 <= clearanceDistance < 15.0
    ensures var m := ClearPathMessage(clearanceDistance);
            var digits := NatToString(Trunc(clearanceDistance));
      && m == "Path clear for " + digits + " meters."
      && DigitsValue(digits) == Trunc(clearanceDistance)
  {
    NatToStringRoundTrip(Trunc(clearanceDistance));
  }

  function EdgeKey(edgeSide: string): string {
    "edge_" + edgeSide
  }

  function EdgeWarningMessage(edgeSide: string): string {
    "Caution: Approaching sidewalk edge on " + edgeSide + "."
  }

  /** announce_edge_warning. */
  function EdgeWarningStep(s: AudioState, edgeSide: string, now: real, cooldown: real): AudioState {
    if !s.enabled then s
    else
      var key := EdgeKey(edgeSide);
      if now - LastTime(s.lastAnnouncementTime, key) < cooldown then s
      else Speak(s.(lastAnnouncementTime := s.lastAnnouncementTime[key := now]), EdgeWarningMessage(edgeSide))
  }

  /** An edge warning speaks iff enabled and its side's cooldown has passed;
      only its own side's timestamp changes, and only when it speaks. */
  lemma EdgeWarningEffect(s: AudioState, edgeSide: string, now: real, cooldown: real)
    ensures var s' := EdgeWarningStep(s, edgeSide, now, cooldown);
            var speaks := s.enabled && now - LastTime(s.lastAnnouncementTime, EdgeKey(edgeSide)) >= cooldown;
      && (speaks ==> s'.spoken == s.spoken + [EdgeWarningMessage(edgeSide)] &&
                     LastTime(s'.lastAnnouncementTime, EdgeKey(edgeSide)) == now)
      && (!speaks ==> s' == s)
      && SameExcept(s.lastAnnouncementTime, s'.lastAnnouncementTime, EdgeKey(edgeSide))
      && s'.enabled == s.enabled && s'.lastAnnouncedObject == s.lastAnnouncedObject
  {
  }

  /** The two sides have separate cooldowns: a warning on one side never
      holds back a warning on the other. */
  lemma EdgeSidesIndependent(s: AudioState, side1: string, side2: string, t1: real, t2: real, cooldown: real)
    requires side1 != side2
    ensures var s1 := EdgeWarningStep(s, side1, t1, cooldown);
      LastTime(s1.lastAnnouncementTime, EdgeKey(side2)) == LastTime(s.lastAnnouncementTime, EdgeKey(side2))
  {
    assert EdgeKey(side1)[5..] == side1 && EdgeKey(side2)[5..] == side2;
  }

  function ToggleStep(s: AudioState): AudioState {
    s.(enabled := !s.enabled)
  }

  lemma ToggleTwice(s: AudioState)
    ensures ToggleStep(ToggleStep(s)) == s
  {
  }

  // ---------------------------------------------------------------------
  // The AudioFeedback object
  // ---------------------------------------------------------------------

  class AudioFeedback {
    var enabled: bool
    var lastAnnouncementTime: map<string, real>
    var lastAnnouncedObject: Option<string>
    const cooldown: real
    /** Every sentence handed to the speech engine, in order. */
    var spoken: seq<string>

    function State(): AudioState
      reads this
    {
      AudioState(enabled, lastAnnouncementTime, lastAnnouncedObject, spoken)
    }

    constructor (enabled: bool)
      ensures State() == AudioState(enabled && AUDIO_ENABLED, map[], None, [])
      ensures cooldown == ANNOUNCEMENT_COOLDOWN
    {
      this.enabled := enabled && AUDIO_ENABLED;
      lastAnnouncementTime := map[];
      lastAnnouncedObject := None;
      cooldown := ANNOUNCEMENT_COOLDOWN;
      spoken := [];
    }

    method ShouldAnnounce(detection: Detection, now: real) returns (answer: bool)
      modifies this`lastAnnouncementTime
      ensures (answer, State()) == ShouldAnnounceStep(old(State()), detection.priority,
                                                      AnnouncementKey(detection.className, detection.direction), now, cooldown)
    {
      if !enabled {
        return false;
      }
      if detection.priority < MIN_PRIORITY_FOR_AUDIO {
        return false;
      }
      var objKey := AnnouncementKey(detection.className, detection.direction);
      var lastTime := LastTime(lastAnnouncementTime, objKey);
      if now - lastTime < cooldown {
        return false;
      }
      lastAnnouncementTime := lastAnnouncementTime[objKey := now];
      return true;
    }

    /** _speak: hands the text to the speech engine. */
    method SpeakText(text: string)
      modifies this`spoken
      ensures State() == Speak(old(State()), text)
    {
      spoken := spoken + [text];
    }

    method Announce(detection: Detection, force: bool, now: real)
      modifies this`lastAnnouncementTime, this`spoken
      ensures State() == AnnounceStep(old(State()), force, detection.priority,
                                      AnnouncementKey(detection.className, detection.direction),
                                      GenerateWarningMessage(detection), now, cooldown)
    {
      if !enabled && !force {
        return;
      }
      if !force {
        var ok := ShouldAnnounce(detection, now);
        if !ok {
          return;
        }
      }
      var message := GenerateWarningMessage(detection);
      SpeakText(message);
    }

    method AnnounceClearPath(clearanceDistance: real, now: real)
      modifies this`lastAnnouncementTime, this`lastAnnouncedObject, this`spoken
      ensures State() == ClearPathStep(old(State()), clearanceDistance, now, cooldown)
    {
      if !enabled {
        return;
      }
      if lastAnnouncedObject == Some("clear") {
        if now - LastTime(lastAnnouncementTime, "clear") < cooldown * 2.0 {
          return;
        }
      }
      var message := ClearPathMessage(clearanceDistance);
      lastAnnouncedObject := Some("clear");
      lastAnnouncementTime := lastAnnouncementTime["clear" := now];
      SpeakText(message);
    }

    method AnnounceEdgeWarning(edgeSide: string, now: real)
      modifies this`lastAnnouncementTime, this`spoken
      ensures State() == EdgeWarningStep(old(State()), edgeSide, now, cooldown)
    {
      if !enabled {
        return;
      }
      var objKey := EdgeKey(edgeSide);
      if now - LastTime(lastAnnouncementTime, objKey) < cooldown {
        return;
      }
      var message := EdgeWarningMessage(edgeSide);
      lastAnnouncementTime := lastAnnouncementTime[objKey := now];
      SpeakText(message);
    }

    method Toggle() returns (newState: bool)
      modifies this`enabled
      ensures State() == ToggleStep(old(State()))
      ensures newState == enabled
    {
      enabled := !enabled;
      return enabled;
    }
  }

  // ---------------------------------------------------------------------
  // AudioManager
  // ---------------------------------------------------------------------

  /** Consecutive clear frames before a clear-path announcement. */
  const CLEAR_PATH_FRAMES: int := 30

  /** One clear frame: (new path_clear_count, whether announce_clear_path runs). */
  function ClearTick(count: int): (int, bool) {
    if count + 1 >= CLEAR_PATH_FRAMES then (0, true) else (count + 1, false)
  }

  /** The number of clear-path announcements over `n` consecutive clear
      frames starting from `count`. */
  function ClearTriggers(count: int, n: nat): nat
    decreases n
  {
    if n == 0 then 0
    else
      var (next, fires) := ClearTick(count);
      (if fires then 1 else 0) + ClearTriggers(next, n - 1)
  }

  /** Over n consecutive clear frames, announce_clear_path is called once
      per 30 frames: (count + n) / 30 times. */
  lemma {:induction false} ClearTriggersCount(count: int, n: nat)
    requires 0 <= count < CLEAR_PATH_FRAMES
    ensures ClearTriggers(count, n) == (count + n) / CLEAR_PATH_FRAMES
    decreases n
  {
    if n > 0 {
      ClearTriggersCount(ClearTick(count).0, n - 1);
    }
  }

  /** The detections whose priority is at least MIN_PRIORITY_FOR_AUDIO, in order. */
  function PriorityDetections(detections: seq<Detection>): (r: seq<Detection>)
    ensures |r| <= |detections|
    ensures forall i :: 0 <= i < |r| ==> r[i] in detections && r[i].priority >= MIN_PRIORITY_FOR_AUDIO
    ensures forall i :: 0 <= i < |detections| && detections[i].priority >= MIN_PRIORITY_FOR_AUDIO ==>
                          detections[i] in r
  {
    if detections == [] then []
    else
      var pre := detections[..|detections| - 1];
      var last := detections[|detections| - 1];
      assert forall i :: 0 <= i < |pre| ==> pre[i] == detections[i];
      PriorityDetections(pre) + (if last.priority >= MIN_PRIORITY_FOR_AUDIO then [last] else [])
  }

  /** `max(ds, key=lambda d: d.get('threat_score', 0))`. */
  function MostCritical(ds: seq<Detection>): Detection
    reads ds
    requires |ds| > 0
  {
    ds[FirstMaxIndex(ThreatScores(ds))]
  }

  /** max() returns the first element of maximal threat score. */
  lemma MostCriticalIsFirstMax(ds: seq<Detection>)
    requires |ds| > 0
    ensures exists i :: 0 <= i < |ds| && MostCritical(ds) == ds[i] && IsFirstMax(ThreatScores(ds), i)
  {
    var i := FirstMaxIndex(ThreatScores(ds));
    assert MostCritical(ds) == ds[i];
  }

  /** The positions in `detections` of those of sufficient priority. */
  function PriorityIndices(detections: seq<Detection>): seq<int>
    reads detections
  {
    if detections == [] then []
    else
      var n := |detections| - 1;
      PriorityIndices(detections[..n]) + (if detections[n].priority >= MIN_PRIORITY_FOR_AUDIO then [n] else [])
  }

  /** Facts about the priority positions `idx` of `ds` and the detections `r` kept there. */
  ghost predicate KeptAt(ds: seq<Detection>, idx: seq<int>, r: seq<Detection>) {
    && |idx| == |r|
    && (forall k :: 0 <= k < |idx| ==> 0 <= idx[k] < |ds| && r[k] == ds[idx[k]])
    && (forall k, l :: 0 <= k < l < |idx| ==> idx[k] < idx[l])
    && (forall i :: 0 <= i < |ds| ==> (i in idx <==> ds[i].priority >= MIN_PRIORITY_FOR_AUDIO))
  }

  /** The priority filter keeps exactly the detections of priority at least
      MIN_PRIORITY_FOR_AUDIO, each once, in their original order. */
  lemma {:induction false} PriorityDetectionsCharacterized(detections: seq<Detection>)
    ensures KeptAt(detections, PriorityIndices(detections), PriorityDetections(detections))
  {
    if detections != [] {
      var n := |detections| - 1;
      var pre := detections[..n];
      PriorityDetectionsCharacterized(pre);
      KeptAtStep(detections, PriorityIndices(pre), PriorityDetections(pre));
    }
  }

  /** One more detection at the end extends the positions and the kept list. */
  lemma KeptAtStep(ds: seq<Detection>, idx0: seq<int>, r0: seq<Detection>)
    requires |ds| > 0 && KeptAt(ds[..|ds| - 1], idx0, r0)
    ensures var n := |ds| - 1;
            var keep := ds[n].priority >= MIN_PRIORITY_FOR_AUDIO;
      KeptAt(ds, idx0 + (if keep then [n] else []), r0 + (if keep then [ds[n]] else []))
  {
    var n := |ds| - 1;
    assert forall k :: 0 <= k < |idx0| ==> idx0[k] < n;
    assert forall i :: 0 <= i < n ==> ds[..n][i] == ds[i];
  }

  /** Position i of the frame holds a detection of sufficient priority whose
      threat no such detection exceeds and no earlier such detection equals. */
  ghost predicate IsFirstCritical(detections: seq<Detection>, i: int)
    reads detections
  {
    && 0 <= i < |detections| && detections[i].priority >= MIN_PRIORITY_FOR_AUDIO
    && (forall j :: 0 <= j < |detections| && detections[j].priority >= MIN_PRIORITY_FOR_AUDIO ==>
          ThreatOr0(detections[j]) <= ThreatOr0(detections[i]))
    && (forall j :: 0 <= j < i && detections[j].priority >= MIN_PRIORITY_FOR_AUDIO ==>
          ThreatOr0(detections[j]) < ThreatOr0(detections[i]))
  }

  /** In a strictly increasing index list a smaller index sits earlier. */
  lemma IndexOrder(idx: seq<int>, k: int, l: int)
    requires 0 <= k < |idx| && 0 <= l < |idx|
    requires forall a, b :: 0 <= a < b < |idx| ==> idx[a] < idx[b]
    requires idx[l] < idx[k]
    ensures l < k
  {
  }

  /** The detection the manager picks for a frame is the first one of
      sufficient priority whose threat score is maximal among those. */
  lemma MostCriticalOfFrame(detections: seq<Detection>)
    requires PriorityDetections(detections) != []
    ensures exists i :: IsFirstCritical(detections, i) &&
                        MostCritical(PriorityDetections(detections)) == detections[i]
  {
    var r := PriorityDetections(detections);
    var idx := PriorityIndices(detections);
    PriorityDetectionsCharacterized(detections);
    var ks := ThreatScores(r);
    var k := FirstMaxIndex(ks);
    var i := idx[k];
    assert MostCritical(r) == r[k] == detections[i];
    assert ks[k] == ThreatOr0(detections[i]);
    forall j | 0 <= j < |detections| && detections[j].priority >= MIN_PRIORITY_FOR_AUDIO
      ensures ThreatOr0(detections[j]) <= ThreatOr0(detections[i])
      ensures j < i ==> ThreatOr0(detections[j]) < ThreatOr0(detections[i])
    {
      assert j in idx;
      var l :| 0 <= l < |idx| && idx[l] == j;
      assert ks[l] == ThreatOr0(r[l]) == ThreatOr0(detections[j]);
      if j < i {
        IndexOrder(idx, k, l);
      }
    }
    assert IsFirstCritical(detections, i);
  }

  /** What the manager remembers of a detection for the re-announcement test. */
  datatype Seen = Seen(className: string, direction: Option<string>, threat: int)

  function SeenOf(d: Detection): Seen
    reads d
  {
    Seen(d.className, d.direction, ThreatOr0(d))
  }

  /** Re-announce iff there is no previous detection, or the class or
      direction differs, or the threat rose by more than 10. */
  function ShouldReannounce(previous: Option<Seen>, current: Seen): bool {
    match previous
    case None => true
    case Some(p) =>
      var sameObject := current.className == p.className && current.direction == p.direction;
      !sameObject || current.threat > p.threat + 10
  }

  /** The same object in the same place is announced again only after its
      threat has risen by more than 10; in particular presenting the
      announced detection again never repeats it. */
  lemma ReannounceOnlyOnChange(previous: Seen, current: Seen)
    requires current.className == previous.className && current.direction == previous.direction
    ensures ShouldReannounce(Some(previous), current) <==> current.threat > previous.threat + 10
    ensures !ShouldReannounce(Some(previous), previous)
  {
  }

  class AudioManager {
    const audio: AudioFeedback
    var lastCriticalDetection: Detection?
    var pathClearCount: int

    ghost predicate Valid()
      reads this
    {
      0 <= pathClearCount < CLEAR_PATH_FRAMES
    }

    constructor ()
      ensures Valid() && fresh(audio)
      ensures audio.State() == AudioState(AUDIO_ENABLED, map[], None, [])
      ensures audio.cooldown == ANNOUNCEMENT_COOLDOWN
      ensures lastCriticalDetection == null && pathClearCount == 0
    {
      audio := new AudioFeedback(true);
      lastCriticalDetection := null;
      pathClearCount := 0;
    }

    function LastSeen(): Option<Seen>
      reads this`lastCriticalDetection, lastCriticalDetection
    {
      if lastCriticalDetection == null then None else Some(SeenOf(lastCriticalDetection))
    }

    /** process_frame_detections. An empty frame or a clear path counts one
        clear frame (the 30th consecutive one announces the clear path) and forgets the
        last critical detection. Otherwise the count restarts, and the first
        detection of maximal threat among those of sufficient priority is
        announced (subject to the cooldown) iff it is new, moved or more
        threatening by more than 10; only then is it remembered. */
    method ProcessFrameDetections(detections: seq<Detection>, pathClear: bool, clearanceDistance: real, now: real)
      requires Valid()
      modifies this, audio
      ensures Valid()
      ensures detections == [] || pathClear ==>
        && pathClearCount == ClearTick(old(pathClearCount)).0
        && lastCriticalDetection == null
        && audio.State() == if ClearTick(old(pathClearCount)).1
                            then ClearPathStep(old(audio.State()), clearanceDistance, now, audio.cooldown)
                            else old(audio.State())
      ensures !(detections == [] || pathClear) ==>
        var candidates := PriorityDetections(detections);
        && pathClearCount == 0
        && (candidates == [] ==> lastCriticalDetection == old(lastCriticalDetection) &&
                                 audio.State() == old(audio.State()))
        && (candidates != [] ==>
              var mostCritical := MostCritical(candidates);
              var announce := ShouldReannounce(old(LastSeen()), SeenOf(mostCritical));
              && lastCriticalDetection == (if announce then mostCritical else old(lastCriticalDetection))
              && audio.State() == if announce
                                  then AnnounceStep(old(audio.State()), false, mostCritical.priority,
                                                    AnnouncementKey(mostCritical.className, mostCritical.direction),
                                                    GenerateWarningMessage(mostCritical), now, audio.cooldown)
                                  else old(audio.State()))
    {
      if detections == [] || pathClear {
        ClearFrame(clearanceDistance, now);
      } else {
        pathClearCount := 0;
        HazardFrame(detections, now);
      }
    }

    /** The clear branch of process_frame_detections. */
    method ClearFrame(clearanceDistance: real, now: real)
      requires Valid()
      modifies this, audio
      ensures Valid()
      ensures pathClearCount == ClearTick(old(pathClearCount)).0
      ensures lastCriticalDetection == null
      ensures audio.State() == if ClearTick(old(pathClearCount)).1
                               then ClearPathStep(old(audio.State()), clearanceDistance, now, audio.cooldown)
                               else old(audio.State())
    {
      pathClearCount := pathClearCount + 1;
      if pathClearCount >= CLEAR_PATH_FRAMES {
        audio.AnnounceClearPath(clearanceDistance, now);
        pathClearCount := 0;
      }
      lastCriticalDetection := null;
    }

    /** The hazard branch of process_frame_detections, after the clear count is reset. */
    method HazardFrame(detections: seq<Detection>, now: real)
      modifies this`lastCriticalDetection, audio
      ensures var candidates := PriorityDetections(detections);
        && (candidates == [] ==> lastCriticalDetection == old(lastCriticalDetection) &&
                                 audio.State() == old(audio.State()))
        && (candidates != [] ==> ReannounceOutcome(MostCritical(candidates), old(lastCriticalDetection), old(LastSeen()),
                                                    old(audio.State()), now))
    {
      var priorityDetections := PriorityDetections(detections);
      if priorityDetections != [] {
        var mostCritical := MostCritical(priorityDetections);
        AnnounceIfChanged(mostCritical, now);
      }
    }

    /** The state after the re-announcement rule has been applied to
        `mostCritical`, given the remembered detection and audio state before. */
    ghost predicate ReannounceOutcome(mostCritical: Detection, previous: Detection?, lastSeen: Option<Seen>,
                                      before: AudioState, now: real)
      reads this`lastCriticalDetection, audio, mostCritical
    {
      var announce := ShouldReannounce(lastSeen, SeenOf(mostCritical));
      && lastCriticalDetection == (if announce then mostCritical else previous)
      && audio.State() == if announce
                          then AnnounceStep(before, false, mostCritical.priority,
                                            AnnouncementKey(mostCritical.className, mostCritical.direction),
                                            GenerateWarningMessage(mostCritical), now, audio.cooldown)
                          else before
    }

    /** Announces `mostCritical` and remembers it iff it is new, moved or
        more threatening by more than 10 than the remembered one. */
    method AnnounceIfChanged(mostCritical: Detection, now: real)
      modifies this`lastCriticalDetection, audio
      ensures ReannounceOutcome(mostCritical, old(lastCriticalDetection), old(LastSeen()), old(audio.State()), now)
    {
      var shouldAnnounce := ShouldReannounce(LastSeen(), SeenOf(mostCritical));
      if shouldAnnounce {
        audio.Announce(mostCritical, false, now);
        lastCriticalDetection := mostCritical;
      }
    }

    method AnnounceEdge(edgeSide: string, now: real)
      modifies audio
      ensures audio.State() == EdgeWarningStep(old(audio.State()), edgeSide, now, audio.cooldown)
    {
      audio.AnnounceEdgeWarning(edgeSide, now);
    }

    method ToggleAudio() returns (newState: bool)
      modifies audio
      ensures audio.State() == ToggleStep(old(audio.State()))
      ensures newState == audio.enabled
    {
      newState := audio.Toggle();
    }
  }
}
