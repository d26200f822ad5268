# Hazard-to-alert core of a walking-assistance camera, in Dafny

The system watches a forward camera for hazards on the pavement and tells a
visually impaired walker about them by voice. This project models the part
that turns detections into alerts:

- **Detections the model produces** (`detector.dfy`). The adapter turns each
  raw YOLO box into a detection record. Its class is mapped onto a hazard
  type, it gets that type's priority, and its centre is truncated to
  pixels. `combine_detections` merges the model's detections with those of
  the custom (vision) detectors. A custom box counts as a duplicate when its
  intersection-over-union with some model box exceeds 0.3.
- **Proximity analysis** (`proximity.dfy`):
  - the distance category (immediate / near / far) and the metre estimate
    of a bounding box;
  - the direction zone (five zones) and its phrase;
  - the threat score;
  - the most-critical filter;
  - the centre-corridor path clearance.
- **Audio scheduling** (`audio.dfy`):
  - per-key announcement cooldowns and the wording of warnings;
  - clear-path, edge-warning and toggle announcements;
  - the manager, which counts consecutive clear frames, picks the most
    critical hazard and announces it when nothing is remembered, when it is a
    different object or direction, or when its threat rose by more than 10.
- **Sidewalk edge logic** (`sidewalk.dfy`):
  - the column vote that finds an edge in the left or right half of the
    edge image (median of the first three voting columns);
  - the check that the user has drifted within the warning width of an edge;
  - the merge of the edge detector's results with the colour-based ones.
- **Configuration** (`config.dfy`). The priority table, the distance ratios,
  the audio settings and the edge warning distance.

Records that the Python code passes around as dicts and updates in place are
modelled as the class `Detections.Detection`. Its detector-set keys are
constants, and the five keys the proximity analysis adds later are mutable
`Option` fields. The two audio objects are classes, `Audio.AudioFeedback`
and `Audio.AudioManager`. Each method of theirs is proved to move the state
exactly as a pure step function says (`ShouldAnnounceStep`, `AnnounceStep`,
`ClearPathStep`, `EdgeWarningStep`, `ToggleStep`). The properties are then
proved about those step functions.

Spoken text is kept as the sequence `spoken`, appended to by `SpeakText`.
The wall clock is the parameter `now`.

Facts about the code that the model keeps:

- a custom detection is a duplicate when its IoU with some model detection
  exceeds 0.3 (src/detector.py:231);
- a model detection always survives fusion, whatever the confidences, and a
  duplicate custom detection is dropped (src/detector.py:208-236);
- direction has five zones: far left, left, centre, right and far right
  (src/proximity.py:103-112);
- the threat score is priority·10 plus a distance score plus a direction
  score, capped at 100 (src/proximity.py:159-179);
- the most critical detection is the first one of maximal threat score among
  those of priority at least 2 (src/audio_feedback.py:291-298);
- the most critical detection is re-announced when nothing is remembered
  (at start, or after any clear frame, src/audio_feedback.py:285 and
  303-304), when its class or direction differs from the remembered one, or
  when its threat rose by more than 10 (src/audio_feedback.py:306-313);
- a clear-path announcement is due after 30 consecutive clear frames; any
  hazard frame resets the count (src/audio_feedback.py:276-288). The
  announcement itself is spoken at most once per 2 × cooldown
  (src/audio_feedback.py:172-175).

The methods that change state carry `old(...)` contracts that give their
whole new state in terms of the step functions; the properties the source
promises are proved as lemmas about those step functions.

## Model

| member | source | states |
|---|---|---|
| Common.Trunc | src/detector.py:96-97 | Python `int()` on a float truncates toward zero: r ≤ x < r+1 for x ≥ 0, r−1 < x ≤ r for x < 0 |
| Common.TruncMonotone | src/audio_feedback.py:132 | truncation keeps order, so a larger distance never speaks fewer whole metres |
| Common.NatToString | src/audio_feedback.py:177 | `str(n)` for a natural number: non-empty decimal digits, a single digit exactly below 10, and a leading '0' only for 0 itself |
| Common.IntToString | src/audio_feedback.py:132-136 | `str(int)` is non-empty, all digits for n ≥ 0, leads with '-' exactly for negatives, ends in a digit |
| Common.NatToStringRoundTrip | src/audio_feedback.py:177 | the decimal digits spoken for n read back as n |
| Common.NatToStringInjective | src/audio_feedback.py:177 | different non-negative numbers are spoken differently |
| Common.IntToStringInjective | src/audio_feedback.py:132-136 | different integers are spoken differently |
| Config.PriorityOf | config.py:21-34 | every class priority is in 1..5; an unlisted class gets the 'default' level 1 |
| Detector.HazardType | src/detector.py:93 | `coco_hazard_mapping.get(name, name)`; `HazardTypeIdempotent` and `HazardTypePriority` state its properties |
| Detector.HazardTypeIdempotent | src/detector.py:36-51 | mapping a COCO class to a hazard type twice equals mapping it once |
| Detector.HazardTypePriority | src/detector.py:36-51 | unmapped classes keep their name; bus and truck become car with priority 3; obstacles get priority 1 |
| Detector.CenterInsideBox | src/detector.py:96-97 | the truncated centre lies between the truncated corners of the box |
| Detector.Detect | src/detector.py:93-109 | one fresh, unanalysed record per raw box, in order, each built from its box (mapped class, original class, confidence, truncated box and centre, priority of the mapped class), all distinct |
| Detector.IoU | src/detector.py:219-229 | intersection-over-union lies in [0, 1] and is positive only when the boxes intersect |
| Detector.IntersectionBounds | src/detector.py:219-225 | the intersection of intersecting boxes has positive area no larger than either box |
| Detector.UnionPositive | src/detector.py:227-229 | the union area is positive, so the division is defined |
| Detector.IoUSymmetric | src/detector.py:219-229 | IoU does not depend on the order of the two boxes |
| Detector.OverlapsInIntegers | src/detector.py:229-233 | IoU > 0.3 iff 10·intersection > 3·union, in integer areas |
| Detector.CombineDetections | src/detector.py:208-238 | the result is every model detection, in order, followed by the custom detections that overlap no model detection, in order |
| Detector.KeptCv | src/detector.py:210-236 | the custom detections with no model duplicate, in order; `KeptCvCharacterized` gives them by position, independently of the recursion |
| Detector.KeptCvCharacterized | src/detector.py:215-238 | the kept custom detections are exactly those at increasing indices whose boxes overlap no model box |
| Detector.KeptCvAppend | src/detector.py:215-238 | the filter works detection by detection: it distributes over concatenation |
| Detector.KeptCvLength | src/detector.py:215-238 | fusion never adds custom detections |
| Detector.KeptCvWithoutMl | src/detector.py:215-238 | with no model detections every custom detection is kept |
| Detector.FusionProperties | src/detector.py:208-238 | the fused list starts with all the model detections; its length lies between the model count and the sum of both counts; with no custom detections it is the model list, with no model detections it is the custom list |
| Proximity.DirectionalPhrase | src/proximity.py:124-131 | `get_directional_phrase`: the five-entry phrase table with fallback "ahead"; its properties are `DirectionalPhraseDistinct` and `DirectionalPhraseFallback` |
| Proximity.DirectionalPhraseDistinct | src/proximity.py:124-131 | each of the five zones has its own phrase, never the fallback "ahead" |
| Proximity.DirectionalPhraseFallback | src/proximity.py:131 | any other direction string gets "ahead" |
| Proximity.DirectionScore | src/proximity.py:170-177 | the direction score table (10 centre, 7 left and right, 3 far left and far right, 5 otherwise); `ThreatRange` bounds its effect |
| Proximity.DistanceScore | src/proximity.py:162-167 | 40 immediate, 25 near, 10 far; `ThreatMonotoneInCategory` shows a closer category scores at least as high |
| Proximity.ThreatScore | src/proximity.py:159-179 | the threat score, capped at 100 |
| Proximity.ThreatMonotoneInCategory | src/proximity.py:159-179 | a closer category never lowers the threat |
| Proximity.ThreatMonotoneInPriority | src/proximity.py:159-179 | a higher priority never lowers the threat |
| Proximity.ThreatRange | src/proximity.py:159-179 | for a real zone and a non-negative priority the threat is in 13..100 |
| Proximity.Round1 | src/proximity.py:82 | rounding to one decimal gives a whole number of tenths and moves the value by at most 0.05 |
| Proximity.Round1Bounds | src/proximity.py:82 | rounding to one decimal keeps a value on its side of every tenth |
| Proximity.ProximityEstimator.CalculateDistanceCategory | src/proximity.py:47-82 | the distance lies in [0.5, 15]; immediate means at most 2 m, near at least 2 m, far at least 5 m |
| Proximity.ProximityEstimator.CategoryCharacterized | src/proximity.py:65-77 | immediate iff the box height, its bottom or the closeness score passes its immediate threshold; near iff not immediate and one of them passes its near threshold; far otherwise |
| Proximity.ProximityEstimator.CloserWhenLower | src/proximity.py:65-77 | moving a box lower in the frame never makes its category farther |
| Proximity.ProximityEstimator.CalculateDirection | src/proximity.py:94-112 | `calculate_direction` on the centre's offset ratio; `DirectionInPixels`, `DirectionMirror` and `DirectionMonotone` state its properties |
| Proximity.ProximityEstimator.DirectionInPixels | src/proximity.py:94-112 | the five zones as pixel inequalities on the box centre's offset from the frame centre |
| Proximity.ProximityEstimator.DirectionMirror | src/proximity.py:94-112 | mirroring the box left to right mirrors its zone |
| Proximity.ProximityEstimator.DirectionMonotone | src/proximity.py:94-112 | a box further right never gets a zone further left |
| Proximity.ProximityEstimator.AnalysisOf | src/proximity.py:148-190 | the analysis gives a distance in [0.5, 15] and a threat of at most 100 |
| Proximity.ProximityEstimator.AnalyzeDetection | src/proximity.py:148-190 | returns the same record, with exactly its five analysis fields set from its box and priority |
| Proximity.ProximityEstimator.FilterMostCritical | src/proximity.py:202-210 | None iff the list is empty; otherwise an element of the list whose threat no element exceeds and no earlier element equals |
| Proximity.ProximityEstimator.CalculatePathClearance | src/proximity.py:225-245 | clear iff no detection in the centre corridor is nearer than 15 m; the clearance is the first minimal distance among those, or 15 |
| Proximity.DefaultThresholds | src/proximity.py:26-29 | at 1280×720 the pixel thresholds are 216, 576, 108 and 432 |
| Proximity.DefaultCategoryVectors | test_logic.py:15-27 | a large low box is immediate and a small high box is far |
| Proximity.DefaultPotholeThreat | test_logic.py:41-56 | an immediate pothole straight ahead scores the maximum threat |
| Proximity.FirstMaxIndex | src/proximity.py:206-210 | the index of the first maximum of a non-empty list |
| Proximity.FirstMaxUnique | src/proximity.py:206-210 | the first maximum is unique, so the stable sort's head is determined |
| Audio.ShouldAnnounceStep | src/audio_feedback.py:75-95 | answers yes iff enabled, the priority is at least 2 and the cooldown has passed since the key's last time (0 if never); a yes stamps the key with now; a no changes nothing |
| Audio.ShouldAnnounceTouchesOnlyItsKey | src/audio_feedback.py:83-93 | only the detection's own key's timestamp may change |
| Audio.ShouldAnnounceCooldown | src/audio_feedback.py:86-90 | after a yes, the same key answers no until the cooldown has passed, whatever the priority |
| Audio.WarningMessage | src/audio_feedback.py:107-142 | `generate_warning_message` on the record's fields, with the defaults 5.0 m, near and "ahead"; `WarningMessageShape`, `DangerPlural` and `DistanceIsSpoken` state its properties |
| Audio.GenerateWarningMessage | src/audio_feedback.py:107-142 | `WarningMessage` applied to the fields of a detection record |
| Audio.WarningMessageShape | src/audio_feedback.py:107-142 | the message starts with urgency, label and phrase; it ends with '!' iff immediate; its first letter is D, C or N exactly for immediate, near and far |
| Audio.MessageSplit | src/audio_feedback.py:130-137 | a near or immediate message is the fixed front, the whole metres and an ending that depends only on the category and on d > 1 |
| Audio.DangerPlural | src/audio_feedback.py:130-133 | an immediate message ends in "meters!" iff the distance exceeds 1 m, and in "meter!" otherwise |
| Audio.PluralEnding | src/audio_feedback.py:130-133 | whatever text precedes it, the danger ending reads "meters!" iff the distance exceeds 1 m, and "meter!" otherwise |
| Audio.DistanceIsSpoken | src/audio_feedback.py:130-137 | two equal near or immediate messages about the same object and direction have equal truncated distances, whichever side of 1 m each distance lies |
| Audio.EndingFixed | src/audio_feedback.py:132-133 | two messages that end alike have the same distance ending: singular and plural are told apart by their second-last letter |
| Audio.NearPotholeMessage | test_logic.py:68-80 | a near pothole 2.5 m directly ahead is announced as "Caution: pothole directly ahead, 2 meters." |
| Audio.AnnounceStep | src/audio_feedback.py:152-159 | the state change of `announce`; `AnnounceSpeaksIff` and `AnnounceCooldown` state its properties |
| Audio.AnnounceSpeaksIff | src/audio_feedback.py:152-159 | announce speaks its message iff forced or should_announce says yes; otherwise it changes only that key's timestamp |
| Audio.AnnounceCooldown | src/audio_feedback.py:152-159 | an unforced repeat within the cooldown is silent |
| Audio.ClearPathStep | src/audio_feedback.py:168-183 | the state change of `announce_clear_path`; `ClearPathEffect` and `ClearPathSpacing` state its properties |
| Audio.ClearPathEffect | src/audio_feedback.py:168-183 | speaks iff enabled and either the last object was not 'clear' or 2·cooldown has passed; speaking marks 'clear' and stamps its key; otherwise nothing changes |
| Audio.ClearPathSpacing | src/audio_feedback.py:172-175 | after a clear-path announcement none follows within 2·cooldown |
| Audio.ClearPathMessageDistance | src/audio_feedback.py:177-178 | below 15 m the message carries the whole metres, which read back as the truncated clearance |
| Audio.EdgeWarningStep | src/audio_feedback.py:192-205 | the state change of `announce_edge_warning`; `EdgeWarningEffect` and `EdgeSidesIndependent` state its properties |
| Audio.EdgeWarningEffect | src/audio_feedback.py:192-205 | speaks iff enabled and that side's cooldown has passed; only that side's key is stamped |
| Audio.EdgeSidesIndependent | src/audio_feedback.py:195-204 | a warning on one side never changes the other side's timestamp |
| Audio.ToggleStep | src/audio_feedback.py:242-243 | `toggle` flips `enabled` and nothing else; `ToggleTwice` is its inverse law |
| Audio.ToggleTwice | src/audio_feedback.py:242-243 | toggling twice restores the state |
| Audio.AudioFeedback.constructor | src/audio_feedback.py:30-59 | enabled iff asked and enabled in the configuration; no timestamps, no last object, nothing spoken; cooldown 3 s |
| Audio.AudioFeedback.ShouldAnnounce | src/audio_feedback.py:75-95 | the answer and the new state are those of `ShouldAnnounceStep` |
| Audio.AudioFeedback.SpeakText | src/audio_feedback.py:207-233 | appends the text to what has been spoken and changes nothing else |
| Audio.AudioFeedback.Announce | src/audio_feedback.py:152-159 | the new state is that of `AnnounceStep` for the detection's priority, key and message |
| Audio.AudioFeedback.AnnounceClearPath | src/audio_feedback.py:168-183 | the new state is that of `ClearPathStep` |
| Audio.AudioFeedback.AnnounceEdgeWarning | src/audio_feedback.py:192-205 | the new state is that of `EdgeWarningStep` |
| Audio.AudioFeedback.Toggle | src/audio_feedback.py:242-243 | flips enabled, changes nothing else and returns the new value |
| Audio.ClearTick | src/audio_feedback.py:278-283 | one clear frame: the count advances and, on reaching 30, an announcement is due and the count restarts at 0 |
| Audio.ClearTriggers | src/audio_feedback.py:276-286 | the number of announcements due over n clear frames; `ClearTriggersCount` gives it in closed form |
| Audio.ClearTriggersCount | src/audio_feedback.py:276-286 | starting from count c, n clear frames announce exactly (c + n) div 30 times |
| Audio.PriorityDetections | src/audio_feedback.py:291-292 | every kept detection is one of the frame's and has priority at least 2, and every such detection is kept |
| Audio.PriorityDetectionsCharacterized | src/audio_feedback.py:291-292 | the kept detections are exactly those at the increasing positions whose priority is at least 2, in their original order, each once |
| Audio.MostCritical | src/audio_feedback.py:298 | `max(…, key=threat_score)`; `MostCriticalIsFirstMax` and `MostCriticalOfFrame` state which element it is |
| Audio.MostCriticalIsFirstMax | src/audio_feedback.py:298 | `max` with a key returns the first element of maximal threat score, with missing scores as 0 |
| Audio.MostCriticalOfFrame | src/audio_feedback.py:291-298 | the detection picked for a frame is the one at the first position of priority at least 2 whose threat no other such detection exceeds and no earlier such detection equals |
| Audio.ShouldReannounce | src/audio_feedback.py:301-314 | the re-announcement rule; `ReannounceOnlyOnChange` states it for the same object and direction |
| Audio.ReannounceOnlyOnChange | src/audio_feedback.py:301-317 | for the same class and direction, re-announce iff the threat rose by more than 10; an unchanged detection is never re-announced |
| Audio.AudioManager.constructor | src/audio_feedback.py:260-263 | a fresh enabled audio object, no remembered detection, clear count 0 |
| Audio.AudioManager.ProcessFrameDetections | src/audio_feedback.py:276-317 | clear frame: advance the count, announce the clear path on the 30th consecutive clear frame and restart the count, forget the last detection; otherwise: reset the count, and announce and remember the most critical detection iff the re-announcement rule allows it |
| Audio.AudioManager.ClearFrame | src/audio_feedback.py:276-286 | the clear branch: count consecutive clear frames, announce the clear path when the count reaches 30 and restart it, forget the last detection |
| Audio.AudioManager.HazardFrame | src/audio_feedback.py:291-317 | the hazard branch: nothing happens without a candidate of sufficient priority; otherwise the rule is applied to the most critical one |
| Audio.AudioManager.AnnounceIfChanged | src/audio_feedback.py:301-317 | announce and remember iff new, moved or more threatening by more than 10 |
| Audio.AudioManager.AnnounceEdge | src/audio_feedback.py:319-321 | the audio state moves as `EdgeWarningStep` says |
| Audio.AudioManager.ToggleAudio | src/audio_feedback.py:323-325 | the audio state is toggled and the new value returned |
| Sidewalk.PyRange | src/sidewalk_detector.py:102 | `range(start, stop, ±1)`: its length and its i-th element |
| Sidewalk.SearchColumns | src/sidewalk_detector.py:88-102 | the columns the search visits, in order; `SearchColumnsOrdered` states their range and order |
| Sidewalk.ColumnCount | src/sidewalk_detector.py:104 | `np.sum(edge_image[:, x] > 0)` over the first rows; at most the number of rows |
| Sidewalk.ColumnVotes | src/sidewalk_detector.py:104-107 | a column votes when more than 30% of its pixels are edge pixels |
| Sidewalk.ColumnCountIsSetSize | src/sidewalk_detector.py:104 | the column count is the number of rows with a positive edge pixel |
| Sidewalk.CountColumn | src/sidewalk_detector.py:104 | the loop computes the column count |
| Sidewalk.VotesAlong | src/sidewalk_detector.py:102-108 | never more votes than searched columns, and every vote is a searched column with more than 30% edge pixels |
| Sidewalk.VotesComplete | src/sidewalk_detector.py:102-108 | conversely, every searched column with more than 30% edge pixels is among the votes |
| Sidewalk.VotesPrefix | src/sidewalk_detector.py:102-108 | the votes along a prefix of the columns are a prefix of the votes |
| Sidewalk.VotesIncreasing | src/sidewalk_detector.py:88-108 | left-to-right search gives increasing votes |
| Sidewalk.VotesDecreasing | src/sidewalk_detector.py:93-108 | right-to-left search gives decreasing votes |
| Sidewalk.SearchColumnsOrdered | src/sidewalk_detector.py:88-102 | the left search visits all w/2 columns of [0, w/2) in increasing order; the right search visits all columns of (w/2, w−1] in decreasing order; column w/2 is never examined; all are columns of the image |
| Sidewalk.Median3 | src/sidewalk_detector.py:112 | the median of three values is one of them, with at least two values on each side |
| Sidewalk.MedianOfMonotone | src/sidewalk_detector.py:112 | the median of three ordered votes is the middle one, the second voting column |
| Sidewalk.FindEdgeInRegion | src/sidewalk_detector.py:86-114 | the edge is the median of the first three votes along the side's search, or None if fewer than three |
| Sidewalk.SearchColumnsForEdge | src/sidewalk_detector.py:100-114 | the loop stops at the third vote and returns its median, or None |
| Sidewalk.RegionEdge | src/sidewalk_detector.py:86-114 | `_find_edge_in_region` as a value; `FindEdgeInRegion` computes it and `RegionEdgeRange` bounds it |
| Sidewalk.RegionEdgeRange | src/sidewalk_detector.py:86-114 | a left edge lies in [1, w/2), a right edge in (w/2, w−2] |
| Sidewalk.DetectEdges | src/sidewalk_detector.py:70-73 | the left and right edges of the combined edge image |
| Sidewalk.SidewalkDetector.CheckUserPosition | src/sidewalk_detector.py:179-196 | near iff a side is reported; no edge missing ⇒ near left iff W/2 < left + ww, else near right iff W/2 > right − ww |
| Sidewalk.WarningWidthInPixels | src/sidewalk_detector.py:183 | the warning width is W/5 rounded down |
| Sidewalk.DefaultPosition | src/sidewalk_detector.py:183-196 | at width 1280 the warning width is 256 and the user is at 640, with three position vectors |
| Sidewalk.PyOr | src/sidewalk_detector.py:268-269 | `a or b` on an optional pixel: a unless it is None or 0 |
| Sidewalk.MergeEdges | src/sidewalk_detector.py:266-269 | the colour edges fill in only for a missing or zero edge; `ColourIgnoredWhenBothFound`, `MergeOfSearchedEdges` and `ZeroEdgeIsReplaced` state its properties |
| Sidewalk.ProcessFrameEdges | src/sidewalk_detector.py:263-272 | the edges are the merge of the detected and colour edges, and the position check is applied to them |
| Sidewalk.ColourIgnoredWhenBothFound | src/sidewalk_detector.py:266 | when both edges are found the colour result plays no part |
| Sidewalk.MergeOfSearchedEdges | src/sidewalk_detector.py:263-269 | edges found by the column search are never replaced by colour edges |
| Sidewalk.ZeroEdgeIsReplaced | src/sidewalk_detector.py:268 | an edge at column 0 counts as missing and is replaced by the colour edge |

## Left out

- Model inference (YOLO) and the OpenCV routines are left out: the custom hazard detectors, the Canny/Sobel filtering in `detect_edges`, `detect_edge_by_color` and `draw_edge_overlay`. They are image processing on foreign libraries. Their outputs are inputs of the model: raw boxes, the combined edge image and the colour edges.
- `_speak`'s thread, its "already speaking" drop, pyttsx3 initialisation (including the failure path that disables audio), `use_offline` and `cleanup` are left out. A spoken text is modelled as appended to `spoken`; whether the engine actually voices it is concurrency and foreign I/O.
- The wall clock is a `now` parameter. `announce_clear_path` reads the clock twice; the model uses a single reading for both.
- Floats are modelled as exact reals. `round(x, 1)` is rounded half to even on the exact value, so binary floating-point error is not modelled.
- `.get('priority', 0)` and `.get('threat_score', 0)` defaults: priority is always present on a record, so its default is not modelled. A missing threat score is modelled as 0.
- The `distance_m` entries of the distance thresholds are not used by the code and are not modelled.
- `roi_top` and `roi_bottom` are only used by the left-out image routines.
- Sidewalk.ProcessFrameEdges: takes the colour edges as a parameter even when both edges were found, although the source computes them only when needed. The colour routine has no effect on state, and `ColourIgnoredWhenBothFound` shows its result is then unused.
- Sidewalk.ProcessFrameEdges: the annotated frame of the result is not modelled.
- Audio.MostCriticalIsFirstMax: stated for a non-empty list only, since the source only calls `max` on a non-empty list.
- Proximity.ProximityEstimator: requires a frame of positive width and height (`Valid`). For a zero-size frame the source divides by zero (src/proximity.py:56-62, 100) and raises; that error path is not modelled.
- Proximity.ProximityEstimator.CalculatePathClearance: the corridor width is a plain parameter; the source's default of 0.4 (src/proximity.py:213) is not built in.
- Proximity.ProximityEstimator.FilterMostCritical: requires every record to be analysed (a threat score present), as the source indexes `threat_score` directly and would fail otherwise.
- Detector.Detect: the model covers the record construction, not the unpacking of tensors or the confidence filtering done inside the YOLO call.
