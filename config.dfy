/** The constants of config.py that the hazard-to-alert logic depends on. */
module Config {

  /** PRIORITY_LEVELS: higher is more critical; 'default' covers every other class. */
  const PRIORITY_LEVELS: map<string, int> := map[
    "pothole" := 5, "manhole" := 5, "gap" := 5,
    "stairs" := 4, "curb" := 4, "step" := 4,
    "broken_pavement" := 3, "tactile_paving" := 3,
    "person" := 2, "bicycle" := 2, "car" := 3,
    "default" := 1
  ]

  /** `PRIORITY_LEVELS.get(name, PRIORITY_LEVELS['default'])`. */
  function PriorityOf(name: string): (p: int)
    ensures 1 <= p <= 5
    ensures name !in PRIORITY_LEVELS ==> p == 1
  {
    if name in PRIORITY_LEVELS then PRIORITY_LEVELS[name] else PRIORITY_LEVELS["default"]
  }

  // DISTANCE_THRESHOLDS: the box-height and box-bottom ratios of the
  // 'immediate' and 'near' categories. (The 'distance_m' entries of that
  // table are not read by the proximity estimator, which has its own formulas.)
  const IMMEDIATE_HEIGHT_RATIO: real := 0.3
  const IMMEDIATE_BOTTOM_RATIO: real := 0.8
  const NEAR_HEIGHT_RATIO: real := 0.15
  const NEAR_BOTTOM_RATIO: real := 0.6

  const AUDIO_ENABLED: bool := true
  /** Seconds between two announcements under the same key. */
  const ANNOUNCEMENT_COOLDOWN: real := 3.0
  /** Objects below this priority are never announced. */
  const MIN_PRIORITY_FOR_AUDIO: int := 2

  /** Warn when a sidewalk edge is within this fraction of the frame width. */
  const EDGE_WARNING_DISTANCE: real := 0.2
}
