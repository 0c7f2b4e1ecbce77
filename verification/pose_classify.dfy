/**
 The pose classifiers of the camera controller (src/image_processing.py).
 Landmark positions arrive as integer pixel coordinates, already scaled to
 the frame; `None` stands for a frame in which no pose was detected. The
 wrist distance is an input, since computing it takes a square root.
 */
module PoseClassify {
  import opened Wrappers

  datatype Point = Point(x: int, y: int)

  /** The landmarks the classifiers read. */
  datatype Pose = Pose(leftShoulder: Point, rightShoulder: Point)

  /** The thresholds read from the configuration file. */
  datatype Config = Config(lowerBoundLineThreshold: int, upperBoundLineThreshold: int,
                           distanceThresholdHandsJoined: real)

  /** Python's `//` by 2. Dafny's `/` rounds toward negative infinity for a
      positive divisor, as Python's floor division does. */
  function HalfFloor(n: int): (h: int)
    ensures 2 * h <= n < 2 * h + 2
  {
    n / 2
  }

  /** The shoulder midpoint lies between the two shoulders. */
  lemma MidpointBetween(a: int, b: int)
    ensures var m := HalfFloor(a + b);
            (a <= b ==> a <= m <= b) && (b <= a ==> b <= m <= a)
  {
  }

  // ---- vertical movement ----

  datatype Vertical = Up | Down | Standing

  /** The two horizontal lines, as `draw_horizontal_and_vertical_lines`
      and `check_up_down` both compute them. */
  function LowerBound(centerY: int, cfg: Config): int
  {
    centerY + cfg.lowerBoundLineThreshold
  }

  function UpperBound(centerY: int, cfg: Config): int
  {
    centerY - cfg.upperBoundLineThreshold
  }

  /** `check_up_down`: the shoulder midpoint above the upper line is Up,
      below the lower line is Down, otherwise Standing. */
  function CheckUpDown(pose: Option<Pose>, centerY: int, cfg: Config): (r: Option<Vertical>)
    ensures r.None? <==> pose.None?
    ensures pose.Some? ==>
              var mid := HalfFloor(pose.value.leftShoulder.y + pose.value.rightShoulder.y);
              (r == Some(Up) <==> mid < centerY - cfg.upperBoundLineThreshold)
              && (r == Some(Down) <==> !(mid < centerY - cfg.upperBoundLineThreshold)
                                       && mid > centerY + cfg.lowerBoundLineThreshold)
              && (r == Some(Standing) <==> centerY - cfg.upperBoundLineThreshold <= mid
                                           <= centerY + cfg.lowerBoundLineThreshold)
  {
    match pose
    case None => None
    case Some(p) =>
      var mid := HalfFloor(p.leftShoulder.y + p.rightShoulder.y);
      if mid < UpperBound(centerY, cfg) then Some(Up)
      else if mid > LowerBound(centerY, cfg) then Some(Down)
      else Some(Standing)
  }

  /** Up, Standing and Down in screen order (y grows downwards). */
  function VerticalRank(v: Vertical): nat
  {
    match v
    case Up => 0
    case Standing => 1
    case Down => 2
  }

  /** A lower shoulder line never reads as higher: the classification is
      monotone in the midpoint, whatever the thresholds. */
  lemma UpDownMonotone(p: Pose, q: Pose, centerY: int, cfg: Config)
    requires p.leftShoulder.y + p.rightShoulder.y <= q.leftShoulder.y + q.rightShoulder.y
    ensures VerticalRank(CheckUpDown(Some(p), centerY, cfg).value)
         <= VerticalRank(CheckUpDown(Some(q), centerY, cfg).value)
  {
    var a := p.leftShoulder.y + p.rightShoulder.y;
    var b := q.leftShoulder.y + q.rightShoulder.y;
    assert HalfFloor(a) <= HalfFloor(b);
  }

  // ---- horizontal position ----

  datatype Horizontal = Center | Right | Left

  /** `check_left_right` against the frame's vertical centre line: Center
      when the shoulders straddle it the right way round, Right or Left
      when both are on one side; nothing in every other case, including a
      shoulder exactly on the line. */
  function CheckLeftRight(pose: Option<Pose>, frameWidth: nat): (r: Option<Horizontal>)
    ensures pose.None? ==> r.None?
    ensures pose.Some? ==>
              var half := HalfFloor(frameWidth);
              var rx := pose.value.rightShoulder.x;
              var lx := pose.value.leftShoulder.x;
              (r == Some(Center) <==> rx < half && lx > half)
              && (r == Some(Right) <==> rx > half && lx > half)
              && (r == Some(Left) <==> rx < half && lx < half)
  {
    match pose
    case None => None
    case Some(p) =>
      var half := HalfFloor(frameWidth);
      if p.rightShoulder.x < half && p.leftShoulder.x > half then Some(Center)
      else if p.rightShoulder.x > half && p.leftShoulder.x > half then Some(Right)
      else if p.rightShoulder.x < half && p.leftShoulder.x < half then Some(Left)
      else None
  }

  /** A detected pose gets no horizontal verdict exactly when a shoulder
      is on the centre line or the shoulders straddle it crossed over. */
  lemma LeftRightUndecided(p: Pose, frameWidth: nat)
    ensures var half := HalfFloor(frameWidth);
            CheckLeftRight(Some(p), frameWidth).None?
            <==> p.rightShoulder.x == half || p.leftShoulder.x == half
                 || (p.rightShoulder.x > half && p.leftShoulder.x < half)
  {
  }

  // ---- hands joined ----

  datatype Hands = HandsJoined | HandsNotJoined

  /** `check_hands_joined`, given the wrist distance of a detected pose. */
  function CheckHandsJoined(wristDistance: Option<real>, cfg: Config): (r: Option<Hands>)
    ensures r.None? <==> wristDistance.None?
    ensures wristDistance.Some? ==>
              (r == Some(HandsJoined) <==> wristDistance.value < cfg.distanceThresholdHandsJoined)
  {
    match wristDistance
    case None => None
    case Some(d) => if d < cfg.distanceThresholdHandsJoined then Some(HandsJoined) else Some(HandsNotJoined)
  }

  /** `calculate_distance` is the square root of the squared wrist offset;
      against a non-negative threshold the verdict can be read off the
      squares without taking the root. */
  lemma HandsJoinedBySquares(d: real, dx: int, dy: int, cfg: Config)
    requires d >= 0.0 && d * d == (dx * dx + dy * dy) as real
    requires cfg.distanceThresholdHandsJoined >= 0.0
    ensures CheckHandsJoined(Some(d), cfg) == Some(HandsJoined)
            <==> ((dx * dx + dy * dy) as real) < cfg.distanceThresholdHandsJoined * cfg.distanceThresholdHandsJoined
  {
    var t := cfg.distanceThresholdHandsJoined;
    var sq := (dx * dx + dy * dy) as real;
    if d < t {
      SquareStrictlyMonotone(d, t);
      assert sq < t * t;
    } else {
      SquareMonotone(t, d);
      assert !(sq < t * t);
    }
  }

  lemma SquareStrictlyMonotone(a: real, b: real)
    requires 0.0 <= a < b
    ensures a * a < b * b
  {
    assert b * b - a * a == (b - a) * (b + a);
    ProductPositive(b - a, b + a);
  }

  lemma ProductPositive(x: real, y: real)
    requires x > 0.0 && y > 0.0
    ensures x * y > 0.0
  {
  }

  lemma SquareMonotone(a: real, b: real)
    requires 0.0 <= a <= b
    ensures a * a <= b * b
  {
    assert a * a <= a * b by {
      assert a * b - a * a == a * (b - a);
    }
    assert a * b <= b * b by {
      assert b * b - a * b == (b - a) * b;
    }
  }

  // ---- guide lines ----

  /** The three lines drawn over the frame: the vertical centre line and
      the lower and upper horizontal bounds. */
  datatype GuideLines = GuideLines(verticalX: int, lowerY: int, upperY: int)

  /** `draw_horizontal_and_vertical_lines`, without the drawing. */
  function DrawGuideLines(frameWidth: nat, centerY: int, cfg: Config): (g: GuideLines)
    ensures 2 * g.verticalX <= frameWidth < 2 * g.verticalX + 2
    ensures g.lowerY - centerY == cfg.lowerBoundLineThreshold
    ensures centerY - g.upperY == cfg.upperBoundLineThreshold
  {
    GuideLines(HalfFloor(frameWidth), LowerBound(centerY, cfg), UpperBound(centerY, cfg))
  }

  /** The lines the player sees are the lines the classifiers use: Up means
      the midpoint is above the drawn upper line, Down below the drawn
      lower line, and Left/Right/Center are read against the drawn
      vertical line. */
  lemma GuideLinesMatchClassifiers(p: Pose, frameWidth: nat, centerY: int, cfg: Config)
    ensures var g := DrawGuideLines(frameWidth, centerY, cfg);
            var mid := HalfFloor(p.leftShoulder.y + p.rightShoulder.y);
            (CheckUpDown(Some(p), centerY, cfg) == Some(Up) <==> mid < g.upperY)
            && (CheckUpDown(Some(p), centerY, cfg) == Some(Down) <==> g.upperY <= mid && g.lowerY < mid)
            && (CheckLeftRight(Some(p), frameWidth) == Some(Center)
                <==> p.rightShoulder.x < g.verticalX < p.leftShoulder.x)
            && (CheckLeftRight(Some(p), frameWidth) == Some(Right)
                <==> g.verticalX < p.rightShoulder.x && g.verticalX < p.leftShoulder.x)
            && (CheckLeftRight(Some(p), frameWidth) == Some(Left)
                <==> p.rightShoulder.x < g.verticalX && p.leftShoulder.x < g.verticalX)
  {
  }
}
