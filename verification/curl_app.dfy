/**
 The per-frame decisions of the webcam controller (app.py): the
 start-game latch, the two arm-curl stage machines with their rep
 counters, the distance feedback, the jump/sit classification of the nose
 height, and the edge-triggered key press. The joint angles, the shoulder
 distance and the nose height are inputs: computing them takes MediaPipe,
 `arctan2` and a vector norm.
 */
module CurlApp {
  import opened Wrappers

  // ---- start latch ----

  /** Both elbows must be at most this many degrees to start. */
  const StartAngle: real := 25.0

  /** The start-game latch: set once both angles are small, never reset. */
  function LatchStart(started: bool, leftAngle: real, rightAngle: real): (s: bool)
    ensures s <==> started || (leftAngle <= StartAngle && rightAngle <= StartAngle)
  {
    if !started then !(leftAngle > StartAngle || rightAngle > StartAngle) else started
  }

  // ---- curl stages ----

  /** An arm's stage; `NoStage` is the initial `None`. */
  datatype Stage = NoStage | StageDown | StageUp

  datatype Arm = Arm(stage: Stage, counter: nat)

  const InitialArm: Arm := Arm(NoStage, 0)

  /** Above this angle the arm is extended ("down"). */
  const DownAngle: real := 70.0

  datatype Side = LeftArm | RightArm

  /** Below this angle a curl is complete; the two arms differ. */
  function UpAngle(side: Side): (a: real)
    ensures a < DownAngle
  {
    match side
    case LeftArm => 30.0
    case RightArm => 25.0
  }

  /** One frame of an arm's curl logic: an extended arm goes down; a bent
      arm that was down goes up and counts a rep. */
  function CurlStep(arm: Arm, angle: real, side: Side): (r: Arm)
    ensures angle > DownAngle ==> r == Arm(StageDown, arm.counter)
    ensures angle < UpAngle(side) && arm.stage == StageDown ==> r == Arm(StageUp, arm.counter + 1)
    ensures !(angle > DownAngle) && !(angle < UpAngle(side) && arm.stage == StageDown) ==> r == arm
  {
    var a := if angle > DownAngle then arm.(stage := StageDown) else arm;
    if angle < UpAngle(side) && a.stage == StageDown then Arm(StageUp, a.counter + 1) else a
  }

  /** A rep is counted exactly on a down-to-up transition. */
  lemma CurlCountsTransitions(arm: Arm, angle: real, side: Side)
    ensures var r := CurlStep(arm, angle, side);
            (r.counter == arm.counter + 1 <==> arm.stage == StageDown && r.stage == StageUp)
            && (r.counter == arm.counter || r.counter == arm.counter + 1)
  {
  }

  /** Runs the curl logic over the angles of successive frames. */
  function CurlRun(arm: Arm, angles: seq<real>, side: Side): Arm
    decreases |angles|
  {
    if angles == [] then arm else CurlRun(CurlStep(arm, angles[0], side), angles[1..], side)
  }

  /** Frames in which the arm was extended. */
  function Extensions(angles: seq<real>): nat
    decreases |angles|
  {
    if angles == [] then 0 else (if angles[0] > DownAngle then 1 else 0) + Extensions(angles[1..])
  }

  /** Reps counted plus a pending "down", which one more curl can spend. */
  function Credit(arm: Arm): nat
  {
    arm.counter + if arm.stage == StageDown then 1 else 0
  }

  /** The counter never decreases, grows by at most one per frame, and
      every rep needs its own extension: reps counted over a run are at
      most the frames with the arm extended (plus one if it started down). */
  lemma {:induction false} CurlRunBounds(arm: Arm, angles: seq<real>, side: Side)
    ensures arm.counter <= CurlRun(arm, angles, side).counter <= arm.counter + |angles|
    ensures Credit(CurlRun(arm, angles, side)) <= Credit(arm) + Extensions(angles)
    decreases |angles|
  {
    if angles != [] {
      var a1 := CurlStep(arm, angles[0], side);
      assert Credit(a1) <= Credit(arm) + (if angles[0] > DownAngle then 1 else 0);
      CurlRunBounds(a1, angles[1..], side);
    }
  }

  // ---- distance feedback ----

  /** Calibrated shoulder distance at one metre from the camera. */
  const BaselineShoulderDistance: real := 0.25

  datatype Feedback = TooClose | TooFar | GoodDistance

  /** Scale against the baseline: above 1.1 is too close, below 1 too far. */
  function DistanceFeedback(shoulderDistance: real): (f: Feedback)
    ensures f == TooClose <==> shoulderDistance > 0.275
    ensures f == TooFar <==> shoulderDistance < 0.25
    ensures f == GoodDistance <==> 0.25 <= shoulderDistance <= 0.275
  {
    var scale := shoulderDistance / BaselineShoulderDistance;
    if scale > 1.1 then TooClose else if scale < 1.0 then TooFar else GoodDistance
  }

  // ---- vertical status ----

  datatype VStatus = Jump | Sit | Stand

  /** The nose must rise above this height (pixels from the top) to jump. */
  function JumpLine(frameHeight: nat): (y: int)
    ensures 5 * (y + 30) <= 2 * frameHeight < 5 * (y + 30) + 5
  {
    (2 * frameHeight) / 5 - 30
  }

  /** The nose must drop below this height to sit. */
  function SitLine(frameHeight: nat): (y: int)
    ensures 3 * (y + 30) <= 2 * frameHeight < 3 * (y + 30) + 3
  {
    (2 * frameHeight) / 3 - 30
  }

  /** The jump line is never below the sit line, so the three bands are in
      screen order. */
  lemma JumpLineAboveSitLine(frameHeight: nat)
    ensures JumpLine(frameHeight) <= SitLine(frameHeight)
  {
    var j := JumpLine(frameHeight) + 30;
    var s := SitLine(frameHeight) + 30;
    assert 5 * j <= 2 * frameHeight < 3 * s + 3;
  }

  function VerticalStatus(yNose: real, frameHeight: nat): (v: VStatus)
    ensures v == Jump <==> yNose < JumpLine(frameHeight) as real
    ensures v == Sit <==> JumpLine(frameHeight) as real <= yNose && yNose > SitLine(frameHeight) as real
    ensures v == Stand <==> JumpLine(frameHeight) as real <= yNose <= SitLine(frameHeight) as real
  {
    if yNose < JumpLine(frameHeight) as real then Jump
    else if yNose > SitLine(frameHeight) as real then Sit
    else Stand
  }

  function StatusRank(v: VStatus): nat
  {
    match v
    case Jump => 0
    case Stand => 1
    case Sit => 2
  }

  /** A lower nose never reads as higher. */
  lemma VerticalStatusMonotone(y1: real, y2: real, frameHeight: nat)
    requires y1 <= y2
    ensures StatusRank(VerticalStatus(y1, frameHeight)) <= StatusRank(VerticalStatus(y2, frameHeight))
  {
    JumpLineAboveSitLine(frameHeight);
  }

  // ---- key press ----

  /** The keys the controller presses. */
  datatype Key = ArrowUp | ArrowDown

  datatype Pressed = Pressed(prev: Option<VStatus>, press: Option<Key>)

  /** Acts only when the status differs from the last one acted on: Jump
      presses up and Sit presses down, once the game has started and while
      it is not stopped. */
  function PressStep(prev: Option<VStatus>, status: VStatus, startGame: bool, gameStop: bool): (p: Pressed)
    ensures p.prev == Some(status)
    ensures p.press == Some(ArrowUp) <==> prev != Some(Jump) && status == Jump && startGame && !gameStop
    ensures p.press == Some(ArrowDown) <==> prev != Some(Sit) && status == Sit && startGame && !gameStop
  {
    if Some(status) != prev then
      var key := if status == Jump then Some(ArrowUp) else if status == Sit then Some(ArrowDown) else None;
      Pressed(Some(status), if startGame && !gameStop then key else None)
    else Pressed(prev, None)
  }

  /** Presses over a run of statuses with the game running. */
  function PressCount(prev: Option<VStatus>, statuses: seq<VStatus>, startGame: bool, gameStop: bool): nat
    decreases |statuses|
  {
    if statuses == [] then 0
    else
      var p := PressStep(prev, statuses[0], startGame, gameStop);
      (if p.press.Some? then 1 else 0) + PressCount(p.prev, statuses[1..], startGame, gameStop)
  }

  /** Holding one status for any number of frames presses at most once,
      and not at all if it was already the last status acted on. */
  lemma {:induction false} SteadyStatusPressesOnce(prev: Option<VStatus>, s: VStatus, statuses: seq<VStatus>,
                                                   startGame: bool, gameStop: bool)
    requires forall i :: 0 <= i < |statuses| ==> statuses[i] == s
    ensures PressCount(prev, statuses, startGame, gameStop) <= 1
    ensures prev == Some(s) ==> PressCount(prev, statuses, startGame, gameStop) == 0
    decreases |statuses|
  {
    if statuses != [] {
      var p := PressStep(prev, statuses[0], startGame, gameStop);
      assert p.prev == Some(s);
      SteadyStatusPressesOnce(p.prev, s, statuses[1..], startGame, gameStop);
    }
  }

  // ---- the whole frame ----

  /** What the pose model measured in a frame. */
  datatype Measures = Measures(leftAngle: real, rightAngle: real, shoulderDistance: real, yNose: real)

  datatype App = App(startGame: bool, gameStop: bool, left: Arm, right: Arm, prevStatus: Option<VStatus>)

  /** `App()` and the variables `run` sets before its loop. */
  const InitialApp: App := App(false, false, InitialArm, InitialArm, None)

  datatype FrameOut = FrameOut(feedback: Feedback, status: VStatus, press: Option<Key>)

  datatype Stepped = Stepped(app: App, out: Option<FrameOut>)

  /** One pass of the capture loop. A frame without a detected pose changes
      nothing and produces nothing. */
  function Step(app: App, frame: Option<Measures>, frameHeight: nat): (s: Stepped)
    ensures frame.None? ==> s == Stepped(app, None)
    ensures frame.Some? ==>
              var m := frame.value;
              s.app.startGame == LatchStart(app.startGame, m.leftAngle, m.rightAngle)
              && s.app.left == CurlStep(app.left, m.leftAngle, LeftArm)
              && s.app.right == CurlStep(app.right, m.rightAngle, RightArm)
              && s.app.gameStop == app.gameStop
              && s.out.Some?
              && s.out.value.feedback == DistanceFeedback(m.shoulderDistance)
              && s.out.value.status == VerticalStatus(m.yNose, frameHeight)
              && s.out.value.press == PressStep(app.prevStatus, s.out.value.status, s.app.startGame, app.gameStop).press
              && s.app.prevStatus == Some(s.out.value.status)
  {
    match frame
    case None => Stepped(app, None)
    case Some(m) =>
      var started := LatchStart(app.startGame, m.leftAngle, m.rightAngle);
      var status := VerticalStatus(m.yNose, frameHeight);
      var p := PressStep(app.prevStatus, status, started, app.gameStop);
      Stepped(
        App(started, app.gameStop,
            CurlStep(app.left, m.leftAngle, LeftArm),
            CurlStep(app.right, m.rightAngle, RightArm),
            p.prev),
        Some(FrameOut(DistanceFeedback(m.shoulderDistance), status, p.press)))
  }

  /** Runs the loop over successive frames. */
  function Run(app: App, frames: seq<Option<Measures>>, frameHeight: nat): App
    decreases |frames|
  {
    if frames == [] then app else Run(Step(app, frames[0], frameHeight).app, frames[1..], frameHeight)
  }

  /** Over any run: a started game stays started, the stop flag is never
      raised, and both counters only grow, by at most one per frame. */
  lemma {:induction false} RunMonotone(app: App, frames: seq<Option<Measures>>, frameHeight: nat)
    ensures app.startGame ==> Run(app, frames, frameHeight).startGame
    ensures Run(app, frames, frameHeight).gameStop == app.gameStop
    ensures app.left.counter <= Run(app, frames, frameHeight).left.counter <= app.left.counter + |frames|
    ensures app.right.counter <= Run(app, frames, frameHeight).right.counter <= app.right.counter + |frames|
    decreases |frames|
  {
    if frames != [] {
      var a1 := Step(app, frames[0], frameHeight).app;
      if frames[0].Some? {
        CurlCountsTransitions(app.left, frames[0].value.leftAngle, LeftArm);
        CurlCountsTransitions(app.right, frames[0].value.rightAngle, RightArm);
      }
      RunMonotone(a1, frames[1..], frameHeight);
    }
  }

  /** No key is ever pressed before the start pose has been held. */
  lemma NoPressBeforeStart(app: App, m: Measures, frameHeight: nat)
    requires !app.startGame
    requires m.leftAngle > StartAngle || m.rightAngle > StartAngle
    ensures Step(app, Some(m), frameHeight).out.value.press.None?
    ensures !Step(app, Some(m), frameHeight).app.startGame
  {
  }
}
