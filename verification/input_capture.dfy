/**
 The movement-direction recorder (InputCapture.cs). For the first
 `bufferDuration` minutes after start, every frame whose direction is not
 (approximately) zero is appended with its time since start; once that
 window has passed, each frame removes the oldest entry and records
 nothing, so the buffer drains away.
 */
module InputCapture {

  /** Unity's `Vector2`. */
  datatype Vec2 = Vec2(x: real, y: real)

  /** Unity compares vectors approximately: two vectors are equal when the
      squared length of their difference is below 1e-5 squared. */
  const Epsilon: real := 0.00001

  predicate IsZero(v: Vec2)
  {
    v.x * v.x + v.y * v.y < Epsilon * Epsilon
  }

  /** One captured entry. */
  datatype InputData = InputData(time: real, direction: Vec2)

  datatype Capture = Capture(bufferTime: real, startTime: real, buffer: seq<InputData>)

  /** `Start`: the window, converted from minutes to seconds, and the
      start time. */
  function Start(bufferDurationMinutes: real, now: real): (c: Capture)
    ensures c.bufferTime / 60.0 == bufferDurationMinutes
    ensures c.startTime == now && c.buffer == []
  {
    Capture(bufferDurationMinutes * 60.0, now, [])
  }

  /** Whether the recording window is still open at `now`. */
  predicate Recording(c: Capture, now: real)
  {
    now - c.startTime < c.bufferTime
  }

  /** `CaptureInput` for one frame with the given axis direction. */
  function CaptureInput(c: Capture, now: real, direction: Vec2): (c': Capture)
    ensures c'.bufferTime == c.bufferTime && c'.startTime == c.startTime
    ensures Recording(c, now) && !IsZero(direction) ==>
              c'.buffer == c.buffer + [InputData(now - c.startTime, direction)]
    ensures Recording(c, now) && IsZero(direction) ==> c'.buffer == c.buffer
    ensures !Recording(c, now) ==> c'.buffer == if c.buffer == [] then [] else c.buffer[1..]
  {
    if Recording(c, now) then
      if !IsZero(direction) then c.(buffer := c.buffer + [InputData(now - c.startTime, direction)])
      else c
    else if |c.buffer| > 0 then c.(buffer := c.buffer[1..])
    else c
  }

  /** `GetInputBuffer`. */
  function GetInputBuffer(c: Capture): seq<InputData>
  {
    c.buffer
  }

  /** Every entry was recorded inside the window. */
  predicate InsideWindow(c: Capture)
  {
    forall i :: 0 <= i < |c.buffer| ==> c.buffer[i].time < c.bufferTime
  }

  /** The window bound holds from the start and every frame keeps it. */
  lemma StartInsideWindow(bufferDurationMinutes: real, now: real)
    ensures InsideWindow(Start(bufferDurationMinutes, now))
  {
  }

  lemma CaptureKeepsInsideWindow(c: Capture, now: real, direction: Vec2)
    requires InsideWindow(c)
    ensures InsideWindow(CaptureInput(c, now, direction))
    ensures forall i :: 0 <= i < |GetInputBuffer(CaptureInput(c, now, direction))| ==>
              GetInputBuffer(CaptureInput(c, now, direction))[i].time < c.bufferTime
  {
    var c' := CaptureInput(c, now, direction);
    if !Recording(c, now) && c.buffer != [] {
      forall i | 0 <= i < |c'.buffer| ensures c'.buffer[i].time < c'.bufferTime {
        assert c'.buffer[i] == c.buffer[i + 1];
      }
    }
  }

  /** Entries are in the order they were captured. */
  predicate TimesAscending(c: Capture)
  {
    forall i, j :: 0 <= i < j < |c.buffer| ==> c.buffer[i].time <= c.buffer[j].time
  }

  /** On a clock that does not run backwards, the buffer stays in capture
      order. */
  lemma CaptureKeepsOrder(c: Capture, now: real, direction: Vec2)
    requires TimesAscending(c)
    requires forall i :: 0 <= i < |c.buffer| ==> c.buffer[i].time <= now - c.startTime
    ensures TimesAscending(CaptureInput(c, now, direction))
  {
    var c' := CaptureInput(c, now, direction);
    if !Recording(c, now) && c.buffer != [] {
      forall i, j | 0 <= i < j < |c'.buffer| ensures c'.buffer[i].time <= c'.buffer[j].time {
        assert c'.buffer[i] == c.buffer[i + 1] && c'.buffer[j] == c.buffer[j + 1];
      }
    } else if Recording(c, now) && !IsZero(direction) {
      forall i, j | 0 <= i < j < |c'.buffer| ensures c'.buffer[i].time <= c'.buffer[j].time {
        assert c'.buffer[i] == c.buffer[i];
        if j < |c.buffer| {
          assert c'.buffer[j] == c.buffer[j];
        }
      }
    }
  }

  /** After the window, a frame never appends and removes at most the
      oldest entry. */
  lemma ExpiredShrinks(c: Capture, now: real, direction: Vec2)
    requires !Recording(c, now)
    ensures |CaptureInput(c, now, direction).buffer| == if |c.buffer| == 0 then 0 else |c.buffer| - 1
    ensures forall i :: 0 <= i < |CaptureInput(c, now, direction).buffer| ==>
              CaptureInput(c, now, direction).buffer[i] == c.buffer[i + 1]
  {
  }

  /** Runs `CaptureInput` once per frame, at `clock(0)`, `clock(1)`, .... */
  function Run(c: Capture, clock: seq<real>, directions: seq<Vec2>): Capture
    requires |clock| == |directions|
    decreases |clock|
  {
    if clock == [] then c
    else Run(CaptureInput(c, clock[0], directions[0]), clock[1..], directions[1..])
  }

  /** `k` frames after the window has closed leave the buffer without its
      `k` oldest entries (or empty). */
  lemma {:induction false} ExpiredDrains(c: Capture, clock: seq<real>, directions: seq<Vec2>)
    requires |clock| == |directions|
    requires forall i :: 0 <= i < |clock| ==> !Recording(c, clock[i])
    ensures Run(c, clock, directions).buffer
         == c.buffer[if |clock| < |c.buffer| then |clock| else |c.buffer|..]
    ensures Run(c, clock, directions).bufferTime == c.bufferTime
    ensures Run(c, clock, directions).startTime == c.startTime
    decreases |clock|
  {
    if clock != [] {
      var c1 := CaptureInput(c, clock[0], directions[0]);
      assert forall i :: 0 <= i < |clock[1..]| ==> !Recording(c1, clock[1..][i]) by {
        forall i | 0 <= i < |clock[1..]| ensures !Recording(c1, clock[1..][i]) {
          assert clock[1..][i] == clock[i + 1];
        }
      }
      ExpiredDrains(c1, clock[1..], directions[1..]);
      if c.buffer != [] {
        assert c1.buffer == c.buffer[1..];
        var n := if |clock| - 1 < |c1.buffer| then |clock| - 1 else |c1.buffer|;
        assert c1.buffer[n..] == c.buffer[n + 1..];
      }
    }
  }

  /** The entries a run of frames contributes while the window is open:
      one per frame whose direction is not zero, in frame order. */
  function Captured(startTime: real, clock: seq<real>, directions: seq<Vec2>): seq<InputData>
    requires |clock| == |directions|
    decreases |clock|
  {
    if clock == [] then []
    else (if IsZero(directions[0]) then [] else [InputData(clock[0] - startTime, directions[0])])
         + Captured(startTime, clock[1..], directions[1..])
  }

  /** Inside the window, a run of frames appends exactly the non-zero
      directions, stamped relative to the start, and drops nothing. */
  lemma {:induction false} RecordingCollects(c: Capture, clock: seq<real>, directions: seq<Vec2>)
    requires |clock| == |directions|
    requires forall i :: 0 <= i < |clock| ==> Recording(c, clock[i])
    ensures Run(c, clock, directions).buffer == c.buffer + Captured(c.startTime, clock, directions)
    decreases |clock|
  {
    if clock != [] {
      var c1 := CaptureInput(c, clock[0], directions[0]);
      assert forall i :: 0 <= i < |clock[1..]| ==> Recording(c1, clock[1..][i]) by {
        forall i | 0 <= i < |clock[1..]| ensures Recording(c1, clock[1..][i]) {
          assert clock[1..][i] == clock[i + 1];
        }
      }
      RecordingCollects(c1, clock[1..], directions[1..]);
      var head := if IsZero(directions[0]) then [] else [InputData(clock[0] - c.startTime, directions[0])];
      assert c1.buffer == c.buffer + head;
      assert Captured(c.startTime, clock, directions) == head + Captured(c.startTime, clock[1..], directions[1..]);
      assert (c.buffer + head) + Captured(c.startTime, clock[1..], directions[1..])
          == c.buffer + (head + Captured(c.startTime, clock[1..], directions[1..]));
    }
  }
}
