/**
 The generic key and axis recorder (ReplaySystem.cs). Each frame that is
 not replaying prunes events older than the window, then appends at most
 one event per polled key (key-down preferred) in the order D, A, S, W, I,
 U, K, J, followed by the Horizontal and Vertical axes when they are away
 from rest. R toggles a replay, which dequeues the events as their time
 comes due. Replayed events have no effect on game state here: the script
 only logs them and starts an empty coroutine, so playback is modelled by
 the list of events it dispatches.
 */
module KeyReplay {
  import opened UnityInput
  import TimeWindow

  /** One recorded input: a key transition or an axis reading. */
  datatype ReplayEvent = ReplayEvent(
    time: real,
    keyCode: KeyCode,
    isKeyDown: bool,
    axisName: string,
    axisValue: real,
    isAxisInput: bool)

  function EventTime(e: ReplayEvent): real { e.time }

  /** The key constructor: no axis part. */
  function KeyEvent(t: real, key: KeyCode, isDown: bool): (e: ReplayEvent)
    ensures e.time == t && e.keyCode == key && e.isKeyDown == isDown
    ensures !e.isAxisInput && e.axisName == "" && e.axisValue == 0.0
  {
    ReplayEvent(t, key, isDown, "", 0.0, false)
  }

  /** The axis constructor: no key part. */
  function AxisEvent(t: real, axis: string, value: real): (e: ReplayEvent)
    ensures e.time == t && e.axisName == axis && e.axisValue == value
    ensures e.isAxisInput && e.keyCode == NoKey && !e.isKeyDown
  {
    ReplayEvent(t, NoKey, false, axis, value, true)
  }

  /** Which of the two constructors built an event. */
  predicate IsKeyEvent(e: ReplayEvent)
  {
    e == KeyEvent(e.time, e.keyCode, e.isKeyDown)
  }

  predicate IsAxisEvent(e: ReplayEvent)
  {
    e == AxisEvent(e.time, e.axisName, e.axisValue)
  }

  /** No event is built by both constructors, and each constructor's
      fields can be read back from the event it builds. */
  lemma ConstructorsDisjoint(t: real, key: KeyCode, isDown: bool, t2: real, axis: string, value: real)
    ensures IsKeyEvent(KeyEvent(t, key, isDown)) && !IsAxisEvent(KeyEvent(t, key, isDown))
    ensures IsAxisEvent(AxisEvent(t2, axis, value)) && !IsKeyEvent(AxisEvent(t2, axis, value))
    ensures KeyEvent(t, key, isDown) != AxisEvent(t2, axis, value)
  {
  }

  /** The keys polled each frame, in order. */
  const RecordedKeys: seq<KeyCode> := [KeyD, KeyA, KeyS, KeyW, KeyI, KeyU, KeyK, KeyJ]

  /** The input of one frame: the key poll and the two axis readings. */
  datatype Frame = Frame(keys: KeyPoll, horizontal: real, vertical: real)

  /** `Mathf.Abs`. */
  function Abs(x: real): (a: real)
    ensures a >= 0.0 && (a == x || a == -x)
  {
    if x < 0.0 then -x else x
  }

  /** Axis readings at or below this magnitude are treated as rest. */
  const AxisDeadZone: real := 0.01

  /** `CheckAndRecordKey`: one event at most, key-down taking precedence
      over key-up. */
  function CheckAndRecordKey(poll: KeyPoll, key: KeyCode, t: real): (r: seq<ReplayEvent>)
    ensures |r| <= 1
    ensures |r| == 1 <==> key in poll.down || key in poll.up
    ensures |r| == 1 ==> r[0] == KeyEvent(t, key, key in poll.down)
  {
    if key in poll.down then [KeyEvent(t, key, true)]
    else if key in poll.up then [KeyEvent(t, key, false)]
    else []
  }

  /** `RecordAxisInput`: an axis event only when the reading is away from
      rest. */
  function RecordAxisInput(axis: string, value: real, t: real): (r: seq<ReplayEvent>)
    ensures |r| <= 1
    ensures |r| == 1 <==> value > AxisDeadZone || value < -AxisDeadZone
    ensures |r| == 1 ==> r[0] == AxisEvent(t, axis, value)
  {
    if Abs(value) > AxisDeadZone then [AxisEvent(t, axis, value)] else []
  }

  /** The key part of a frame, polling `keys` in order. */
  function RecordKeys(poll: KeyPoll, keys: seq<KeyCode>, t: real): (r: seq<ReplayEvent>)
    ensures |r| <= |keys|
    ensures forall i :: 0 <= i < |r| ==> r[i].time == t && IsKeyEvent(r[i])
    decreases |keys|
  {
    if keys == [] then [] else CheckAndRecordKey(poll, keys[0], t) + RecordKeys(poll, keys[1..], t)
  }

  /** True when `keys` lists keys in polling order, none twice. */
  predicate KeysInPollOrder(keys: seq<KeyCode>)
  {
    forall i, j :: 0 <= i < j < |keys| ==> KeyRank(keys[i]) < KeyRank(keys[j])
  }

  predicate EventsInPollOrder(r: seq<ReplayEvent>)
  {
    forall i, j :: 0 <= i < j < |r| ==> KeyRank(r[i].keyCode) < KeyRank(r[j].keyCode)
  }

  lemma RecordedKeysInPollOrder()
    ensures KeysInPollOrder(RecordedKeys)
  {
  }

  lemma KeysInPollOrderTail(keys: seq<KeyCode>)
    requires KeysInPollOrder(keys) && keys != []
    ensures KeysInPollOrder(keys[1..])
    ensures forall i :: 0 <= i < |keys[1..]| ==> KeyRank(keys[0]) < KeyRank(keys[1..][i])
  {
    forall i, j | 0 <= i < j < |keys[1..]|
      ensures KeyRank(keys[1..][i]) < KeyRank(keys[1..][j])
    {
      assert keys[1..][i] == keys[i + 1] && keys[1..][j] == keys[j + 1];
    }
    forall i | 0 <= i < |keys[1..]| ensures KeyRank(keys[0]) < KeyRank(keys[1..][i]) {
      assert keys[1..][i] == keys[i + 1];
    }
  }

  /** Every key event of a frame is for a polled key that went down or up,
      with key-down preferred. */
  lemma {:induction false} RecordKeysSound(poll: KeyPoll, keys: seq<KeyCode>, t: real)
    ensures forall e :: e in RecordKeys(poll, keys, t) ==>
              e.keyCode in keys && e == KeyEvent(t, e.keyCode, e.keyCode in poll.down)
              && (e.keyCode in poll.down || e.keyCode in poll.up)
    decreases |keys|
  {
    if keys != [] {
      var head := CheckAndRecordKey(poll, keys[0], t);
      var rest := RecordKeys(poll, keys[1..], t);
      RecordKeysSound(poll, keys[1..], t);
      forall e: ReplayEvent | e in head + rest
        ensures e.keyCode in keys && e == KeyEvent(t, e.keyCode, e.keyCode in poll.down)
                && (e.keyCode in poll.down || e.keyCode in poll.up)
      {
        if e !in head {
          assert e.keyCode in keys[1..];
        }
      }
    }
  }

  /** Every polled key that went down or up has its event. */
  lemma {:induction false} RecordKeysComplete(poll: KeyPoll, keys: seq<KeyCode>, t: real)
    ensures forall k :: k in keys && (k in poll.down || k in poll.up) ==>
              KeyEvent(t, k, k in poll.down) in RecordKeys(poll, keys, t)
    decreases |keys|
  {
    if keys != [] {
      RecordKeysComplete(poll, keys[1..], t);
      forall k | k in keys && (k in poll.down || k in poll.up)
        ensures KeyEvent(t, k, k in poll.down) in RecordKeys(poll, keys, t)
      {
        if k != keys[0] {
          assert k in keys[1..];
        }
      }
    }
  }

  /** No event of `r` is for a key ranked below `k`. */
  predicate EventRanksAtLeast(r: seq<ReplayEvent>, k: int)
  {
    forall i :: 0 <= i < |r| ==> KeyRank(r[i].keyCode) >= k
  }

  /** Keys polled in order give events in order, none ranked below the
      first key polled. */
  lemma {:induction false} RecordKeysOrdered(poll: KeyPoll, keys: seq<KeyCode>, t: real)
    requires KeysInPollOrder(keys)
    ensures EventsInPollOrder(RecordKeys(poll, keys, t))
    ensures keys != [] ==> EventRanksAtLeast(RecordKeys(poll, keys, t), KeyRank(keys[0]))
    decreases |keys|
  {
    if keys != [] {
      var head := CheckAndRecordKey(poll, keys[0], t);
      var rest := RecordKeys(poll, keys[1..], t);
      var r := RecordKeys(poll, keys, t);
      assert r == head + rest;
      KeysInPollOrderTail(keys);
      RecordKeysOrdered(poll, keys[1..], t);
      assert EventRanksAtLeast(rest, KeyRank(keys[0]) + 1) by {
        if keys[1..] != [] {
          assert KeyRank(keys[0]) < KeyRank(keys[1..][0]);
        }
      }
      forall i, j | 0 <= i < j < |r| ensures KeyRank(r[i].keyCode) < KeyRank(r[j].keyCode) {
        assert r[j] == rest[j - |head|];
        if i >= |head| {
          assert r[i] == rest[i - |head|];
        }
      }
      forall i | 0 <= i < |r| ensures KeyRank(r[i].keyCode) >= KeyRank(keys[0]) {
        if i >= |head| {
          assert r[i] == rest[i - |head|];
        }
      }
    }
  }

  /** Every key event of a frame is for a key that was polled and moved,
      with key-down preferred; every polled key that moved has its event;
      and the events come out in polling order, so no key appears twice. */
  lemma RecordKeysExact(poll: KeyPoll, keys: seq<KeyCode>, t: real)
    requires KeysInPollOrder(keys)
    ensures EventsInPollOrder(RecordKeys(poll, keys, t))
    ensures forall e :: e in RecordKeys(poll, keys, t) ==>
              e.keyCode in keys && e == KeyEvent(t, e.keyCode, e.keyCode in poll.down)
              && (e.keyCode in poll.down || e.keyCode in poll.up)
    ensures forall k :: k in keys && (k in poll.down || k in poll.up) ==>
              KeyEvent(t, k, k in poll.down) in RecordKeys(poll, keys, t)
  {
    RecordKeysOrdered(poll, keys, t);
    RecordKeysSound(poll, keys, t);
    RecordKeysComplete(poll, keys, t);
  }

  /** The events of one frame: keys first, then Horizontal, then Vertical. */
  function FrameEvents(frame: Frame, t: real): seq<ReplayEvent>
  {
    RecordKeys(frame.keys, RecordedKeys, t)
    + RecordAxisInput("Horizontal", frame.horizontal, t)
    + RecordAxisInput("Vertical", frame.vertical, t)
  }

  /** Key events followed by axis events, all stamped `t`. */
  lemma KeysThenAxes(ks: seq<ReplayEvent>, axes: seq<ReplayEvent>, t: real)
    requires forall i :: 0 <= i < |ks| ==> ks[i].time == t && IsKeyEvent(ks[i])
    requires forall i :: 0 <= i < |axes| ==> axes[i].time == t && axes[i].isAxisInput
    ensures forall i :: 0 <= i < |ks + axes| ==> (ks + axes)[i].time == t
    ensures forall i :: 0 <= i < |ks| ==> IsKeyEvent((ks + axes)[i])
    ensures forall i :: |ks| <= i < |ks + axes| ==> (ks + axes)[i].isAxisInput
  {
    forall i | |ks| <= i < |ks + axes| ensures (ks + axes)[i].isAxisInput && (ks + axes)[i].time == t {
      assert (ks + axes)[i] == axes[i - |ks|];
    }
  }

  /** The axis part of a frame: at most two events, both axis events
      stamped `t`. */
  lemma AxesShape(frame: Frame, t: real)
    ensures var axes := RecordAxisInput("Horizontal", frame.horizontal, t)
                        + RecordAxisInput("Vertical", frame.vertical, t);
            |axes| <= 2 && forall i :: 0 <= i < |axes| ==> axes[i].time == t && axes[i].isAxisInput
  {
    var h: seq<ReplayEvent> := RecordAxisInput("Horizontal", frame.horizontal, t);
    var v: seq<ReplayEvent> := RecordAxisInput("Vertical", frame.vertical, t);
    forall i | 0 <= i < |h + v| ensures (h + v)[i].time == t && (h + v)[i].isAxisInput {
      if i < |h| {
        assert (h + v)[i] == h[i];
      } else {
        assert (h + v)[i] == v[i - |h|];
      }
    }
  }

  /** The key events of a frame polled over `keys`, then its axis events:
      all stamped `t`, at most two more than there are keys. */
  lemma KeysThenAxesShape(frame: Frame, keys: seq<KeyCode>, t: real)
    ensures var ks := RecordKeys(frame.keys, keys, t);
            var r := ks + RecordAxisInput("Horizontal", frame.horizontal, t)
                     + RecordAxisInput("Vertical", frame.vertical, t);
            |r| <= |keys| + 2
            && (forall i :: 0 <= i < |r| ==> r[i].time == t)
            && (forall i :: 0 <= i < |ks| ==> IsKeyEvent(r[i]))
            && (forall i :: |ks| <= i < |r| ==> r[i].isAxisInput)
  {
    var ks := RecordKeys(frame.keys, keys, t);
    var axes: seq<ReplayEvent> := RecordAxisInput("Horizontal", frame.horizontal, t)
                                  + RecordAxisInput("Vertical", frame.vertical, t);
    assert ks + RecordAxisInput("Horizontal", frame.horizontal, t)
              + RecordAxisInput("Vertical", frame.vertical, t) == ks + axes;
    AxesShape(frame, t);
    KeysThenAxes(ks, axes, t);
  }

  /** A frame's events are its key events followed by its axis events, all
      stamped `t`; there are at most ten. */
  lemma FrameEventsShape(frame: Frame, t: real)
    ensures var r := FrameEvents(frame, t);
            |r| <= |RecordedKeys| + 2
            && (forall i :: 0 <= i < |r| ==> r[i].time == t)
    ensures var r := FrameEvents(frame, t);
            var n := |RecordKeys(frame.keys, RecordedKeys, t)|;
            (forall i :: 0 <= i < n ==> IsKeyEvent(r[i]))
            && (forall i :: n <= i < |r| ==> r[i].isAxisInput)
  {
    KeysThenAxesShape(frame, RecordedKeys, t);
  }

  datatype Recorder = Recorder(
    bufferDurationSeconds: real,
    recordingStartTime: real,
    replayStartTime: real,
    buffer: seq<ReplayEvent>,
    isReplaying: bool)

  /** `Start`: the window in seconds and the recording origin. */
  function Init(bufferDurationMinutes: real, now: real): (r: Recorder)
    ensures r.bufferDurationSeconds / 60.0 == bufferDurationMinutes
    ensures r.buffer == [] && !r.isReplaying && r.recordingStartTime == now
  {
    Recorder(bufferDurationMinutes * 60.0, now, 0.0, [], false)
  }

  /** `RecordInput`: prune, then append this frame's events stamped with the
      time since recording started. */
  function RecordInput(r: Recorder, frame: Frame, now: real): (r': Recorder)
    ensures TimeWindow.PrunedThenAppended(r.buffer, r'.buffer, FrameEvents(frame, now - r.recordingStartTime),
              EventTime, now - r.recordingStartTime, r.bufferDurationSeconds)
    ensures r'.isReplaying == r.isReplaying && r'.recordingStartTime == r.recordingStartTime
    ensures r'.replayStartTime == r.replayStartTime && r'.bufferDurationSeconds == r.bufferDurationSeconds
  {
    r.(buffer := TimeWindow.PruneAndAppend(r.buffer, FrameEvents(frame, now - r.recordingStartTime), EventTime,
                                           now - r.recordingStartTime, r.bufferDurationSeconds))
  }

  /** `StartReplay`: an empty buffer turns replaying back off; otherwise
      the replay clock starts now. */
  function StartReplay(r: Recorder, now: real): (r': Recorder)
    ensures r.buffer == [] ==> r' == r.(isReplaying := false)
    ensures r.buffer != [] ==> r' == r.(replayStartTime := now)
  {
    if r.buffer == [] then r.(isReplaying := false) else r.(replayStartTime := now)
  }

  /** `ToggleReplay`: flips replaying; `StopReplay` only logs. */
  function ToggleReplay(r: Recorder, now: real): (r': Recorder)
    ensures r'.isReplaying <==> !r.isReplaying && r.buffer != []
    ensures r'.buffer == r.buffer && r'.recordingStartTime == r.recordingStartTime
    ensures !r.isReplaying && r.buffer != [] ==> r'.replayStartTime == now
    ensures r.isReplaying ==> r'.replayStartTime == r.replayStartTime
  {
    if !r.isReplaying then StartReplay(r.(isReplaying := true), now)
    else r.(isReplaying := false)
  }

  /** Toggling twice from idle with events recorded comes back to idle
      with the buffer intact. */
  lemma ToggleTwice(r: Recorder, now: real, later: real)
    requires !r.isReplaying
    ensures ToggleReplay(ToggleReplay(r, now), later).buffer == r.buffer
    ensures !ToggleReplay(ToggleReplay(r, now), later).isReplaying
  {
  }

  /** The recorder after one frame, and the events replayed in it. */
  datatype Played = Played(recorder: Recorder, dispatched: seq<ReplayEvent>)

  /** `PlayReplay`: dequeues every leading event whose time has come on
      the replay clock, in order, and stops once the buffer is empty. */
  function PlayReplay(r: Recorder, now: real): (p: Played)
    ensures p.dispatched + p.recorder.buffer == r.buffer
    ensures forall i :: 0 <= i < |p.dispatched| ==> p.dispatched[i].time <= now - r.replayStartTime
    ensures p.recorder.buffer == [] || p.recorder.buffer[0].time > now - r.replayStartTime
    ensures p.recorder.isReplaying <==> r.isReplaying && p.recorder.buffer != []
    ensures p.recorder.recordingStartTime == r.recordingStartTime && p.recorder.replayStartTime == r.replayStartTime
    ensures p.recorder.bufferDurationSeconds == r.bufferDurationSeconds
  {
    var split := TimeWindow.DrainDue(r.buffer, EventTime, now - r.replayStartTime);
    Played(r.(buffer := split.rest, isReplaying := r.isReplaying && split.rest != []), split.due)
  }

  /** The dispatched events are exactly the longest due prefix: one more
      buffered event would not have been due. */
  lemma PlayReplayLongestPrefix(r: Recorder, now: real)
    ensures var p := PlayReplay(r, now);
            |p.dispatched| < |r.buffer| ==> r.buffer[|p.dispatched|].time > now - r.replayStartTime
  {
    var p := PlayReplay(r, now);
    if |p.dispatched| < |r.buffer| {
      assert r.buffer[|p.dispatched|] == p.recorder.buffer[0];
    }
  }

  /** `Update`: R toggles, then the frame is played back or recorded. */
  function Update(r: Recorder, frame: Frame, now: real): (p: Played)
    ensures KeyR !in frame.keys.down && !r.isReplaying ==> p == Played(RecordInput(r, frame, now), [])
    ensures KeyR !in frame.keys.down && r.isReplaying ==> p == PlayReplay(r, now)
    ensures KeyR in frame.keys.down && r.isReplaying ==>
              p == Played(RecordInput(r.(isReplaying := false), frame, now), [])
    ensures KeyR in frame.keys.down && !r.isReplaying && r.buffer == [] ==>
              p == Played(RecordInput(r, frame, now), [])
    ensures KeyR in frame.keys.down && !r.isReplaying && r.buffer != [] ==>
              p == PlayReplay(r.(isReplaying := true, replayStartTime := now), now)
  {
    var t := if KeyR in frame.keys.down then ToggleReplay(r, now) else r;
    if t.isReplaying then PlayReplay(t, now) else Played(RecordInput(t, frame, now), [])
  }

  /** Pressing R with something recorded, idle, starts a replay that
      survives its first frame whenever the last recorded event lies after
      the replay clock's zero; the frame itself is not recorded. */
  lemma RPressStartsReplay(r: Recorder, frame: Frame, now: real)
    requires KeyR in frame.keys.down && !r.isReplaying && r.buffer != []
    requires r.buffer[|r.buffer| - 1].time > 0.0
    ensures var p := Update(r, frame, now);
            p.recorder.isReplaying && p.recorder.replayStartTime == now
            && p.dispatched + p.recorder.buffer == r.buffer
  {
    var p := PlayReplay(r.(isReplaying := true, replayStartTime := now), now);
  }

  /** Pressing R during a replay always ends it and dispatches nothing. */
  lemma RPressStopsReplay(r: Recorder, frame: Frame, now: real)
    requires KeyR in frame.keys.down && r.isReplaying
    ensures !Update(r, frame, now).recorder.isReplaying && Update(r, frame, now).dispatched == []
  {
  }

  /** Pressing R with nothing recorded never starts a replay: the frame is
      recorded instead. */
  lemma EmptyBufferNeverReplays(r: Recorder, frame: Frame, now: real)
    requires r.buffer == [] && !r.isReplaying
    ensures !Update(r, frame, now).recorder.isReplaying
    ensures Update(r, frame, now).dispatched == []
  {
  }
}
