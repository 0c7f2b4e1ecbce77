/**
 The fighter's input recorder and replayer (FightingGameReplaySystem.cs).
 While not replaying, each frame prunes inputs older than the buffer window
 and records this frame's movement and attack keys; the R key toggles a
 replay, which feeds the recorded events, as their time comes due, into
 the fighter's animation state. The animator is a map from parameter name
 to bool; `G_A_T` is the fighter's state.
 */
module FightingReplay {
  import opened Wrappers
  import opened UnityInput
  import opened GuardAnimation
  import TimeWindow

  /** One recorded key transition. */
  datatype InputEvent = InputEvent(time: real, keyCode: KeyCode, isKeyDown: bool, animationParam: string)

  function EventTime(e: InputEvent): real { e.time }

  /** A key the recorder polls, the animator parameter it drives, and
      whether it is an attack key (attacks are recorded on key-down only). */
  datatype Binding = Binding(key: KeyCode, param: string, attack: bool)

  /** The movement keys in `RecordInput`'s order, then `attackAnimations`
      in its insertion order. */
  const Bindings: seq<Binding> := [
    Binding(KeyD, "walkfwd", false), Binding(KeyA, "walkbwd", false),
    Binding(KeyS, "sit", false), Binding(KeyW, "jump", false),
    Binding(KeyI, "Jab_R", true), Binding(KeyU, "Jab_L", true),
    Binding(KeyK, "Kick_R", true), Binding(KeyJ, "Kick_L", true)]

  predicate IsAttackKey(k: KeyCode)
  {
    k == KeyI || k == KeyU || k == KeyK || k == KeyJ
  }

  /** Every animator parameter the replayer resets. */
  const AnimParams: seq<string> := ["walkfwd", "walkbwd", "sit", "jump", "Jab_R", "Jab_L", "Kick_R", "Kick_L"]

  /** The fighter as the replayer drives it. */
  datatype Fighter = Fighter(anim: map<string, bool>, state: AniState)

  datatype Replay = Replay(
    bufferDurationSeconds: real,
    recordingStartTime: real,
    replayStartTime: real,
    buffer: seq<InputEvent>,
    isReplaying: bool,
    isAttacking: bool,
    fighter: Fighter)

  /** `Start`: the window in seconds and the recording origin. */
  function Init(bufferDurationMinutes: real, now: real, fighter: Fighter): (r: Replay)
    ensures r.bufferDurationSeconds / 60.0 == bufferDurationMinutes
    ensures r.buffer == [] && !r.isReplaying && r.recordingStartTime == now
  {
    Replay(bufferDurationMinutes * 60.0, now, 0.0, [], false, false, fighter)
  }

  /** `RecordKeyWithState`: at most one event per key per frame, key-down
      taking precedence over key-up. */
  function RecordKeyWithState(poll: KeyPoll, key: KeyCode, param: string, t: real): (r: seq<InputEvent>)
    ensures |r| <= 1
    ensures |r| == 1 <==> key in poll.down || key in poll.up
    ensures |r| == 1 ==> r[0] == InputEvent(t, key, key in poll.down, param)
  {
    if key in poll.down then [InputEvent(t, key, true, param)]
    else if key in poll.up then [InputEvent(t, key, false, param)]
    else []
  }

  /** Whether a binding produces an event this frame. */
  predicate Fires(poll: KeyPoll, b: Binding)
  {
    b.key in poll.down || (!b.attack && b.key in poll.up)
  }

  /** The event a firing binding records at time `t`. */
  function EventOf(poll: KeyPoll, b: Binding, t: real): InputEvent
  {
    InputEvent(t, b.key, b.key in poll.down, b.param)
  }

  /** True when the bindings are listed in polling order, no key twice. */
  predicate InPollOrder(table: seq<Binding>)
  {
    forall i, j :: 0 <= i < j < |table| ==> KeyRank(table[i].key) < KeyRank(table[j].key)
  }

  /** What one binding records this frame. */
  function BindingEvents(poll: KeyPoll, b: Binding, t: real): (r: seq<InputEvent>)
    ensures Fires(poll, b) ==> r == [EventOf(poll, b, t)]
    ensures !Fires(poll, b) ==> r == []
  {
    if b.attack then (if b.key in poll.down then [EventOf(poll, b, t)] else [])
    else RecordKeyWithState(poll, b.key, b.param, t)
  }

  /** The events one frame adds, polling the bindings in order: the
      movement keys through RecordKeyWithState, the attack keys on
      key-down only. */
  function RecordKeys(poll: KeyPoll, table: seq<Binding>, t: real): (r: seq<InputEvent>)
    ensures forall i :: 0 <= i < |r| ==> r[i].time == t
    ensures |r| <= |table|
    decreases |table|
  {
    if table == [] then [] else BindingEvents(poll, table[0], t) + RecordKeys(poll, table[1..], t)
  }

  predicate RanksAbove(r: seq<InputEvent>, k: int)
  {
    forall i :: 0 <= i < |r| ==> KeyRank(r[i].keyCode) > k
  }

  predicate RanksIncreasing(r: seq<InputEvent>)
  {
    forall i, j :: 0 <= i < j < |r| ==> KeyRank(r[i].keyCode) < KeyRank(r[j].keyCode)
  }

  /** Events come out in polling order, so no key is recorded twice in a
      frame. */
  lemma {:induction false} RecordKeysOrdered(poll: KeyPoll, table: seq<Binding>, t: real)
    requires InPollOrder(table)
    ensures RanksIncreasing(RecordKeys(poll, table, t))
    ensures |table| > 0 ==> RanksAbove(RecordKeys(poll, table, t), KeyRank(table[0].key) - 1)
    decreases |table|
  {
    if table != [] {
      var head := BindingEvents(poll, table[0], t);
      var rest := RecordKeys(poll, table[1..], t);
      assert InPollOrder(table[1..]) by {
        forall i, j | 0 <= i < j < |table[1..]|
          ensures KeyRank(table[1..][i].key) < KeyRank(table[1..][j].key)
        {
          assert table[1..][i] == table[i + 1] && table[1..][j] == table[j + 1];
        }
      }
      RecordKeysOrdered(poll, table[1..], t);
      assert RanksAbove(rest, KeyRank(table[0].key)) by {
        if |table| > 1 {
          assert table[1..][0] == table[1];
          assert KeyRank(table[0].key) < KeyRank(table[1].key);
        }
      }
      ConcatIncreasing(head, rest, KeyRank(table[0].key));
    }
  }

  lemma ConcatIncreasing(head: seq<InputEvent>, rest: seq<InputEvent>, k: int)
    requires |head| <= 1 && forall i :: 0 <= i < |head| ==> KeyRank(head[i].keyCode) == k
    requires RanksIncreasing(rest) && RanksAbove(rest, k)
    ensures RanksIncreasing(head + rest) && RanksAbove(head + rest, k - 1)
  {
    var r := head + rest;
    forall i, j | 0 <= i < j < |r| ensures KeyRank(r[i].keyCode) < KeyRank(r[j].keyCode) {
      assert r[j] == rest[j - |head|];
      if i >= |head| {
        assert r[i] == rest[i - |head|];
      }
    }
    forall i | 0 <= i < |r| ensures KeyRank(r[i].keyCode) > k - 1 {
      if i >= |head| {
        assert r[i] == rest[i - |head|];
      }
    }
  }

  /** A binding is recorded exactly when it fires, as EventOf says; and
      nothing else is recorded. */
  lemma {:induction false} RecordKeysExact(poll: KeyPoll, table: seq<Binding>, t: real)
    requires InPollOrder(table)
    ensures forall k :: 0 <= k < |table| ==>
              (Fires(poll, table[k]) <==> EventOf(poll, table[k], t) in RecordKeys(poll, table, t))
    ensures forall e :: e in RecordKeys(poll, table, t) ==>
              exists k :: 0 <= k < |table| && Fires(poll, table[k]) && e == EventOf(poll, table[k], t)
    decreases |table|
  {
    if table != [] {
      var b := table[0];
      var r := RecordKeys(poll, table, t);
      var rest := RecordKeys(poll, table[1..], t);
      var head := BindingEvents(poll, b, t);
      assert InPollOrder(table[1..]) by {
        forall i, j | 0 <= i < j < |table[1..]|
          ensures KeyRank(table[1..][i].key) < KeyRank(table[1..][j].key)
        {
          assert table[1..][i] == table[i + 1] && table[1..][j] == table[j + 1];
        }
      }
      RecordKeysExact(poll, table[1..], t);
      assert r == head + rest;
      forall k | 0 <= k < |table|
        ensures Fires(poll, table[k]) <==> EventOf(poll, table[k], t) in r
      {
        if k > 0 {
          assert table[k] == table[1..][k - 1];
          assert KeyRank(table[k].key) > KeyRank(b.key);
          assert EventOf(poll, table[k], t) !in head;
        }
      }
      forall e | e in r
        ensures exists k :: 0 <= k < |table| && Fires(poll, table[k]) && e == EventOf(poll, table[k], t)
      {
        if e !in head {
          assert e in rest;
          var k :| 0 <= k < |table[1..]| && Fires(poll, table[1..][k]) && e == EventOf(poll, table[1..][k], t);
          assert table[1..][k] == table[k + 1];
        }
      }
    }
  }

  lemma BindingsInPollOrder()
    ensures InPollOrder(Bindings)
  {
  }

  /** Events of one frame of the fighter recorder. */
  function FrameEvents(poll: KeyPoll, t: real): seq<InputEvent>
  {
    RecordKeys(poll, Bindings, t)
  }

  /** `RecordInput`: prune the stale head, then append this frame's events
      stamped with the time since recording started. */
  function RecordInput(r: Replay, poll: KeyPoll, now: real): (r': Replay)
    ensures TimeWindow.PrunedThenAppended(r.buffer, r'.buffer, FrameEvents(poll, now - r.recordingStartTime),
              EventTime, now - r.recordingStartTime, r.bufferDurationSeconds)
    ensures r' == r.(buffer := r'.buffer)
  {
    r.(buffer := TimeWindow.PruneAndAppend(r.buffer, FrameEvents(poll, now - r.recordingStartTime), EventTime,
                                           now - r.recordingStartTime, r.bufferDurationSeconds))
  }

  /** `Contains` on strings. */
  predicate HasSubstring(s: string, sub: string)
    decreases |s|
  {
    |sub| <= |s| && (s[..|sub|] == sub || (|s| > 0 && HasSubstring(s[1..], sub)))
  }

  /** Sets one animator parameter. */
  function SetBool(f: Fighter, param: string, value: bool): (r: Fighter)
    ensures param in r.anim && r.anim[param] == value
    ensures forall p :: p in f.anim && p != param ==> p in r.anim && r.anim[p] == f.anim[p]
    ensures r.state == f.state
  {
    f.(anim := f.anim[param := value])
  }

  /** `SimulateInput`: an attack key-down raises its animation and switches
      to the hand or kick attack state by the parameter's name; any other
      key-down raises its animation and moves for D/A/S/W; a key-up only
      lowers its animation. */
  function SimulateInput(f: Fighter, e: InputEvent): (r: Fighter)
    ensures e.isKeyDown ==> e.animationParam in r.anim && r.anim[e.animationParam]
    ensures !e.isKeyDown ==> r == SetBool(f, e.animationParam, false)
    ensures IsAttackKey(e.keyCode) && e.isKeyDown ==>
              r.state == (if HasSubstring(e.animationParam, "Jab") then HAttack
                          else if HasSubstring(e.animationParam, "Kick") then KAttack
                          else f.state)
    ensures !IsAttackKey(e.keyCode) && e.isKeyDown ==>
              r.state == (match e.keyCode
                          case KeyD => ForwardStep
                          case KeyA => BackStep
                          case KeyS => Sit
                          case KeyW => Jump
                          case _ => f.state)
  {
    if IsAttackKey(e.keyCode) && e.isKeyDown then
      var g := SetBool(f, e.animationParam, true);
      if HasSubstring(e.animationParam, "Jab") then g.(state := HAttack)
      else if HasSubstring(e.animationParam, "Kick") then g.(state := KAttack)
      else g
    else if e.isKeyDown then
      var g := SetBool(f, e.animationParam, true);
      match e.keyCode
      case KeyD => g.(state := ForwardStep)
      case KeyA => g.(state := BackStep)
      case KeyS => g.(state := Sit)
      case KeyW => g.(state := Jump)
      case _ => g
    else
      SetBool(f, e.animationParam, false)
  }

  /** The state a key is meant to put the fighter in when pressed. */
  function PressedState(k: KeyCode): Option<AniState>
  {
    match k
    case KeyD => Some(ForwardStep)
    case KeyA => Some(BackStep)
    case KeyS => Some(Sit)
    case KeyW => Some(Jump)
    case KeyI => Some(HAttack)
    case KeyU => Some(HAttack)
    case KeyK => Some(KAttack)
    case KeyJ => Some(KAttack)
    case _ => None
  }

  /** `ResetAllAnimationStates`: lowers every movement and attack animation
      and returns the fighter to idle. */
  function ResetAllAnimationStates(f: Fighter): (r: Fighter)
    ensures r.state == Idle
    ensures forall p :: p in AnimParams ==> p in r.anim && !r.anim[p]
    ensures forall p :: p in f.anim && p !in AnimParams ==> p in r.anim && r.anim[p] == f.anim[p]
  {
    Fighter(f.anim + map p | p in AnimParams :: false, Idle)
  }

  /** `StartReplay`: refuses an empty buffer (replaying stays off);
      otherwise resets the fighter and starts the replay clock. The buffer
      is copied, so its contents do not change. */
  function StartReplay(r: Replay, now: real): (r': Replay)
    ensures r.buffer == [] ==> r' == r.(isReplaying := false)
    ensures r.buffer != [] ==> r'.isReplaying == r.isReplaying && r'.replayStartTime == now
                               && r'.fighter == ResetAllAnimationStates(r.fighter)
    ensures r'.buffer == r.buffer
  {
    if r.buffer == [] then r.(isReplaying := false)
    else r.(fighter := ResetAllAnimationStates(r.fighter), replayStartTime := now)
  }

  /** `StopReplay`: resets the fighter and clears the attacking flag. */
  function StopReplay(r: Replay): (r': Replay)
    ensures r'.fighter.state == Idle && !r'.isAttacking
    ensures forall p :: p in AnimParams ==> p in r'.fighter.anim && !r'.fighter.anim[p]
    ensures r'.buffer == r.buffer && r'.isReplaying == r.isReplaying
  {
    r.(fighter := ResetAllAnimationStates(r.fighter), isAttacking := false)
  }

  /** `ToggleReplay`: flips replaying on or off; turning it on with nothing
      recorded leaves it off. */
  function ToggleReplay(r: Replay, now: real): (r': Replay)
    ensures r'.isReplaying <==> !r.isReplaying && r.buffer != []
    ensures r'.buffer == r.buffer
    ensures r.isReplaying ==> r'.fighter.state == Idle && !r'.isAttacking
    ensures !r.isReplaying && r.buffer != [] ==> r'.replayStartTime == now && r'.fighter.state == Idle
  {
    if !r.isReplaying then StartReplay(r.(isReplaying := true), now)
    else StopReplay(r.(isReplaying := false))
  }

  /** Feeds events to the fighter in order. */
  function SimulateAll(f: Fighter, events: seq<InputEvent>): Fighter
    decreases |events|
  {
    if events == [] then f else SimulateAll(SimulateInput(f, events[0]), events[1..])
  }

  /** The replay after one frame, and the events dispatched in it. */
  datatype Played = Played(replay: Replay, dispatched: seq<InputEvent>)

  /** `PlayReplay`: dispatches, in buffer order, every leading event whose
      time has come on the replay clock, and stops replaying once the
      buffer is empty. */
  function PlayReplay(r: Replay, now: real): (p: Played)
    ensures p.dispatched + p.replay.buffer == r.buffer
    ensures forall i :: 0 <= i < |p.dispatched| ==> p.dispatched[i].time <= now - r.replayStartTime
    ensures p.replay.buffer == [] || p.replay.buffer[0].time > now - r.replayStartTime
    ensures p.replay.fighter == SimulateAll(r.fighter, p.dispatched)
    ensures p.replay.isReplaying <==> r.isReplaying && p.replay.buffer != []
    ensures p.replay.recordingStartTime == r.recordingStartTime && p.replay.replayStartTime == r.replayStartTime
    ensures p.replay.isAttacking == r.isAttacking && p.replay.bufferDurationSeconds == r.bufferDurationSeconds
  {
    var split := TimeWindow.DrainDue(r.buffer, EventTime, now - r.replayStartTime);
    Played(
      r.(buffer := split.rest,
         fighter := SimulateAll(r.fighter, split.due),
         isReplaying := r.isReplaying && split.rest != []),
      split.due)
  }

  /** Once the replay clock has passed every recorded time, one playback
      step dispatches the whole buffer in order and ends the replay. */
  lemma ReplayCompletes(r: Replay, now: real)
    requires forall i :: 0 <= i < |r.buffer| ==> r.buffer[i].time <= now - r.replayStartTime
    ensures PlayReplay(r, now).dispatched == r.buffer
    ensures PlayReplay(r, now).replay.buffer == [] && !PlayReplay(r, now).replay.isReplaying
  {
    TimeWindow.DrainDueAll(r.buffer, EventTime, now - r.replayStartTime);
  }

  /** `Update`: nothing happens outside a running match; R toggles the
      replay, then the frame is either played back or recorded. */
  function Update(r: Replay, phase: GamePhase, poll: KeyPoll, now: real): (r': Replay)
    ensures phase != GameStart ==> r' == r
    ensures phase == GameStart && KeyR !in poll.down ==>
              r' == (if r.isReplaying then PlayReplay(r, now).replay else RecordInput(r, poll, now))
    ensures phase == GameStart && KeyR in poll.down && r.isReplaying ==>
              r' == RecordInput(StopReplay(r.(isReplaying := false)), poll, now)
    ensures phase == GameStart && KeyR in poll.down && !r.isReplaying && r.buffer == [] ==>
              r' == RecordInput(r, poll, now)
    ensures phase == GameStart && KeyR in poll.down && !r.isReplaying && r.buffer != [] ==>
              r' == PlayReplay(r.(isReplaying := true, replayStartTime := now,
                                  fighter := ResetAllAnimationStates(r.fighter)), now).replay
  {
    if phase != GameStart then r
    else
      var t := if KeyR in poll.down then ToggleReplay(r, now) else r;
      if t.isReplaying then PlayReplay(t, now).replay else RecordInput(t, poll, now)
  }

  /** Pressing R during a match with something recorded, idle, starts a
      replay that survives its first frame whenever the last recorded
      event lies after the replay clock's zero, with the fighter reset and
      nothing added to the buffer. */
  lemma RPressStartsReplay(r: Replay, poll: KeyPoll, now: real)
    requires KeyR in poll.down && !r.isReplaying && r.buffer != []
    requires r.buffer[|r.buffer| - 1].time > 0.0
    ensures var r' := Update(r, GameStart, poll, now);
            r'.isReplaying && r'.replayStartTime == now && |r'.buffer| <= |r.buffer|
            && r'.buffer == r.buffer[|r.buffer| - |r'.buffer|..]
  {
    var t := r.(isReplaying := true, replayStartTime := now, fighter := ResetAllAnimationStates(r.fighter));
    var p := PlayReplay(t, now);
    assert r.buffer[|r.buffer| - |p.replay.buffer|..] == p.replay.buffer;
  }

  /** Pressing R during a replay always ends it, leaving the fighter idle
      and not attacking; the frame is then recorded. */
  lemma RPressStopsReplay(r: Replay, poll: KeyPoll, now: real)
    requires KeyR in poll.down && r.isReplaying
    ensures var r' := Update(r, GameStart, poll, now);
            !r'.isReplaying && r'.fighter.state == Idle && !r'.isAttacking
  {
  }

  /** While a replay runs and R is not pressed, nothing is recorded: the
      buffer only loses its due head. */
  lemma ReplayingNeverRecords(r: Replay, poll: KeyPoll, now: real)
    requires KeyR !in poll.down && r.isReplaying
    ensures var r' := Update(r, GameStart, poll, now);
            |r'.buffer| <= |r.buffer| && r'.buffer == r.buffer[|r.buffer| - |r'.buffer|..]
  {
    var p := PlayReplay(r, now);
    assert r.buffer[|r.buffer| - |p.replay.buffer|..] == p.replay.buffer;
  }

  /** "Kick_" followed by one more letter does not contain "Jab". */
  lemma KickIsNotJab(c: char)
    ensures !HasSubstring("Kick_" + [c], "Jab")
  {
    var s := "Kick_" + [c];
    assert s[..3] != "Jab" by { assert s[0] == 'K'; }
    assert s[1..][..3] != "Jab" by { assert s[1..][0] == 'i'; }
    assert s[2..][..3] != "Jab" by { assert s[2..][0] == 'c'; }
    assert s[3..][..3] != "Jab" by { assert s[3..][0] == 'k'; }
    assert s[1..][1..] == s[2..] && s[2..][1..] == s[3..] && s[3..][1..] == s[4..];
    assert !HasSubstring(s[4..], "Jab");
    assert !HasSubstring(s[3..], "Jab");
    assert !HasSubstring(s[2..], "Jab");
    assert !HasSubstring(s[1..], "Jab");
  }

  lemma AttackParamNames()
    ensures HasSubstring("Jab_R", "Jab") && HasSubstring("Jab_L", "Jab")
    ensures !HasSubstring("Kick_R", "Jab") && !HasSubstring("Kick_L", "Jab")
    ensures HasSubstring("Kick_R", "Kick") && HasSubstring("Kick_L", "Kick")
  {
    assert "Jab_R"[..3] == "Jab" && "Jab_L"[..3] == "Jab";
    assert "Kick_R"[..4] == "Kick" && "Kick_L"[..4] == "Kick";
    KickIsNotJab('R');
    KickIsNotJab('L');
    assert "Kick_" + ['R'] == "Kick_R" && "Kick_" + ['L'] == "Kick_L";
  }

  /** What replaying one event does, for a key whose animation parameter
      names its attack kind. */
  lemma EventMeansKey(f: Fighter, e: InputEvent)
    requires PressedState(e.keyCode).Some?
    requires e.keyCode == KeyI || e.keyCode == KeyU ==> HasSubstring(e.animationParam, "Jab")
    requires e.keyCode == KeyK || e.keyCode == KeyJ ==>
               !HasSubstring(e.animationParam, "Jab") && HasSubstring(e.animationParam, "Kick")
    ensures e.isKeyDown ==> SimulateInput(f, e).state == PressedState(e.keyCode).value
    ensures !e.isKeyDown ==> SimulateInput(f, e).state == f.state
                             && e.animationParam in SimulateInput(f, e).anim
                             && !SimulateInput(f, e).anim[e.animationParam]
  {
  }

  /** A binding whose key has a pressed state and whose parameter names
      its attack kind, as SimulateInput reads it. */
  predicate NamedForKey(b: Binding)
  {
    && PressedState(b.key).Some?
    && (b.key == KeyI || b.key == KeyU ==> HasSubstring(b.param, "Jab"))
    && (b.key == KeyK || b.key == KeyJ ==> !HasSubstring(b.param, "Jab") && HasSubstring(b.param, "Kick"))
  }

  /** The four attack bindings name their attack kinds. */
  lemma AttackBindingsNamed()
    ensures NamedForKey(Binding(KeyI, "Jab_R", true)) && NamedForKey(Binding(KeyU, "Jab_L", true))
    ensures NamedForKey(Binding(KeyK, "Kick_R", true)) && NamedForKey(Binding(KeyJ, "Kick_L", true))
  {
    AttackParamNames();
  }

  lemma BindingNamed(k: nat)
    requires k < |Bindings|
    ensures NamedForKey(Bindings[k])
  {
    if k >= 4 {
      AttackBindingsNamed();
      if k == 4 {
        assert Bindings[k] == Binding(KeyI, "Jab_R", true);
      } else if k == 5 {
        assert Bindings[k] == Binding(KeyU, "Jab_L", true);
      } else if k == 6 {
        assert Bindings[k] == Binding(KeyK, "Kick_R", true);
      } else {
        assert Bindings[k] == Binding(KeyJ, "Kick_L", true);
      }
    } else {
      assert PressedState(Bindings[k].key).Some? && !IsAttackKey(Bindings[k].key);
    }
  }

  /** Replaying the event a binding records: a key-down puts the fighter in
      the key's state, a key-up leaves the state alone and lowers the
      key's animation. */
  lemma BindingEventMeansKey(f: Fighter, poll: KeyPoll, k: nat, t: real)
    requires k < |Bindings|
    ensures var e := EventOf(poll, Bindings[k], t);
            e.isKeyDown ==> PressedState(e.keyCode).Some? && SimulateInput(f, e).state == PressedState(e.keyCode).value
    ensures var e := EventOf(poll, Bindings[k], t);
            !e.isKeyDown ==> SimulateInput(f, e).state == f.state
                             && e.animationParam in SimulateInput(f, e).anim
                             && !SimulateInput(f, e).anim[e.animationParam]
  {
    BindingNamed(k);
    var b := Bindings[k];
    EventMeansKey(f, EventOf(poll, b, t));
  }

  /** Pressing a key in the match and replaying its recorded key-down
      agree: for D and the four attack keys, a frame in which only that key
      goes down (and is held) leaves the guard in the state that replaying
      the binding's event gives the fighter. A, S and W are left out: the
      guard's script moves only animator flags for them. */
  lemma LiveKeyMatchesReplay(g: Guard, clip: Clip, f: Fighter, k: nat, t: real)
    requires k < |Bindings| && (k == 0 || k >= 4)
    ensures var b := Bindings[k];
            var poll := KeyPoll({b.key}, {}, {b.key});
            GuardAnimation.Update(g, GameStart, clip, poll).state
            == SimulateInput(f, EventOf(poll, b, t)).state
  {
    var b := Bindings[k];
    var poll := KeyPoll({b.key}, {}, {b.key});
    BindingEventMeansKey(f, poll, k, t);
    LiveBindingKey(k);
    LiveKeyState(g, clip, b.key);
  }

  /** The bindings the guard's script reacts to: D and the attack keys. */
  lemma LiveBindingKey(k: nat)
    requires k < |Bindings| && (k == 0 || k >= 4)
    ensures var key := Bindings[k].key;
            key == KeyD || key == KeyI || key == KeyU || key == KeyK || key == KeyJ
  {
    if k == 0 {
      assert Bindings[k] == Binding(KeyD, "walkfwd", false);
    } else if k == 4 {
      assert Bindings[k] == Binding(KeyI, "Jab_R", true);
    } else if k == 5 {
      assert Bindings[k] == Binding(KeyU, "Jab_L", true);
    } else if k == 6 {
      assert Bindings[k] == Binding(KeyK, "Kick_R", true);
    } else {
      assert Bindings[k] == Binding(KeyJ, "Kick_L", true);
    }
  }

  /** A live press of D or an attack key, alone, puts the guard in the
      state the key stands for. */
  lemma LiveKeyState(g: Guard, clip: Clip, key: KeyCode)
    requires key == KeyD || key == KeyI || key == KeyU || key == KeyK || key == KeyJ
    ensures PressedState(key).Some?
    ensures GuardAnimation.Update(g, GameStart, clip, KeyPoll({key}, {}, {key})).state == PressedState(key).value
  {
  }

  /** Replaying a recorded key-down puts the fighter in the state the key
      stands for; replaying a recorded key-up leaves the state alone and
      lowers the key's animation. */
  lemma ReplayedEventMeansKey(f: Fighter, poll: KeyPoll, t: real, e: InputEvent)
    requires e in FrameEvents(poll, t)
    ensures e.isKeyDown ==> PressedState(e.keyCode).Some? && SimulateInput(f, e).state == PressedState(e.keyCode).value
    ensures !e.isKeyDown ==> SimulateInput(f, e).state == f.state
                             && e.animationParam in SimulateInput(f, e).anim
                             && !SimulateInput(f, e).anim[e.animationParam]
  {
    BindingsInPollOrder();
    RecordKeysExact(poll, Bindings, t);
    var k :| 0 <= k < |Bindings| && Fires(poll, Bindings[k]) && e == EventOf(poll, Bindings[k], t);
    BindingEventMeansKey(f, poll, k, t);
  }
}
