# Pose-controlled fighting game: decision logic in Dafny

The repository is a webcam controller for a Unity fighting game. A Python
application reads the player's pose, counts arm curls, classifies jumps and
squats, and presses arrow keys. A small TCP relay server forwards
newline-delimited JSON pose events to clients and rate-limits them per
client. On the Unity side, two replay recorders keep a sliding window of
key and axis events and play it back into the fighter, a third recorder
captures movement directions, and the guard fighter's script applies
per-frame animation rules and the `Floating` juggle state.

This project models that sequential decision logic as pure functions over
immutable datatypes and proves properties about it:

- `LineFraming`: the relay's receive buffer, split on `'\n'` into complete
  records with the unterminated tail kept (`server.py`).
- `PoseServer`: the per-client rate limiter, the echo decision, the
  handler loop with its clean-up, `accept` bookkeeping and `stop`
  (`server.py`). JSON decoding and encoding are parameters: decode is a
  partial function `string -> Option<Json>`, and `Json` is only as detailed
  as Python's truthiness test needs.
- `TimeWindow`: the two queue loops shared by the replay recorders. One
  prunes the stale head of the sliding window. The other drains the events
  due on the replay clock.
- `FightingReplay` (`FightingGameReplaySystem.cs`) and `KeyReplay`
  (`ReplaySystem.cs`): recording, toggling, starting, stopping and playing
  back, and what a replayed event does to the fighter. `UnityInput` holds
  the key codes and the per-frame key poll (`GetKeyDown`/`GetKeyUp`/`GetKey`
  as sets).
- `InputCapture` (`InputCapture.cs`): the movement-direction recorder.
- `PoseClassify` (`src/image_processing.py`): the Up/Down/Standing,
  Left/Right/Center and hands-joined classifiers, and the guide lines drawn
  at the classifiers' bounds.
- `CurlApp` (`app.py`): the per-frame logic of the capture loop. This
  covers the start-game latch, the two curl stage machines and their
  counters, the distance feedback, the jump/sit lines and vertical status,
  and the edge-triggered key press.
- `GuardAnimation` (`Guard_ani_Setting.cs`): the pure decisions of
  `Update` (look-at, colliders, `Hit_possible`, the wall hit-box), the
  `Floating` transitions of the hit handlers, and the ground-contact reset.

Times are `real` seconds. Clocks are inputs: a per-record clock for the
server, and `now` for the Unity frame functions. Angles, distances and
landmark coordinates are inputs too.

Two behaviours of the relay worth knowing:

- `stop` empties `clients` and clears `running`, but it leaves
  `last_process_time` as it was (server.py:162-178). `PoseServer.Stop`
  keeps it, and only a handler's clean-up removes a client's entry.
- With the default refresh rate of 0.5 s, two records arriving in one
  write are processed microseconds apart. The second is therefore dropped
  and only the first is echoed (`PoseServer.SingleWriteTwoRecords`).

## Model

| member | source | states |
|---|---|---|
| LineFraming.FirstNewline | server.py:86 | the split point is a `'\n'` and nothing before it is one |
| LineFraming.Drain | server.py:85-86 | after draining, neither the buffer tail nor any emitted record contains `'\n'` |
| LineFraming.DrainLossless | server.py:85-86 | the records, each followed by `'\n'`, then the tail, spell out the original buffer |
| LineFraming.DrainJoin | server.py:85-86 | framing inverts joining: records without `'\n'` plus a tail come back exactly, in order |
| LineFraming.ChunkingIndependent | server.py:83-86 | draining two reads one after the other yields the same records, in the same order, as draining their concatenation |
| LineFraming.JoinAppend | server.py:85-86 | the wire form of two runs of records is the concatenation of their wire forms |
| PoseServer.ProcessPoseData | server.py:37-66 | the first event of a client is admitted and stamped `now`; an event less than `refresh_rate` after the last admitted one is dropped with the stamp unchanged; otherwise it is admitted and stamped `now`; other clients' stamps never change |
| PoseServer.OthersUnchangedTrans | server.py:40-45 | leaving other clients' stamps alone composes over consecutive events |
| PoseServer.AdmissionsSpaced | server.py:40-45 | any two consecutive admitted events of a client are at least `refresh_rate` apart, and so is the first one from the previous stamp |
| PoseServer.HandleLine | server.py:87-97 | an undecodable record changes nothing and echoes nothing; an echo happens iff the record decodes, is truthy and is admitted; the echo is the serialised record plus `'\n'` |
| PoseServer.HandleLines | server.py:85-97 | a run of records gets at most one echo per record, and other clients' stamps are untouched |
| PoseServer.HandleOneLine | server.py:85-97 | a single record's outcome is exactly `HandleLine` at its clock reading |
| PoseServer.HandleLinesAppend | server.py:85-97 | records are handled strictly in arrival order: handling `a + b` is handling `a`, then `b` from the stamps `a` left with the clock continuing, and the echoes are `a`'s then `b`'s |
| PoseServer.SpacedRecordsAllEchoed | server.py:85-97 | truthy records arriving at least `refresh_rate` apart are all echoed, in order, each as its serialisation plus `'\n'` |
| PoseServer.BurstEchoedAtMostOnce | server.py:40-45 | a new client's burst inside one refresh interval yields at most one echo, stamped with the first record's time |
| PoseServer.AdmittedLastLine | server.py:85-97 | a truthy record arriving at least `refresh_rate` after the client's last stamp is echoed and becomes the client's new stamp |
| PoseServer.DroppedLastLine | server.py:85-97 | a record arriving less than `refresh_rate` after the client's last stamp changes neither the stamps nor the echoes |
| PoseServer.Receive | server.py:82-97 | received text is appended to the buffer; every complete record is handled, so the echoes and stamps are those of `HandleLines` over the drained records; the kept buffer has no `'\n'`; records plus buffer spell out the old buffer plus the data |
| PoseServer.ReceiveSpacedAllEchoed | server.py:82-97 | for any received text, when its complete records are truthy and spaced by `refresh_rate`, each one is echoed, in order |
| PoseServer.RemoveFirst | server.py:111-112 | `list.remove` takes out exactly one occurrence (a multiset difference) and is a no-op when the socket is absent |
| PoseServer.RemoveFirstNoDup | server.py:111-112 | on a list without duplicates, removal leaves no trace of the socket |
| PoseServer.Cleanup | server.py:109-115 | the handler's clean-up removes its socket from `clients` and its id from `last_process_time`, touching nothing else |
| PoseServer.CleanupIdempotent | server.py:109-115 | repeating the clean-up changes nothing |
| PoseServer.RunSession | server.py:68-116 | a closed handler has cleaned up (its socket and stamp gone); an open one leaves `clients` alone; a stopped server closes at once with no echoes; other clients' stamps are untouched; the session keeps its id and socket |
| PoseServer.RunSessionSnoc | server.py:82-97 | while the handler is open, one more non-empty read is handled exactly as `Receive` on the state reached so far: its echoes are written after all earlier ones, and the server's `last_process_time` (including this client's stamp) and the buffer are what that `Receive` leaves; by induction over the reads this fixes every echo and stamp of an open session |
| PoseServer.SessionClosedIff | server.py:74-80 | the handler reaches its clean-up iff the server is stopped or some read reports end of stream or a failure |
| PoseServer.TimeoutIgnored | server.py:99-100 | a read that times out changes nothing |
| PoseServer.ReadsAfterCloseIgnored | server.py:78-80 | once the handler has closed, further reads have no effect |
| PoseServer.Accept | server.py:135-142 | an accepted socket is appended to `clients` while the server runs |
| PoseServer.Stop | server.py:162-178 | `running` becomes false and `clients` empty |
| PoseServer.StopIdempotent | server.py:162-178 | `stop` is safe to repeat |
| PoseServer.StoppedSessionCloses | server.py:74-116 | after `stop`, a handler echoes nothing and cleans up at once |
| PoseServer.EmptyRecordStampedNotEchoed | server.py:89-93 | an admitted `{}` updates the stamp but is not echoed |
| PoseServer.MalformedThenWellFormed | server.py:87-97 | a malformed record is skipped and the next good record is still echoed |
| PoseServer.TwoRecordBurst | server.py:40-45 | of two truthy records inside one refresh interval only the first is echoed |
| PoseServer.SingleWriteTwoRecords | server.py:82-97 | one write holding two records at refresh 0.5 s produces one echo and leaves an empty buffer |
| PoseServer.JumpSitStandTimeline | server.py:37-45 | records at 0.0 s, 0.1 s and 0.6 s: the first and third are echoed, the second is dropped |
| TimeWindow.PruneStale | Tekken-main/Assets/Script/FightingGameReplaySystem.cs:67-71 | pruning removes a prefix, every removed event is stale, and the new head (if any) is fresh |
| TimeWindow.PruneStaleUnique | Tekken-main/Assets/Script/FightingGameReplaySystem.cs:67-71 | that contract determines the pruned buffer |
| TimeWindow.PruneStaleIdempotent | Tekken-main/Assets/Script/ReplaySystem.cs:41-45 | pruning twice at the same instant removes nothing more |
| TimeWindow.PruneThenAppend | Tekken-main/Assets/Script/FightingGameReplaySystem.cs:63-88 | prune-then-append is a frame that removes only a stale prefix and adds only at the end |
| TimeWindow.PruneAndAppend | Tekken-main/Assets/Script/FightingGameReplaySystem.cs:63-88 | one recording frame drops only a stale prefix of the buffer and appends the frame's events at the end |
| TimeWindow.DrainDue | Tekken-main/Assets/Script/FightingGameReplaySystem.cs:146-151 | playback removes exactly the leading events with `time <= clock`, in buffer order; the next event (if any) is not yet due |
| TimeWindow.DrainDueAll | Tekken-main/Assets/Script/ReplaySystem.cs:116-121 | when every event is due, the whole queue is dispatched |
| FightingReplay.Init | Tekken-main/Assets/Script/FightingGameReplaySystem.cs:29-32 | the window is the configured minutes in seconds; recording starts now, with an empty buffer |
| FightingReplay.RecordKeyWithState | Tekken-main/Assets/Script/FightingGameReplaySystem.cs:90-100 | at most one event per key per frame, present iff the key went down or up, with key-down winning |
| FightingReplay.BindingEvents | Tekken-main/Assets/Script/FightingGameReplaySystem.cs:73-87 | movement keys record down or up; attack keys record key-down only |
| FightingReplay.RecordKeys | Tekken-main/Assets/Script/FightingGameReplaySystem.cs:73-87 | every event of a frame is stamped with the frame time, at most one per binding |
| FightingReplay.RecordKeysOrdered | Tekken-main/Assets/Script/FightingGameReplaySystem.cs:73-87 | events come out in polling order (D, A, S, W, I, U, K, J), so no key appears twice in a frame |
| FightingReplay.RecordKeysExact | Tekken-main/Assets/Script/FightingGameReplaySystem.cs:73-100 | a binding's event is recorded iff the binding fires, and nothing else is recorded |
| FightingReplay.RecordInput | Tekken-main/Assets/Script/FightingGameReplaySystem.cs:63-88 | the new buffer is the old one minus a stale prefix, with this frame's events appended; nothing else changes |
| FightingReplay.SimulateInput | Tekken-main/Assets/Script/FightingGameReplaySystem.cs:160-211 | an attack key-down goes to `H_attack` for a "Jab" parameter and `K_attack` for a "Kick" one; D/A/S/W key-downs go to forwardstep/backstep/sit/jump; a key-up only lowers its animation bool |
| FightingReplay.AttackParamNames | Tekken-main/Assets/Script/FightingGameReplaySystem.cs:21-27 | helper for `BindingEventMeansKey`, a fact about the literal names: the jab parameters contain "Jab"; the kick parameters contain "Kick" and not "Jab" |
| FightingReplay.BindingEventMeansKey | Tekken-main/Assets/Script/FightingGameReplaySystem.cs:160-211 | replaying a binding's event puts the fighter in that key's state on key-down, and leaves the state alone while lowering the animation on key-up |
| FightingReplay.BindingNamed | Tekken-main/Assets/Script/FightingGameReplaySystem.cs:21-27 | every binding's key has a pressed state, and every attack binding's parameter names its attack kind (`Jab` or `Kick`, never both) |
| FightingReplay.LiveKeyMatchesReplay | Tekken-main/Assets/Script/Manager/Guard_ani_Setting.cs:335-465 | for D and the four attack keys, pressing the key in the match leaves the guard in the same state that replaying the key's recorded key-down gives the fighter |
| FightingReplay.ReplayedEventMeansKey | Tekken-main/Assets/Script/FightingGameReplaySystem.cs:160-211 | the same holds for every event a recorded frame contains |
| FightingReplay.ResetAllAnimationStates | Tekken-main/Assets/Script/FightingGameReplaySystem.cs:220-236 | the fighter is idle, every movement and attack bool is false, and other parameters are untouched |
| FightingReplay.StartReplay | Tekken-main/Assets/Script/FightingGameReplaySystem.cs:115-133 | an empty buffer turns replaying off; otherwise the fighter is reset and the replay clock starts; the buffer's contents never change |
| FightingReplay.StopReplay | Tekken-main/Assets/Script/FightingGameReplaySystem.cs:135-140 | the fighter is reset to idle with all animation bools false, and it is no longer attacking |
| FightingReplay.ToggleReplay | Tekken-main/Assets/Script/FightingGameReplaySystem.cs:102-113 | replaying is on afterwards iff it was off and the buffer is non-empty |
| FightingReplay.PlayReplay | Tekken-main/Assets/Script/FightingGameReplaySystem.cs:142-158 | dispatched events plus the remaining buffer are the old buffer; all dispatched events are due, the next one is not; the fighter has seen them in order; replaying stops iff the buffer empties; the window, both clocks and `isAttacking` are unchanged |
| FightingReplay.ReplayCompletes | Tekken-main/Assets/Script/FightingGameReplaySystem.cs:146-157 | once every event is due, one step dispatches the whole buffer and ends the replay |
| FightingReplay.Update | Tekken-main/Assets/Script/FightingGameReplaySystem.cs:43-61 | nothing happens outside a running match; otherwise R toggles, and the frame is then played back or recorded, case by case |
| FightingReplay.RPressStartsReplay | Tekken-main/Assets/Script/FightingGameReplaySystem.cs:43-61 | R pressed in a match while idle with events recorded, the last after time zero, leaves a replay running from now whose buffer is a suffix of the recorded one |
| FightingReplay.RPressStopsReplay | Tekken-main/Assets/Script/FightingGameReplaySystem.cs:43-61 | R pressed during a replay ends it with the fighter idle and not attacking |
| FightingReplay.ReplayingNeverRecords | Tekken-main/Assets/Script/FightingGameReplaySystem.cs:43-61 | while a replay runs and R is not pressed, the buffer only loses a prefix: nothing is recorded |
| KeyReplay.KeyEvent | Tekken-main/Assets/Script/ReplaySystem.cs:167-175 | the key constructor leaves the axis part empty (`""`, 0, not an axis) |
| KeyReplay.AxisEvent | Tekken-main/Assets/Script/ReplaySystem.cs:177-185 | the axis constructor leaves the key part empty (`None`, not down) |
| KeyReplay.ConstructorsDisjoint | Tekken-main/Assets/Script/ReplaySystem.cs:167-185 | no event is built by both constructors |
| KeyReplay.CheckAndRecordKey | Tekken-main/Assets/Script/ReplaySystem.cs:62-72 | at most one event per key per frame, present iff the key went down or up, with key-down winning |
| KeyReplay.RecordAxisInput | Tekken-main/Assets/Script/ReplaySystem.cs:74-81 | an axis event is recorded iff the reading is more than 0.01 away from zero |
| KeyReplay.RecordKeys | Tekken-main/Assets/Script/ReplaySystem.cs:48-55 | every key event of a frame is stamped with the frame time |
| KeyReplay.RecordKeysExact | Tekken-main/Assets/Script/ReplaySystem.cs:48-72 | events are in polling order with no key twice; each is for a polled key that moved, with key-down preferred; every such key has its event |
| KeyReplay.RecordKeysSound | Tekken-main/Assets/Script/ReplaySystem.cs:48-72 | every key event is for a polled key that went down or up, marked key-down exactly when it went down |
| KeyReplay.RecordKeysComplete | Tekken-main/Assets/Script/ReplaySystem.cs:48-72 | every polled key that went down or up has its event |
| KeyReplay.RecordKeysOrdered | Tekken-main/Assets/Script/ReplaySystem.cs:48-72 | keys polled in order give events in the same order, so no key is recorded twice in a frame |
| KeyReplay.FrameEventsShape | Tekken-main/Assets/Script/ReplaySystem.cs:47-60 | a frame adds its key events first and then its axis events, at most ten in all, every one stamped with the frame time |
| KeyReplay.Init | Tekken-main/Assets/Script/ReplaySystem.cs:14-18 | the window is the configured minutes in seconds, and recording starts now |
| KeyReplay.RecordInput | Tekken-main/Assets/Script/ReplaySystem.cs:37-60 | the new buffer is the old one minus a stale prefix, with this frame's events appended; the flags and clocks are unchanged |
| KeyReplay.StartReplay | Tekken-main/Assets/Script/ReplaySystem.cs:96-106 | an empty buffer turns replaying off; otherwise only the replay clock restarts |
| KeyReplay.ToggleReplay | Tekken-main/Assets/Script/ReplaySystem.cs:83-94 | replaying is on afterwards iff it was off and the buffer is non-empty; stopping only flips the flag |
| KeyReplay.ToggleTwice | Tekken-main/Assets/Script/ReplaySystem.cs:83-111 | toggling on and off again returns to recording, with the buffer intact |
| KeyReplay.PlayReplay | Tekken-main/Assets/Script/ReplaySystem.cs:113-128 | the dispatched events are a due prefix of the buffer and the next event is not due; replaying stops iff the buffer empties |
| KeyReplay.PlayReplayLongestPrefix | Tekken-main/Assets/Script/ReplaySystem.cs:116-121 | the dispatched prefix is the longest due one |
| KeyReplay.Update | Tekken-main/Assets/Script/ReplaySystem.cs:20-35 | R toggles first; then the frame is played back or recorded, case by case |
| KeyReplay.RPressStartsReplay | Tekken-main/Assets/Script/ReplaySystem.cs:20-35 | R pressed while idle with events recorded, the last after time zero, leaves a replay running from now; the dispatched events and what remains make up the old buffer, so the frame is not recorded |
| KeyReplay.RPressStopsReplay | Tekken-main/Assets/Script/ReplaySystem.cs:20-35 | R pressed during a replay ends it and dispatches nothing |
| KeyReplay.EmptyBufferNeverReplays | Tekken-main/Assets/Script/ReplaySystem.cs:96-103 | pressing R with nothing recorded records the frame instead of replaying |
| InputCapture.Start | Tekken-main/Assets/Script/InputCapture.cs:18-22 | the window in seconds is the configured minutes times 60, and the buffer starts empty |
| InputCapture.CaptureInput | Tekken-main/Assets/Script/InputCapture.cs:30-54 | inside the window, a non-zero direction is appended with its relative time and a zero one adds nothing; after the window, the oldest entry is removed |
| InputCapture.StartInsideWindow | Tekken-main/Assets/Script/InputCapture.cs:18-22 | initially every entry lies inside the window |
| InputCapture.CaptureKeepsInsideWindow | Tekken-main/Assets/Script/InputCapture.cs:32-44 | every recorded time, as the buffer getter returns it, stays below `bufferTime` |
| InputCapture.CaptureKeepsOrder | Tekken-main/Assets/Script/InputCapture.cs:30-54 | on a clock that does not run backwards, the entries stay in capture order |
| InputCapture.ExpiredShrinks | Tekken-main/Assets/Script/InputCapture.cs:46-53 | after the window, a frame never appends and removes at most the oldest entry |
| InputCapture.ExpiredDrains | Tekken-main/Assets/Script/InputCapture.cs:46-53 | `k` frames after the window leave the buffer without its `k` oldest entries (or empty) |
| InputCapture.RecordingCollects | Tekken-main/Assets/Script/InputCapture.cs:32-45 | inside the window, a run of frames appends exactly its non-zero directions, in order, and drops nothing |
| PoseClassify.HalfFloor | src/image_processing.py:232 | integer halving rounds toward negative infinity, as Python's `//` does |
| PoseClassify.MidpointBetween | src/image_processing.py:232 | the shoulder midpoint lies between the two shoulders |
| PoseClassify.CheckUpDown | src/image_processing.py:207-242 | no landmarks gives no result; Up iff the midpoint is above the upper bound; Down iff not Up and below the lower bound; Standing otherwise |
| PoseClassify.UpDownMonotone | src/image_processing.py:232-242 | a lower shoulder line never classifies as higher |
| PoseClassify.CheckLeftRight | src/image_processing.py:176-205 | Center, Right and Left each hold iff the shoulders are placed that way around `w//2` |
| PoseClassify.LeftRightUndecided | src/image_processing.py:200-205 | no verdict iff a shoulder is exactly on `w//2` or the shoulders straddle it crossed over |
| PoseClassify.CheckHandsJoined | src/image_processing.py:139-174 | no landmarks gives no result; "Hands Joined" iff the wrist distance is below the threshold |
| PoseClassify.HandsJoinedBySquares | src/image_processing.py:114-137 | with a Euclidean distance and a non-negative threshold, the verdict is the comparison of squared lengths |
| PoseClassify.DrawGuideLines | src/image_processing.py:73-107 | the vertical line is at `w//2` and the horizontal lines lie the configured offsets below and above the centre |
| PoseClassify.GuideLinesMatchClassifiers | src/image_processing.py:94-106 | the classifiers' verdicts read off directly against the drawn lines |
| CurlApp.LatchStart | app.py:90-98 | the game is started iff it was already started or both angles are at most 25 degrees |
| CurlApp.UpAngle | app.py:100-112 | each arm's "up" threshold lies below the "down" threshold |
| CurlApp.CurlStep | app.py:100-112 | above 70 degrees the stage becomes down; below the arm's up threshold while down it becomes up and counts a rep; otherwise nothing changes |
| CurlApp.CurlCountsTransitions | app.py:100-112 | a rep is counted exactly on a down-to-up transition, and a counter grows by at most one per frame |
| CurlApp.CurlRunBounds | app.py:100-112 | over a run, each counter never decreases, grows by at most one per frame, and counts no more reps than there were extensions |
| CurlApp.DistanceFeedback | app.py:114-126 | "Too Close" iff the scale is above 1.1, "Too Far" iff it is below 1, and "Good Distance" otherwise |
| CurlApp.JumpLine | app.py:139 | the jump line is `int(2h/5) - 30` |
| CurlApp.SitLine | app.py:138 | the sit line is `int(2h/3) - 30` |
| CurlApp.JumpLineAboveSitLine | app.py:138-139 | the jump line is never below the sit line |
| CurlApp.VerticalStatus | app.py:143-150 | Jump iff the nose is above the jump line; Sit iff not Jump and below the sit line; Stand otherwise |
| CurlApp.VerticalStatusMonotone | app.py:143-150 | a lower nose never reads as higher |
| CurlApp.PressStep | app.py:156-166 | up is pressed iff the status changed to Jump, and down iff it changed to Sit, in both cases only once started and not stopped |
| CurlApp.SteadyStatusPressesOnce | app.py:156-166 | holding one status presses at most once, and never if it was already the last status acted on |
| CurlApp.Step | app.py:68-166 | a frame without a pose changes nothing; otherwise the latch, both arms, the feedback, the status and the press follow their rules |
| CurlApp.RunMonotone | app.py:89-112 | over any run, a started game stays started, the stop flag never changes, and both counters grow by at most one per frame |
| CurlApp.NoPressBeforeStart | app.py:89-166 | before the start pose is held, no key is pressed |
| GuardAnimation.ClipState | Tekken-main/Assets/Script/Manager/Guard_ani_Setting.cs:218-243 | the idle, sit, fwd, bwd and lay clips force idle, sit, forwardstep, backstep and lay; a dash or other clip keeps the state |
| GuardAnimation.AttackColliders | Tekken-main/Assets/Script/Manager/Guard_ani_Setting.cs:262-280 | a hand attack outside a dash enables the hand colliders and leaves the kick ones; a kick attack enables the kick colliders; otherwise all four are off |
| GuardAnimation.KeyedState | Tekken-main/Assets/Script/Manager/Guard_ani_Setting.cs:335-465 | a pressed K or J gives `K_attack`; otherwise a pressed I or U gives `H_attack`; otherwise holding D gives forwardstep; otherwise the state is kept |
| GuardAnimation.Update | Tekken-main/Assets/Script/Manager/Guard_ani_Setting.cs:200-308 | in GameStart: look-at iff idle/sit/forwardstep/backstep; wall rotated iff lay or Floating; `Hit_possible` iff not backstep; colliders from the clip-adjusted state; then the key helpers set the state. Outside GameStart the state goes to idle, and in KO every collider is off |
| GuardAnimation.CollidersNeedAttackKey | Tekken-main/Assets/Script/Manager/Guard_ani_Setting.cs:200-308 | over any run of frames, a guard that starts out not attacking with every hit collider off stays so unless an attack key is pressed during the match or a replay dispatches a recorded attack; the frames here are the guard script's own, so the second case lies outside the lemma (see Left out) |
| GuardAnimation.UpdateKeepsCalm | Tekken-main/Assets/Script/Manager/Guard_ani_Setting.cs:200-308 | one frame without an attack key keeps a guard that is not attacking, with its colliders off, in that condition |
| GuardAnimation.JabArmsHands | Tekken-main/Assets/Script/Manager/Guard_ani_Setting.cs:262-266 | a jab sets `H_attack` at once, and the next frame outside the forcing clips and dashes turns both hand colliders on |
| GuardAnimation.TakeHit | Tekken-main/Assets/Script/Manager/Guard_ani_Setting.cs:95-184 | the guard is Floating afterwards iff it was already or was hit by an upper hand attack; it is launched iff not yet floating; a floating guard is juggled by any attack |
| GuardAnimation.Collide | Tekken-main/Assets/Script/Manager/Guard_ani_Setting.cs:310-324 | ground contact resets the special state and both floating flags; any other collision changes nothing |
| GuardAnimation.FloatingIffLaunchedSinceGround | Tekken-main/Assets/Script/Manager/Guard_ani_Setting.cs:108-123 | after any run of hits and collisions, the guard floats iff it was launched, or already floating, with no ground contact since |
| GuardAnimation.RunAirKeepsFloatConsistent | Tekken-main/Assets/Script/Manager/Guard_ani_Setting.cs:310-324 | `isfloating` and the animator's `Floating` bool stay in step with the special state |

## Left out

- Sockets, `settimeout`, `recv` and `accept`, threads, the lock and the signal handlers in `server.py` are I/O and concurrency. A handler is modelled as a sequence of read outcomes, and clean-up and `stop` as sequential state updates.
- PoseServer.Receive: a failing `client_socket.send` is not modelled. In the source it raises, and the `except Exception` at server.py:101-103 breaks the loop, so the records still waiting in that batch and the buffer are discarded and the handler cleans up. The model treats every send as successful and always handles every complete record. The same exit follows other exceptions, for example text that does not decode.
- `json.loads` and `json.dumps` are a foreign library. They enter as the `decode` and `encode` parameters.
- The bytes-to-text decoding of received data is left out. Data arrives as text.
- The logging and `print` calls, `Debug.Log` and `Debug.LogWarning` only report and are left out.
- Floating-point rounding is left out. Times, angles, distances and axis readings are exact reals.
- Unity's runtime is left out: Animator, Rigidbody, AudioSource, `transform.Find`, `Input.*` polling (a key poll and axis readings are inputs), and coroutines. The coroutines include `ResetAttackAnimation`, `SimulateKeyPress`, `Delay`, `FloatingColliderdelay` and `ExecuteForDuration`.
- `ReplaySystem.SimulateInput` only logs and starts an empty coroutine, so the model returns the dispatched events instead.
- The walk, step, jump, sit and attack helpers of `Guard_ani_Setting.cs` (lines 327-465) drive the Animator and physics. Only their effect on the state enters `GuardAnimation.Update`: holding D walks forward, and an attack key sets its attack state.
- GuardAnimation.CollidersNeedAttackKey: `G_A_T` is a static field (Tekken-main/Assets/Script/Manager/Guard_ani_Setting.cs:38) that the replayer also writes between frames: a replayed Jab or Kick sets the attack states (Tekken-main/Assets/Script/FightingGameReplaySystem.cs:174, 178), a replayed D/A/S/W sets a movement state (194-203), and the end of a replayed animation and `ResetAllAnimationStates` set idle (217, 235). The model keeps the replayer's `Fighter.state` apart from `Guard.state`, so the lemma covers only runs in which no replay dispatches a recorded attack; a replayed attack can turn the hit colliders on without any attack key being pressed.
- GuardAnimation.Update: only the first loop step of `ExecuteForDuration` is modelled, the one that runs inside the `StartCoroutine` call. The later steps keep setting the attack state after each frame's `Update` for 0.2 s of frame time, and they are not modelled, because the model has no coroutine scheduler or frame clock.
- `GameManager` and the attacker's script are not part of this model. The match phase (`GamePhase`) and the attacker's move and `upper` flag (`AttackerMove`) are inputs.
- The enumeration order of the `attackAnimations` dictionary is taken to be its insertion order (I, U, K, J).
- `InputCapture.GetInputBuffer` returns the live list in the source. The model has value semantics and returns the buffer, so aliasing is left out.
- MediaPipe, OpenCV capture and drawing, `pyautogui`, `arctan2`, `linalg.norm` and `math.sqrt` are left out. Angles, the wrist distance, the shoulder distance, landmark pixels and the nose height are inputs.
- `get_initial_shoulder_coordinates` is left out. It reads landmarks and draws, and contains no decision.
- `game_stop` is never set to true in `app.py`. The model keeps it as a flag that no step changes.
- `PlayerMovement.cs`, `src/exception.py`, `src/logger.py`, `src/utils.py` and `test.py` are not part of this model. They hold transform translation, traceback formatting, log and config file I/O, and shared-memory reads.
