/**
 The per-frame decision rules of the guard fighter (Guard_ani_Setting.cs):
 which state the look-at component, the four attack colliders, the wall
 hit-box and the `Hit_possible` animator flag end up in, and how the
 `Floating` special state is entered on an upper hit and left on touching
 the ground, and what the frame's keys do to the state. Animator, physics,
 audio and the later steps of coroutines are not modelled; the animator's
 current clip, the match phase and the key poll are inputs.
 */
module GuardAnimation {
  import opened UnityInput

  /** `ani_state`: what the fighter is doing (the static `G_A_T`). */
  datatype AniState =
    | Idle | ForwardStep | BackStep | Sit | Jump | Lay | Guard
    | HAttack | KAttack | HitHand | HitKick | Upper

  /** `special_state` (the static `G_S_T`). */
  datatype SpecialState = SpecialIdle | SpecialUpper | Floating | SpecialAttack

  /** The match phase kept by the game manager; only the two phases the
      rules test for are distinguished. */
  datatype GamePhase = GameStart | KO | OtherPhase

  /** The animator's current clip on layer 0, as far as `IsName` tests it. */
  datatype Clip = ClipIdle | ClipSit | ClipFwd | ClipBwd | ClipLay | ClipDash | ClipOther

  /** The hand and kick hit colliders. */
  datatype Colliders = Colliders(handR: bool, handL: bool, kickR: bool, kickL: bool)

  const AllOff: Colliders := Colliders(false, false, false, false)

  /** Everything the rules read or write. `wallEnabled` is the
      `G_Wall_hit` collider, `wallRotated` its lying/floating pose,
      `floatingAnim` the animator's `Floating` bool. */
  datatype Guard = Guard(
    state: AniState,
    special: SpecialState,
    lookAt: bool,
    colliders: Colliders,
    wallEnabled: bool,
    wallRotated: bool,
    hitPossible: bool,
    isFloating: bool,
    floatingAnim: bool)

  /** States in which the fighter turns to face the opponent. */
  predicate FacesOpponent(s: AniState)
  {
    s == Idle || s == Sit || s == ForwardStep || s == BackStep
  }

  /** The clip checks of `Update`: some clips force the matching state. */
  function ClipState(s: AniState, clip: Clip): (r: AniState)
    ensures clip == ClipIdle ==> r == Idle
    ensures clip == ClipSit ==> r == Sit
    ensures clip == ClipFwd ==> r == ForwardStep
    ensures clip == ClipBwd ==> r == BackStep
    ensures clip == ClipLay ==> r == Lay
    ensures clip == ClipDash || clip == ClipOther ==> r == s
  {
    match clip
    case ClipIdle => Idle
    case ClipSit => Sit
    case ClipFwd => ForwardStep
    case ClipBwd => BackStep
    case ClipLay => Lay
    case _ => s
  }

  /** Collider switching for a state: a hand attack outside a dash turns the
      hand colliders on and leaves the kick ones as they were, a kick attack
      outside a dash the reverse; anything else turns all four off. */
  function AttackColliders(prev: Colliders, s: AniState, clip: Clip): (r: Colliders)
    ensures s == HAttack && clip != ClipDash ==> r.handR && r.handL && r.kickR == prev.kickR && r.kickL == prev.kickL
    ensures s == KAttack && clip != ClipDash ==> r.kickR && r.kickL && r.handR == prev.handR && r.handL == prev.handL
    ensures (s != HAttack && s != KAttack) || clip == ClipDash ==> r == AllOff
  {
    if s == HAttack && clip != ClipDash then prev.(handR := true, handL := true)
    else if s == KAttack && clip != ClipDash then prev.(kickR := true, kickL := true)
    else AllOff
  }

  /** The two attack states. */
  predicate IsAttack(s: AniState)
  {
    s == HAttack || s == KAttack
  }

  /** Whether one of the attack keys I, U, K, J went down this frame. */
  predicate AttackPressed(keys: KeyPoll)
  {
    KeyI in keys.down || KeyU in keys.down || KeyK in keys.down || KeyJ in keys.down
  }

  /** The state after the key helpers that `Update` calls last. Holding D
      walks forward. A pressed attack key starts `ExecuteForDuration`,
      whose first loop step runs before `StartCoroutine` returns and sets
      the attack state at once; I and U are jabs, K and J kicks, and they
      are polled in that order, so a kick pressed together with a jab wins.
      A, S and W only drive animator flags. */
  function KeyedState(s: AniState, keys: KeyPoll): (r: AniState)
    ensures KeyK in keys.down || KeyJ in keys.down ==> r == KAttack
    ensures !(KeyK in keys.down || KeyJ in keys.down) && (KeyI in keys.down || KeyU in keys.down) ==> r == HAttack
    ensures !AttackPressed(keys) && KeyD in keys.held ==> r == ForwardStep
    ensures !AttackPressed(keys) && KeyD !in keys.held ==> r == s
  {
    var walked := if KeyD in keys.held then ForwardStep else s;
    var rightJab := if KeyI in keys.down then HAttack else walked;
    var leftJab := if KeyU in keys.down then HAttack else rightJab;
    var rightKick := if KeyK in keys.down then KAttack else leftJab;
    if KeyJ in keys.down then KAttack else rightKick
  }

  /** One call of `Update` with this frame's key poll. */
  function Update(g: Guard, phase: GamePhase, clip: Clip, keys: KeyPoll): (r: Guard)
    ensures phase == GameStart ==> (r.lookAt <==> FacesOpponent(g.state))
    ensures phase == GameStart ==>
              var s := ClipState(g.state, clip);
              && (r.wallRotated <==> (s == Lay || g.special == Floating))
              && (r.hitPossible <==> s != BackStep)
              && r.colliders == AttackColliders(g.colliders, s, clip)
              && r.state == KeyedState(s, keys)
    ensures phase == GameStart && clip == ClipIdle ==> r.wallEnabled
    ensures phase == GameStart && clip == ClipLay ==> !r.wallEnabled
    ensures phase != GameStart ==> r.state == Idle && r.lookAt == g.lookAt && r.wallRotated == g.wallRotated
    ensures phase == KO ==> r.colliders == AllOff
    ensures phase == OtherPhase ==> r.colliders == g.colliders
    ensures r.special == g.special && r.isFloating == g.isFloating && r.floatingAnim == g.floatingAnim
  {
    if phase == GameStart then
      var lookAt := FacesOpponent(g.state);
      var s := ClipState(g.state, clip);
      var wallEnabled := if clip == ClipIdle then true else if clip == ClipLay then false else g.wallEnabled;
      var wallRotated := s == Lay || g.special == Floating;
      var colliders := AttackColliders(g.colliders, s, clip);
      var hitPossible := s != BackStep;
      g.(state := KeyedState(s, keys), lookAt := lookAt, colliders := colliders, wallEnabled := wallEnabled,
         wallRotated := wallRotated, hitPossible := hitPossible)
    else
      var g' := g.(state := Idle);
      if phase == KO then g'.(colliders := AllOff) else g'
  }

  /** What one frame hands to `Update`. */
  datatype Frame = Frame(phase: GamePhase, clip: Clip, keys: KeyPoll)

  /** The guard after a run of frames, in order. */
  function RunFrames(g: Guard, frames: seq<Frame>): Guard
    decreases |frames|
  {
    if frames == [] then g
    else
      var f := frames[|frames| - 1];
      Update(RunFrames(g, frames[..|frames| - 1]), f.phase, f.clip, f.keys)
  }

  /** Not attacking and every hit collider off. */
  predicate Calm(g: Guard)
  {
    !IsAttack(g.state) && g.colliders == AllOff
  }

  /** Whether some frame of the match pressed an attack key. */
  predicate AttackKeyInMatch(frames: seq<Frame>)
  {
    exists i :: 0 <= i < |frames| && frames[i].phase == GameStart && AttackPressed(frames[i].keys)
  }

  /** No clip check and no movement key produces an attack state, so in
      this script's own frames a hit collider can only come on after an
      attack key was pressed during the match: a calm guard stays calm over
      any run of frames without one. The replayer also writes the shared
      attack state between frames; those writes are not frames here, so
      this covers runs in which no replay dispatches a recorded attack. */
  lemma {:induction false} CollidersNeedAttackKey(g: Guard, frames: seq<Frame>)
    requires Calm(g)
    ensures Calm(RunFrames(g, frames)) || AttackKeyInMatch(frames)
    decreases |frames|
  {
    if frames != [] {
      var n := |frames| - 1;
      var init := frames[..n];
      CollidersNeedAttackKey(g, init);
      if AttackKeyInMatch(init) {
        var i :| 0 <= i < |init| && init[i].phase == GameStart && AttackPressed(init[i].keys);
        assert frames[i] == init[i];
      } else if frames[n].phase == GameStart && AttackPressed(frames[n].keys) {
        assert AttackKeyInMatch(frames);
      } else {
        UpdateKeepsCalm(RunFrames(g, init), frames[n]);
      }
    }
  }

  /** One frame without an attack key keeps a calm guard calm. */
  lemma UpdateKeepsCalm(g: Guard, f: Frame)
    requires Calm(g)
    requires f.phase == GameStart ==> !AttackPressed(f.keys)
    ensures Calm(Update(g, f.phase, f.clip, f.keys))
  {
    if f.phase == GameStart {
      var s := ClipState(g.state, f.clip);
      assert !IsAttack(s);
    }
  }

  /** A jab pressed during the match arms the hand colliders on the next
      frame, unless the animator is in one of the clips that force a state
      or in a dash. */
  lemma JabArmsHands(g: Guard, keys: KeyPoll, next: KeyPoll)
    requires KeyI in keys.down || KeyU in keys.down
    requires KeyK !in keys.down && KeyJ !in keys.down
    ensures var g1 := Update(g, GameStart, ClipOther, keys);
            g1.state == HAttack
            && Update(g1, GameStart, ClipOther, next).colliders.handR
            && Update(g1, GameStart, ClipOther, next).colliders.handL
  {
  }

  /** Where the guard was hit (`Head_hit` or `Middle_hit`). */
  datatype HitZone = Head | Middle

  /** The attacker's `ani_state` as far as the hit handlers test it. */
  datatype AttackerMove = HandAttack | KickAttack | OtherMove

  /** The visible reaction: none, the juggle of an already floating guard
      (`floatingHit`), or being launched by an upper (`Upperhit`). */
  datatype Reaction = NoReaction | AirHit | Launched

  datatype HitOutcome = HitOutcome(guard: Guard, reaction: Reaction)

  /** A hit animation event. Head and middle hits take the same decisions
      (they differ only in the sound played): a hand attack juggles a
      floating guard, and a hand attack that is an upper launches a guard
      that is not floating yet; a kick only juggles a floating guard. */
  function TakeHit(g: Guard, zone: HitZone, move: AttackerMove, attackerUpper: bool): (r: HitOutcome)
    ensures r.guard.special == Floating <==> (g.special == Floating || (move == HandAttack && attackerUpper))
    ensures r.reaction == Launched <==> (move == HandAttack && attackerUpper && g.special != Floating)
    ensures r.reaction == AirHit <==> (g.special == Floating && move != OtherMove)
    ensures r.guard.special != g.special ==> r.reaction == Launched
    ensures r.guard.state == g.state && r.guard.colliders == g.colliders
  {
    match move
    case HandAttack =>
      if g.special == Floating then HitOutcome(g, AirHit)
      else if attackerUpper then
        HitOutcome(g.(special := Floating, isFloating := true, floatingAnim := true), Launched)
      else HitOutcome(g, NoReaction)
    case KickAttack =>
      if g.special == Floating then HitOutcome(g, AirHit) else HitOutcome(g, NoReaction)
    case OtherMove => HitOutcome(g, NoReaction)
  }

  /** `OnCollisionEnter`: touching the ground ends floating; any other
      collision changes nothing. */
  function Collide(g: Guard, ground: bool): (r: Guard)
    ensures ground ==> r.special == SpecialIdle && !r.isFloating && !r.floatingAnim
    ensures !ground ==> r == g
    ensures r.state == g.state && r.colliders == g.colliders
  {
    if ground then g.(isFloating := false, floatingAnim := false, special := SpecialIdle) else g
  }

  /** The events that move the special state. */
  datatype AirEvent = Hit(zone: HitZone, move: AttackerMove, upper: bool) | Touch(ground: bool)

  function ApplyAir(g: Guard, e: AirEvent): Guard
  {
    match e
    case Hit(zone, move, upper) => TakeHit(g, zone, move, upper).guard
    case Touch(ground) => Collide(g, ground)
  }

  /** The guard after a run of hit and collision events, applied in order. */
  function RunAir(g: Guard, events: seq<AirEvent>): Guard
    decreases |events|
  {
    if events == [] then g else ApplyAir(RunAir(g, events[..|events| - 1]), events[|events| - 1])
  }

  predicate IsLaunch(e: AirEvent) { e.Hit? && e.move == HandAttack && e.upper }
  predicate IsGround(e: AirEvent) { e.Touch? && e.ground }

  /** No ground contact after position `i`. */
  predicate NoGroundAfter(events: seq<AirEvent>, i: int)
  {
    forall j :: 0 <= j < |events| && i < j ==> !IsGround(events[j])
  }

  /** The guard is floating at the end exactly when an upper hand hit
      happened with no ground contact after it, or it was floating already
      and never touched the ground. */
  lemma {:induction false} FloatingIffLaunchedSinceGround(g: Guard, events: seq<AirEvent>)
    ensures RunAir(g, events).special == Floating <==>
              || (exists i :: 0 <= i < |events| && IsLaunch(events[i]) && NoGroundAfter(events, i))
              || (g.special == Floating && NoGroundAfter(events, -1))
    decreases |events|
  {
    if events != [] {
      var n := |events| - 1;
      var init := events[..n];
      var e := events[n];
      FloatingIffLaunchedSinceGround(g, init);
      assert forall j :: 0 <= j < n ==> init[j] == events[j];
      if IsGround(e) {
        assert !NoGroundAfter(events, -1);
        assert forall i :: 0 <= i < n ==> !NoGroundAfter(events, i);
      } else if IsLaunch(e) {
        assert NoGroundAfter(events, n);
      } else {
        assert forall i :: -1 <= i < n ==> (NoGroundAfter(events, i) <==> NoGroundAfter(init, i));
      }
    }
  }

  /** `isfloating` and the `Floating` animator flag track the special state:
      hits and collisions keep them in step with `special == Floating`. */
  predicate FloatConsistent(g: Guard)
  {
    g.isFloating == (g.special == Floating) && g.floatingAnim == (g.special == Floating)
  }

  lemma {:induction false} RunAirKeepsFloatConsistent(g: Guard, events: seq<AirEvent>)
    requires FloatConsistent(g)
    ensures FloatConsistent(RunAir(g, events))
    decreases |events|
  {
    if events != [] {
      RunAirKeepsFloatConsistent(g, events[..|events| - 1]);
    }
  }
}
