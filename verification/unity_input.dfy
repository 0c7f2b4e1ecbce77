/**
 The keyboard as the Unity scripts see it in one frame. The engine's
 `Input.GetKeyDown`, `Input.GetKeyUp` and `Input.GetKey` polls become a
 value passed to each per-frame step.
 */
module UnityInput {

  /** The key codes the scripts poll; `NoKey` is Unity's `KeyCode.None`. */
  datatype KeyCode = NoKey | KeyD | KeyA | KeyS | KeyW | KeyI | KeyU | KeyK | KeyJ | KeyR

  /** What the input system reports for one frame: keys pressed this
      frame, keys released this frame, and keys held down. */
  datatype KeyPoll = KeyPoll(down: set<KeyCode>, up: set<KeyCode>, held: set<KeyCode>)

  /** A frame in which nothing is pressed, released or held. */
  const Quiet: KeyPoll := KeyPoll({}, {}, {})

  /** The order in which the recorders poll the keys each frame:
      D, A, S, W, I, U, K, J. */
  function KeyRank(k: KeyCode): nat
  {
    match k
    case KeyD => 0
    case KeyA => 1
    case KeyS => 2
    case KeyW => 3
    case KeyI => 4
    case KeyU => 5
    case KeyK => 6
    case KeyJ => 7
    case KeyR => 8
    case NoKey => 9
  }
}
