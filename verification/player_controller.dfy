/** The player's vertical motion: the ground check, the jump and the double
    jump, gravity capped at a terminal fall speed, and the landing event.
    Horizontal movement is physics and is reduced to whether it ran. The
    ground check's sphere cast is a parameter. */
module PlayerController {
  import opened Common
  import opened GameManager

  datatype Settings = Settings(jumpForce: real, gravity: real, maxFallSpeed: real)

  const DefaultMoveSpeed: real := 5.0
  const DefaultSprintMultiplier: real := 1.5
  const DefaultJumpForce: real := 8.0
  const DefaultGravity: real := -35.0
  const DefaultMaxFallSpeed: real := -50.0
  /** Downward speed kept while standing on the ground. */
  const GroundedSpeed: real := -2.0

  /** `vy` is the vertical velocity. */
  datatype Motor = Motor(vy: real, isGrounded: bool, wasGrounded: bool, canDoubleJump: bool)

  datatype Jump = NoJump | GroundJump | AirJump

  /** One frame's sensing and input: whether the ground sphere touches
      ground, the match state when a manager exists, whether Jump was
      pressed, and the frame time. */
  datatype FrameInput = FrameInput(groundHit: bool, game: Option<GameState>, jumpPressed: bool, dt: real)

  /** The frame result: the motor, whether horizontal movement ran, which
      jump was taken, and whether the landing effect fired. */
  datatype Frame = Frame(motor: Motor, moved: bool, jump: Jump, landed: bool)

  function Start(): (m: Motor)
    ensures !m.isGrounded && !m.wasGrounded && !m.canDoubleJump && m.vy == 0.0
  {
    Motor(0.0, false, false, false)
  }

  /** Touching ground while moving down pins the speed and re-arms the
      double jump; nothing else re-arms it. */
  function CheckGround(m: Motor, groundHit: bool): (r: Motor)
    ensures r.isGrounded == groundHit && r.wasGrounded == m.wasGrounded
    ensures groundHit && m.vy < 0.0 ==> r.vy == GroundedSpeed && r.canDoubleJump
    ensures !(groundHit && m.vy < 0.0) ==> r.vy == m.vy && r.canDoubleJump == m.canDoubleJump
  {
    var m' := m.(isGrounded := groundHit);
    if groundHit && m.vy < 0.0 then m'.(vy := GroundedSpeed, canDoubleJump := true) else m'
  }

  function DoJump(cfg: Settings, m: Motor, pressed: bool): (r: (Motor, Jump))
    ensures !pressed ==> r == (m, NoJump)
    ensures pressed && m.isGrounded ==> r == (m.(vy := cfg.jumpForce, canDoubleJump := true), GroundJump)
    ensures pressed && !m.isGrounded && m.canDoubleJump ==>
      r == (m.(vy := cfg.jumpForce, canDoubleJump := false), AirJump)
    ensures pressed && !m.isGrounded && !m.canDoubleJump ==> r == (m, NoJump)
  {
    if !pressed then (m, NoJump)
    else if m.isGrounded then (m.(vy := cfg.jumpForce, canDoubleJump := true), GroundJump)
    else if m.canDoubleJump then (m.(vy := cfg.jumpForce, canDoubleJump := false), AirJump)
    else (m, NoJump)
  }

  function ApplyGravity(cfg: Settings, m: Motor, dt: real): (r: Motor)
    ensures r.vy >= cfg.maxFallSpeed
    ensures m.vy + cfg.gravity * dt >= cfg.maxFallSpeed ==> r.vy == m.vy + cfg.gravity * dt
    ensures r == m.(vy := r.vy)
  {
    var vy := m.vy + cfg.gravity * dt;
    m.(vy := if vy < cfg.maxFallSpeed then cfg.maxFallSpeed else vy)
  }

  function CheckLanding(m: Motor): (r: (Motor, bool))
    ensures r.1 <==> !m.wasGrounded && m.isGrounded
    ensures r.0 == m.(wasGrounded := m.isGrounded)
  {
    (m.(wasGrounded := m.isGrounded), !m.wasGrounded && m.isGrounded)
  }

  /** One frame, in the order the controller runs it: ground check, then
      movement and jump only while a manager reports Playing, then gravity
      and the landing check. */
  function Update(cfg: Settings, m: Motor, input: FrameInput): (r: Frame)
    ensures r.motor.vy >= cfg.maxFallSpeed
    ensures r.moved <==> input.game == Some(Playing)
    ensures r.jump != NoJump ==> input.jumpPressed && input.game == Some(Playing)
    ensures r.jump == GroundJump <==> input.jumpPressed && input.game == Some(Playing) && input.groundHit
    ensures r.jump == AirJump ==> !input.groundHit && m.canDoubleJump && !r.motor.canDoubleJump
    ensures r.motor.canDoubleJump && !m.canDoubleJump ==> input.groundHit
    ensures r.motor.isGrounded == input.groundHit && r.motor.wasGrounded == input.groundHit
    ensures r.landed <==> !m.wasGrounded && input.groundHit
  {
    var grounded := CheckGround(m, input.groundHit);
    var playing := input.game == Some(Playing);
    var jumped := if playing then DoJump(cfg, grounded, input.jumpPressed) else (grounded, NoJump);
    var fallen := ApplyGravity(cfg, jumped.0, input.dt);
    var landing := CheckLanding(fallen);
    Frame(landing.0, playing, jumped.1, landing.1)
  }

  /** A trampoline's bounce: only the vertical speed changes. */
  function ForceJump(m: Motor, force: real): (r: Motor)
    ensures r.vy == force && r == m.(vy := force)
  {
    m.(vy := force)
  }

  // ---------------------------------------------------------------------
  // At most one air jump per ground contact

  function AirJumps(cfg: Settings, m: Motor, inputs: seq<FrameInput>): (r: (Motor, nat))
    decreases |inputs|
  {
    if inputs == [] then (m, 0)
    else
      var f := Update(cfg, m, inputs[0]);
      var rest := AirJumps(cfg, f.motor, inputs[1..]);
      (rest.0, rest.1 + if f.jump == AirJump then 1 else 0)
  }

  function Bit(b: bool): nat {
    if b then 1 else 0
  }

  /** While the ground is never touched, however often Jump is pressed, at
      most one air jump happens, and only if it was armed at the start. */
  lemma {:induction false} OneAirJumpPerContact(cfg: Settings, m: Motor, inputs: seq<FrameInput>)
    requires forall i :: 0 <= i < |inputs| ==> !inputs[i].groundHit
    ensures AirJumps(cfg, m, inputs).1 + Bit(AirJumps(cfg, m, inputs).0.canDoubleJump) <= Bit(m.canDoubleJump)
    decreases |inputs|
  {
    if inputs != [] {
      assert forall i :: 0 <= i < |inputs[1..]| ==> !inputs[1..][i].groundHit by {
        forall i | 0 <= i < |inputs[1..]| ensures !inputs[1..][i].groundHit {
          assert inputs[1..][i] == inputs[i + 1];
        }
      }
      OneAirJumpPerContact(cfg, Update(cfg, m, inputs[0]).motor, inputs[1..]);
    }
  }
}
