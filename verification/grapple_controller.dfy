/** The grappling hook: a right-click that hits a grapple surface starts a
    pull toward the hit point; the pull stops on release, on Space, within
    two units of the point, after the grapple duration, or as soon as the
    match is no longer Playing. The raycast and the pull movement are
    physics: the hit point and the distance to it are parameters. */
module GrappleController {
  import opened Common
  import opened GameManager

  datatype Settings = Settings(grappleSpeed: real, grappleDuration: real, hasRope: bool)

  const DefaultGrappleRange: real := 30.0
  const DefaultGrappleSpeed: real := 20.0
  const DefaultGrappleDuration: real := 1.0
  /** Distance to the grapple point at which the pull lets go. */
  const ReleaseDistance: real := 2.0

  /** `ropeEnabled` is the rope line's flag; it stays false without one. */
  datatype Grapple = Grapple(isGrappling: bool, grapplePoint: Vec3, grappleTimer: real, ropeEnabled: bool)

  /** One frame of input: the match state when a manager exists; right
      button pressed, right button released, Space pressed; the raycast hit
      point within range on the grapple layer, if any; the distance from the
      player to the grapple point; the frame time. */
  datatype Input = Input(
    game: Option<GameState>,
    pressed: bool,
    released: bool,
    spacePressed: bool,
    hit: Option<Vec3>,
    distance: real,
    dt: real)

  /** The frame result and whether the player was pulled this frame. */
  datatype Frame = Frame(grapple: Grapple, pulled: bool)

  function Start(): (g: Grapple)
    ensures !g.isGrappling && !g.ropeEnabled
  {
    Grapple(false, Origin, 0.0, false)
  }

  function SetRope(cfg: Settings, g: Grapple, on: bool): Grapple {
    if cfg.hasRope then g.(ropeEnabled := on) else g
  }

  /** The rope is shown exactly while grappling, and never without a rope. */
  predicate RopeInv(cfg: Settings, g: Grapple) {
    (cfg.hasRope ==> (g.ropeEnabled <==> g.isGrappling)) && (!cfg.hasRope ==> !g.ropeEnabled)
  }

  /** Every frame leaves a grapple that still has time left. */
  predicate TimerInv(cfg: Settings, g: Grapple) {
    g.isGrappling ==> g.grappleTimer < cfg.grappleDuration
  }

  function StopGrapple(cfg: Settings, g: Grapple): (r: Grapple)
    ensures !r.isGrappling && r.grappleTimer == 0.0 && r.grapplePoint == g.grapplePoint
    ensures RopeInv(cfg, g) ==> RopeInv(cfg, r)
  {
    SetRope(cfg, g.(isGrappling := false, grappleTimer := 0.0), false)
  }

  /** A miss leaves everything as it was. */
  function StartGrapple(cfg: Settings, g: Grapple, hit: Option<Vec3>): (r: Grapple)
    ensures hit.None? ==> r == g
    ensures hit.Some? ==> r.isGrappling && r.grapplePoint == hit.value && r.grappleTimer == 0.0
    ensures hit.Some? && cfg.hasRope ==> r.ropeEnabled
    ensures hit.Some? ==> RopeInv(cfg, r) || !RopeInv(cfg, g)
  {
    if hit.Some? then SetRope(cfg, g.(grapplePoint := hit.value, isGrappling := true, grappleTimer := 0.0), true)
    else g
  }

  function HandleGrappleInput(cfg: Settings, g: Grapple, input: Input): (r: Grapple)
    ensures !g.isGrappling && !(input.pressed && input.hit.Some?) ==> r == g
    ensures r.isGrappling ==> !input.released && !input.spacePressed
    ensures r.isGrappling && !g.isGrappling ==> r.grappleTimer == 0.0 && r.grapplePoint == input.hit.value
    ensures r.isGrappling && g.isGrappling ==> r == g
    ensures RopeInv(cfg, g) ==> RopeInv(cfg, r)
  {
    var started := if input.pressed && !g.isGrappling then StartGrapple(cfg, g, input.hit) else g;
    if (input.released || input.spacePressed) && started.isGrappling then StopGrapple(cfg, started)
    else started
  }

  /** One frame of pulling: the timer advances; the pull moves the player
      while farther than the release distance and stops otherwise; then the
      grapple times out once the timer reaches the duration. */
  function ExecuteGrapple(cfg: Settings, g: Grapple, distance: real, dt: real): (r: Frame)
    requires g.isGrappling
    ensures r.pulled <==> distance > ReleaseDistance
    ensures r.grapple.isGrappling <==>
      distance > ReleaseDistance && g.grappleTimer + dt < cfg.grappleDuration
    ensures r.grapple.isGrappling ==> r.grapple.grappleTimer == g.grappleTimer + dt
    ensures TimerInv(cfg, r.grapple)
    ensures RopeInv(cfg, g) ==> RopeInv(cfg, r.grapple)
  {
    var timed := g.(grappleTimer := g.grappleTimer + dt);
    var pulled := distance > ReleaseDistance;
    var moved := if pulled then timed else StopGrapple(cfg, timed);
    var r := if moved.grappleTimer >= cfg.grappleDuration then StopGrapple(cfg, moved) else moved;
    Frame(r, pulled)
  }

  function Update(cfg: Settings, g: Grapple, input: Input): (r: Frame)
    ensures input.game.Some? && input.game.value != Playing ==>
      !r.grapple.isGrappling && !r.pulled
      && (g.isGrappling ==> r.grapple == StopGrapple(cfg, g))
      && (!g.isGrappling ==> r.grapple == g)
    ensures r.grapple.isGrappling && !g.isGrappling ==>
      input.pressed && input.hit.Some? && r.grapple.grapplePoint == input.hit.value
    ensures r.pulled ==> input.distance > ReleaseDistance
    ensures r.grapple.isGrappling ==> input.distance > ReleaseDistance && !input.released && !input.spacePressed
    ensures TimerInv(cfg, r.grapple)
    ensures RopeInv(cfg, g) ==> RopeInv(cfg, r.grapple)
  {
    if input.game.Some? && input.game.value != Playing then
      Frame(if g.isGrappling then StopGrapple(cfg, g) else g, false)
    else
      var handled := HandleGrappleInput(cfg, g, input);
      if handled.isGrappling then ExecuteGrapple(cfg, handled, input.distance, input.dt)
      else Frame(handled, false)
  }

  function Run(cfg: Settings, g: Grapple, inputs: seq<Input>): Grapple
    decreases |inputs|
  {
    if inputs == [] then g else Run(cfg, Update(cfg, g, inputs[0]).grapple, inputs[1..])
  }

  function TotalTime(inputs: seq<Input>): real
    decreases |inputs|
  {
    if inputs == [] then 0.0 else inputs[0].dt + TotalTime(inputs[1..])
  }

  /** A grapple lasts less than `grappleDuration` seconds of frame time:
      when no new grapple is started, a grapple still running after a run of
      frames has its timer equal to the time spent, below the duration. */
  lemma {:induction false} GrappleTimeIsBounded(cfg: Settings, g: Grapple, inputs: seq<Input>)
    requires g.isGrappling && TimerInv(cfg, g)
    requires Run(cfg, g, inputs).isGrappling
    requires forall i :: 0 <= i < |inputs| ==> !inputs[i].pressed
    ensures Run(cfg, g, inputs).grappleTimer == g.grappleTimer + TotalTime(inputs)
    ensures g.grappleTimer + TotalTime(inputs) < cfg.grappleDuration
    decreases |inputs|
  {
    if inputs != [] {
      var g' := Update(cfg, g, inputs[0]).grapple;
      if !g'.isGrappling {
        StoppedStaysStopped(cfg, g', inputs[1..]);
        assert false;
      }
      assert forall i :: 0 <= i < |inputs[1..]| ==> !inputs[1..][i].pressed by {
        forall i | 0 <= i < |inputs[1..]| ensures !inputs[1..][i].pressed {
          assert inputs[1..][i] == inputs[i + 1];
        }
      }
      GrappleTimeIsBounded(cfg, g', inputs[1..]);
    }
  }

  /** Without a press, a grapple that has stopped stays stopped. */
  lemma {:induction false} StoppedStaysStopped(cfg: Settings, g: Grapple, inputs: seq<Input>)
    requires !g.isGrappling
    requires forall i :: 0 <= i < |inputs| ==> !inputs[i].pressed
    ensures !Run(cfg, g, inputs).isGrappling
    decreases |inputs|
  {
    if inputs != [] {
      assert forall i :: 0 <= i < |inputs[1..]| ==> !inputs[1..][i].pressed by {
        forall i | 0 <= i < |inputs[1..]| ensures !inputs[1..][i].pressed {
          assert inputs[1..][i] == inputs[i + 1];
        }
      }
      StoppedStaysStopped(cfg, Update(cfg, g, inputs[0]).grapple, inputs[1..]);
    }
  }
}
