/** The sniper: Idle until the player is within range, then Aiming with the
    laser on, firing once the aim time has passed, then Cooldown until it
    may aim again. It stops while the match is not Playing or the player is
    dead, and falls back to Idle whenever the player is out of range. */
module SniperController {
  import opened Common
  import opened GameManager

  datatype SniperState = Idle | Aiming | Cooldown

  datatype Settings = Settings(aimDuration: real, cooldownTime: real, detectionRange: real, hasLaser: bool)

  const DefaultAimDuration: real := 0.3
  const DefaultCooldownTime: real := 3.0
  const DefaultDetectionRange: real := 50.0

  /** `laserEnabled` is the laser line's flag; it stays false without one. */
  datatype Sniper = Sniper(state: SniperState, stateTimer: real, laserEnabled: bool)

  /** What the sniper learns in one frame: whether a player was found, the
      match state when a manager exists, whether the player's health reports
      dead, the distance to the player, and the frame time. */
  datatype Sight = Sight(playerFound: bool, game: Option<GameState>, playerDead: bool, distance: real, dt: real)

  /** The sniper's frame result and whether it fired. */
  datatype Frame = Frame(sniper: Sniper, shot: bool)

  function Start(): (s: Sniper)
    ensures s.state == Idle && !s.laserEnabled
  {
    Sniper(Idle, 0.0, false)
  }

  function SetLaser(cfg: Settings, s: Sniper, on: bool): Sniper {
    if cfg.hasLaser then s.(laserEnabled := on) else s
  }

  /** The laser is lit only while aiming, and never without a laser line. */
  predicate LaserInv(cfg: Settings, s: Sniper) {
    (s.laserEnabled ==> s.state == Aiming) && (!cfg.hasLaser ==> !s.laserEnabled)
  }

  function StartAiming(cfg: Settings, s: Sniper): (r: Sniper)
    ensures r.state == Aiming && r.stateTimer == 0.0
    ensures cfg.hasLaser ==> r.laserEnabled
  {
    SetLaser(cfg, Sniper(Aiming, 0.0, s.laserEnabled), true)
  }

  function Shoot(cfg: Settings, s: Sniper): (r: Frame)
    ensures r.shot && r.sniper.state == Cooldown && r.sniper.stateTimer == 0.0
    ensures cfg.hasLaser ==> !r.sniper.laserEnabled
  {
    Frame(SetLaser(cfg, Sniper(Cooldown, 0.0, s.laserEnabled), false), true)
  }

  function UpdateAiming(cfg: Settings, s: Sniper, dt: real): (r: Frame)
    ensures r.shot <==> s.stateTimer + dt >= cfg.aimDuration
    ensures !r.shot ==> r.sniper == s.(stateTimer := s.stateTimer + dt)
  {
    var timed := s.(stateTimer := s.stateTimer + dt);
    if timed.stateTimer >= cfg.aimDuration then Shoot(cfg, timed) else Frame(timed, false)
  }

  function UpdateCooldown(cfg: Settings, s: Sniper, dt: real): (r: Sniper)
    ensures r.stateTimer == s.stateTimer + dt && r.laserEnabled == s.laserEnabled
    ensures r.state == (if s.stateTimer + dt >= cfg.cooldownTime then Idle else s.state)
  {
    var timed := s.(stateTimer := s.stateTimer + dt);
    if timed.stateTimer >= cfg.cooldownTime then timed.(state := Idle) else timed
  }

  function Update(cfg: Settings, s: Sniper, sight: Sight): (r: Frame)
    ensures r.shot ==> s.state == Aiming && r.sniper.state == Cooldown && r.sniper.stateTimer == 0.0
    ensures !sight.playerFound ==> r == Frame(s, false)
    ensures sight.playerFound && ((sight.game.Some? && sight.game.value != Playing) || sight.playerDead) ==>
      && !r.shot && r.sniper.state == s.state && r.sniper.stateTimer == s.stateTimer
      && (cfg.hasLaser ==> !r.sniper.laserEnabled)
    ensures sight.playerFound && (sight.game.None? || sight.game.value == Playing) && !sight.playerDead ==>
      && (sight.distance > cfg.detectionRange ==> r.sniper.state == Idle && !r.shot)
      && (sight.distance <= cfg.detectionRange && s.state == Idle ==>
            r.sniper.state == Aiming && r.sniper.stateTimer == 0.0 && !r.shot
            && (cfg.hasLaser ==> r.sniper.laserEnabled))
      && (sight.distance <= cfg.detectionRange && s.state == Aiming ==>
            (r.shot <==> s.stateTimer + sight.dt >= cfg.aimDuration)
            && (!r.shot ==> r.sniper.state == Aiming && r.sniper.stateTimer == s.stateTimer + sight.dt))
      && (sight.distance <= cfg.detectionRange && s.state == Cooldown ==>
            !r.shot && r.sniper.stateTimer == s.stateTimer + sight.dt
            && (r.sniper.state == Idle <==> s.stateTimer + sight.dt >= cfg.cooldownTime)
            && (r.sniper.state != Idle ==> r.sniper.state == Cooldown))
    ensures LaserInv(cfg, s) ==> LaserInv(cfg, r.sniper)
  {
    if !sight.playerFound then Frame(s, false)
    else if sight.game.Some? && sight.game.value != Playing then Frame(SetLaser(cfg, s, false), false)
    else if sight.playerDead then Frame(SetLaser(cfg, s, false), false)
    else if sight.distance > cfg.detectionRange then Frame(SetLaser(cfg, s.(state := Idle), false), false)
    else
      match s.state
      case Idle => Frame(StartAiming(cfg, s), false)
      case Aiming => UpdateAiming(cfg, s, sight.dt)
      case Cooldown => Frame(UpdateCooldown(cfg, s, sight.dt), false)
  }

  /** Frames in order, counting shots and the frames that started an aim. */
  datatype Tally = Tally(sniper: Sniper, shots: nat, aimStarts: nat)

  function Run(cfg: Settings, s: Sniper, sights: seq<Sight>): Tally
    decreases |sights|
  {
    if sights == [] then Tally(s, 0, 0)
    else
      var f := Update(cfg, s, sights[0]);
      var started := if s.state != Aiming && f.sniper.state == Aiming then 1 else 0;
      var rest := Run(cfg, f.sniper, sights[1..]);
      Tally(rest.sniper, rest.shots + (if f.shot then 1 else 0), rest.aimStarts + started)
  }

  function AimingBit(s: Sniper): nat {
    if s.state == Aiming then 1 else 0
  }

  /** One shot per aiming episode: over any run, the shots fired never
      outnumber the aims started (plus the one under way at the start), and
      an episode still under way at the end has not fired yet. */
  lemma {:induction false} OneShotPerAim(cfg: Settings, s: Sniper, sights: seq<Sight>)
    ensures Run(cfg, s, sights).shots + AimingBit(Run(cfg, s, sights).sniper)
            <= Run(cfg, s, sights).aimStarts + AimingBit(s)
    decreases |sights|
  {
    if sights != [] {
      OneShotPerAim(cfg, Update(cfg, s, sights[0]).sniper, sights[1..]);
    }
  }

  /** The laser invariant holds from the start and across any run. */
  lemma {:induction false} LaserOnlyWhileAiming(cfg: Settings, sights: seq<Sight>)
    ensures LaserInv(cfg, Run(cfg, Start(), sights).sniper)
  {
    RunKeepsLaserInv(cfg, Start(), sights);
  }

  lemma {:induction false} RunKeepsLaserInv(cfg: Settings, s: Sniper, sights: seq<Sight>)
    requires LaserInv(cfg, s)
    ensures LaserInv(cfg, Run(cfg, s, sights).sniper)
    decreases |sights|
  {
    if sights != [] {
      RunKeepsLaserInv(cfg, Update(cfg, s, sights[0]).sniper, sights[1..]);
    }
  }
}
