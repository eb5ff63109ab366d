/** The damage path as one scene: a bullet hit goes to the player's health
    latch, a death goes to the life counter, and a scheduled respawn later
    revives the player. The match manager is consulted but never changed by
    this path, not even when the last life is lost; that loss stops the
    scene's clock instead. */
module DamageChain {
  import opened Common
  import opened GameManager
  import PlayerHealth
  import LifeManager

  /** `position` and `characterController` are the player's transform and
      optional character controller, which a respawn moves to
      `respawnPosition`; `pendingRespawns` counts respawns whose delay has not
      yet elapsed; `lostPanelShown` records that the life counter asked for
      the game-over panel (shown only when a UI manager exists) and set the
      time scale to zero. */
  datatype World = World(
    game: Game,
    lives: LifeManager.Lives,
    health: PlayerHealth.Health,
    position: Vec3,
    characterController: Option<bool>,
    respawnPosition: Vec3,
    pendingRespawns: nat,
    lostPanelShown: bool)

  function Initial(game: Game, maxLives: int, hasController: bool, hasCharacterController: bool,
                   start: Vec3, respawnPosition: Vec3): World
  {
    World(game, LifeManager.Start(maxLives), PlayerHealth.Initial(hasController), start,
          if hasCharacterController then Some(true) else None, respawnPosition, 0, false)
  }

  /** A bullet reaches the player. */
  function BulletHit(w: World): (r: World)
    ensures r.game == w.game
    ensures w.health.isDead ==> r == w
    ensures w.game.state != Playing ==> r == w
    ensures !w.health.isDead && w.game.state == Playing ==>
      && r.health.isDead
      && r.lives.current == w.lives.current - 1
      && (r.lives.current > 0 ==> r.pendingRespawns == w.pendingRespawns + 1 && r.lostPanelShown == w.lostPanelShown)
      && (r.lives.current <= 0 ==> r.pendingRespawns == w.pendingRespawns && r.lostPanelShown)
  {
    var hit := PlayerHealth.TakeDamage(w.health, Some(w.game.state), true);
    if !hit.loseLife then w.(health := hit.health)
    else
      var loss := LifeManager.LoseLife(w.lives, Some(w.game.state));
      w.(health := hit.health,
         lives := loss.lives,
         pendingRespawns := w.pendingRespawns + if loss.outcome.RespawnScheduled? then 1 else 0,
         lostPanelShown := w.lostPanelShown || loss.outcome.LivesExhausted?)
  }

  /** A scheduled respawn's delay elapses: the life counter's respawn moves
      the player and revives its health. */
  function RespawnDue(w: World): (r: World)
    requires w.pendingRespawns > 0
    ensures !r.health.isDead && r.health == PlayerHealth.Respawn(w.health)
    ensures r.position == w.respawnPosition
    ensures r.characterController.Some? == w.characterController.Some?
    ensures w.characterController.Some? ==> r.characterController == Some(true)
    ensures r.pendingRespawns == w.pendingRespawns - 1
    ensures r.game == w.game && r.lives == w.lives && r.lostPanelShown == w.lostPanelShown
  {
    var p := LifeManager.RespawnPlayer(
      LifeManager.Player(w.position, w.characterController, Some(w.health)), w.respawnPosition);
    w.(health := p.health.value, position := p.position, characterController := p.characterController,
       pendingRespawns := w.pendingRespawns - 1)
  }

  datatype Event = BulletEvent | RespawnEvent | MatchEvent(cmd: Command)

  /** One event; a respawn event with nothing scheduled does nothing. Once
      the clear, the timeout or the life counter has stopped time, frames
      still run but with a zero frame time, while physics contacts (bullet
      hits, package pickups) and respawn delays, which run on scaled time, no
      longer happen. An ended match already ignores hits and frames. */
  function Step(w: World, e: Event): World {
    match e
    case BulletEvent => if w.lostPanelShown then w else BulletHit(w)
    case RespawnEvent =>
      if !w.lostPanelShown && w.game.state == Playing && w.pendingRespawns > 0 then RespawnDue(w) else w
    case MatchEvent(cmd) =>
      if !w.lostPanelShown then w.(game := Apply(w.game, cmd))
      else if cmd.TickCmd? then w.(game := Apply(w.game, TickCmd(0.0)))
      else w
  }

  function Run(w: World, es: seq<Event>): World
    decreases |es|
  {
    if es == [] then w else Run(Step(w, es[0]), es[1..])
  }

  /** What holds of the damage path in every reachable scene: lives stay in
      [0, max], at most one respawn waits, and the player is dead exactly
      while a respawn waits or no life is left, and the game-over panel has
      been shown only once no life is left. */
  ghost predicate ChainInv(w: World) {
    && w.lives.max >= 1
    && 0 <= w.lives.current <= w.lives.max
    && w.pendingRespawns <= 1
    && PlayerHealth.ControllerMatches(w.health)
    && (!w.health.isDead ==> w.pendingRespawns == 0 && w.lives.current >= 1)
    && (w.health.isDead ==>
          (w.pendingRespawns == 1 && w.lives.current >= 1) || (w.pendingRespawns == 0 && w.lives.current == 0))
    && (w.lostPanelShown ==> w.lives.current == 0)
  }

  lemma InitialSatisfiesChainInv(game: Game, maxLives: int, hasController: bool, hasCharacterController: bool,
                                 start: Vec3, respawnPosition: Vec3)
    requires maxLives >= 1
    ensures ChainInv(Initial(game, maxLives, hasController, hasCharacterController, start, respawnPosition))
  {
  }

  lemma StepPreservesChainInv(w: World, e: Event)
    requires ChainInv(w)
    ensures ChainInv(Step(w, e))
  {
  }

  /** With at least one life to start with, no sequence of hits, respawns,
      frames and collects drives the counter below zero or above its start. */
  lemma {:induction false} RunPreservesChainInv(w: World, es: seq<Event>)
    requires ChainInv(w)
    ensures ChainInv(Run(w, es))
    ensures 0 <= Run(w, es).lives.current <= w.lives.max
    decreases |es|
  {
    if es != [] {
      StepPreservesChainInv(w, es[0]);
      RunPreservesChainInv(Step(w, es[0]), es[1..]);
    }
  }

  /** Losing the last life while Playing kills the player for good and
      shows the panel, yet the match manager stays Playing. */
  lemma LastLifeLeavesMatchPlaying(w: World)
    requires ChainInv(w)
    requires w.game.state == Playing && !w.health.isDead && w.lives.current == 1
    ensures var r := BulletHit(w);
      && r.game.state == Playing
      && r.lives.current == 0
      && r.health.isDead
      && r.pendingRespawns == 0
      && r.lostPanelShown
  {
  }

  /** After the last life is gone no event brings the player back or takes
      another life. */
  lemma {:induction false} ExhaustedStaysExhausted(w: World, es: seq<Event>)
    requires ChainInv(w) && w.lives.current == 0
    ensures var r := Run(w, es);
      r.lives == w.lives && r.health.isDead && r.pendingRespawns == 0
    decreases |es|
  {
    if es != [] {
      StepPreservesChainInv(w, es[0]);
      ExhaustedStaysExhausted(Step(w, es[0]), es[1..]);
    }
  }

  /** Once the life counter has stopped time, a match that still has time on
      its clock (or has already ended) never changes again: frames pass with
      no time, and nothing else reaches the scene. */
  lemma {:induction false} LivesExhaustedFreezesScene(w: World, es: seq<Event>)
    requires w.lostPanelShown
    requires w.game.state == Playing ==> w.game.remainingTime > 0.0
    ensures Run(w, es) == w
    decreases |es|
  {
    if es != [] {
      assert Step(w, es[0]) == w;
      LivesExhaustedFreezesScene(w, es[1..]);
    }
  }

  /** With no lives configured (the inspector field is not checked), the
      first hit takes the counter to -1: the bound of the counter needs at
      least one life to start with. */
  lemma NoLivesConfiguredGoesNegative(game: Game, start: Vec3, respawnPosition: Vec3)
    requires game.state == Playing
    ensures var r := BulletHit(Initial(game, 0, true, true, start, respawnPosition));
      r.lives.current == -1 && r.health.isDead && r.lostPanelShown
  {
  }

  /** Once the match manager has ended the match (and stopped time), no event
      changes the scene: a respawn still pending after the clear or the
      timeout never revives the player. */
  lemma {:induction false} EndedMatchFreezesScene(w: World, es: seq<Event>)
    requires w.game.state != Playing
    ensures Run(w, es) == w
    decreases |es|
  {
    if es != [] {
      assert Step(w, es[0]) == w;
      EndedMatchFreezesScene(w, es[1..]);
    }
  }
}
