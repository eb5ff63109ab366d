/** The life counter: each lost life either schedules a delayed respawn or,
    when none are left, shows the game-over panel itself. That second path
    never touches the match manager's state. */
module LifeManager {
  import opened Common
  import opened GameManager
  import PlayerHealth

  const DefaultMaxLives: int := 3
  const DefaultRespawnPosition: Vec3 := Vec3(0.0, 2.0, 0.0)
  /** Seconds between a lost life and the respawn it schedules. */
  const DefaultRespawnDelay: real := 1.5

  datatype Lives = Lives(current: int, max: int)

  /** What a lost life leads to. `panelShown` is whether the game-over
      panel, cursor release and time freeze were applied, which happens only
      when a match manager exists. */
  datatype Outcome = Ignored | RespawnScheduled | LivesExhausted(panelShown: bool)

  datatype Loss = Loss(lives: Lives, outcome: Outcome)

  function Start(maxLives: int): (l: Lives)
    ensures l.current == l.max == maxLives
  {
    Lives(maxLives, maxLives)
  }

  /** `game` is the match manager's state when one exists. */
  function LoseLife(l: Lives, game: Option<GameState>): (r: Loss)
    ensures game.Some? && game.value != Playing <==> r.outcome.Ignored?
    ensures r.outcome.Ignored? ==> r.lives == l
    ensures !r.outcome.Ignored? ==> r.lives == l.(current := l.current - 1)
    ensures r.outcome.LivesExhausted? <==> !r.outcome.Ignored? && r.lives.current <= 0
    ensures r.outcome.RespawnScheduled? <==> !r.outcome.Ignored? && r.lives.current > 0
    ensures r.outcome.LivesExhausted? ==> r.outcome.panelShown == game.Some?
  {
    if game.Some? && game.value != Playing then Loss(l, Ignored)
    else
      var l' := l.(current := l.current - 1);
      if l'.current <= 0 then Loss(l', LivesExhausted(game.Some?))
      else Loss(l', RespawnScheduled)
  }

  function ResetLives(l: Lives): (r: Lives)
    ensures r.current == r.max == l.max
  {
    l.(current := l.max)
  }

  /** The player object as the respawn sees it: its position, its character
      controller's enabled flag if it has one, and its health latch if it
      has one. */
  datatype Player = Player(position: Vec3, characterController: Option<bool>, health: Option<PlayerHealth.Health>)

  /** The scheduled respawn, once its delay has elapsed. */
  function RespawnPlayer(p: Player, respawnPosition: Vec3): (r: Player)
    ensures r.position == respawnPosition
    ensures r.characterController.Some? == p.characterController.Some?
    ensures p.characterController.Some? ==> r.characterController == Some(true)
    ensures r.health.Some? == p.health.Some?
    ensures p.health.Some? ==> r.health == Some(PlayerHealth.Respawn(p.health.value))
    ensures p.health.Some? ==> !r.health.value.isDead
  {
    var controller := if p.characterController.Some? then Some(true) else None;
    var health := if p.health.Some? then Some(PlayerHealth.Respawn(p.health.value)) else None;
    Player(respawnPosition, controller, health)
  }

  /** One life taken from one life left ends the run of lives: the counter
      reaches 0 and no respawn is scheduled. */
  lemma LastLifeExhausts(l: Lives, game: Option<GameState>)
    requires l.current == 1
    requires game.None? || game.value == Playing
    ensures LoseLife(l, game).lives.current == 0
    ensures LoseLife(l, game).outcome.LivesExhausted?
  {
  }
}
