/** The player's death latch: a hit kills the player at most once until the
    next respawn, disables the movement controller, and asks the life
    counter to take a life. The life counter itself is in LifeManager; here
    the request is returned as a flag so the two modules do not import each
    other (DamageChain composes them). */
module PlayerHealth {
  import opened Common
  import opened GameManager

  /** `controller` is `Some(enabled)` when the player carries a movement
      controller, `None` when it does not. */
  datatype Health = Health(isDead: bool, controller: Option<bool>)

  /** The result of a hit: the new latch and whether the life counter was
      asked to take a life. */
  datatype Hit = Hit(health: Health, loseLife: bool)

  function Initial(hasController: bool): (h: Health)
    ensures !h.isDead && h.controller.Some? == hasController
    ensures ControllerMatches(h)
  {
    Health(false, if hasController then Some(true) else None)
  }

  /** With a controller present, it is enabled exactly while the player lives. */
  predicate ControllerMatches(h: Health) {
    h.controller.Some? ==> (h.isDead <==> !h.controller.value)
  }

  function Die(h: Health, hasLifeManager: bool): Hit {
    var controller := if h.controller.Some? then Some(false) else None;
    Hit(Health(true, controller), hasLifeManager)
  }

  /** A hit. `game` is the state of the match manager when one exists. */
  function TakeDamage(h: Health, game: Option<GameState>, hasLifeManager: bool): (r: Hit)
    ensures h.isDead ==> r == Hit(h, false)
    ensures !h.isDead && game.Some? && game.value != Playing ==> r == Hit(h, false)
    ensures !h.isDead && (game.None? || game.value == Playing) ==>
      && r.health.isDead
      && r.loseLife == hasLifeManager
      && r.health.controller.Some? == h.controller.Some?
      && (h.controller.Some? ==> r.health.controller == Some(false))
    ensures r.loseLife ==> !h.isDead && r.health.isDead
    ensures ControllerMatches(h) ==> ControllerMatches(r.health)
  {
    if h.isDead then Hit(h, false)
    else if game.Some? && game.value != Playing then Hit(h, false)
    else Die(h, hasLifeManager)
  }

  function Respawn(h: Health): (r: Health)
    ensures !r.isDead
    ensures r.controller.Some? == h.controller.Some?
    ensures h.controller.Some? ==> r.controller == Some(true)
    ensures ControllerMatches(r)
  {
    Health(false, if h.controller.Some? then Some(true) else None)
  }

  /** Hits landing in a row, with no respawn in between, ask for at most one
      life: after the first one kills the player the rest are ignored. */
  function Hits(h: Health, game: Option<GameState>, hasLifeManager: bool, n: nat): (r: (Health, nat))
    decreases n
  {
    if n == 0 then (h, 0)
    else
      var first := TakeDamage(h, game, hasLifeManager);
      var rest := Hits(first.health, game, hasLifeManager, n - 1);
      (rest.0, rest.1 + if first.loseLife then 1 else 0)
  }

  lemma {:induction false} RepeatedHitsLoseAtMostOneLife(h: Health, game: Option<GameState>, hasLifeManager: bool, n: nat)
    ensures Hits(h, game, hasLifeManager, n).1 <= 1
    ensures h.isDead ==> Hits(h, game, hasLifeManager, n) == (h, 0)
    decreases n
  {
    if n > 0 {
      var first := TakeDamage(h, game, hasLifeManager);
      RepeatedHitsLoseAtMostOneLife(first.health, game, hasLifeManager, n - 1);
      if first.loseLife {
        assert first.health.isDead;
      }
    }
  }
}
