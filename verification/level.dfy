/** One level as the package loop wires it: the player touches a pooled
    package, the package reports to the game manager, and the game manager
    tells the spawner, which later spawns a replacement from the pool. A
    collected package is deactivated but never handed back to the pool. */
module Level {
  import opened Common
  import GameManager
  import Package
  import ObjectPool
  import PackageSpawner

  datatype Level = Level(game: GameManager.Game, spawner: PackageSpawner.Spawner)

  /** The player's collider enters the trigger of pooled package `id`. */
  function Touch(lv: Level, id: nat): (r: Level)
    requires id < |lv.spawner.pool.objects|
    ensures var o := lv.spawner.pool.objects[id];
      var accepted := !o.comp.isCollected && lv.game.state == GameManager.Playing;
      && |r.spawner.pool.objects| == |lv.spawner.pool.objects|
      && r.spawner.pool.queue == lv.spawner.pool.queue
      && r.spawner.currentSpawnedCount == lv.spawner.currentSpawnedCount
      && r.spawner.config == lv.spawner.config
      && r.spawner.pool.objects[id].comp.isCollected
      && (o.comp.isCollected ==> r == lv)
      && (!o.comp.isCollected ==> !r.spawner.pool.objects[id].active)
      && (r.spawner.pendingRespawns
            == lv.spawner.pendingRespawns + (if accepted && lv.game.settings.hasSpawner then 1 else 0))
      && (r.game.collectedCount == lv.game.collectedCount + (if accepted then 1 else 0))
  {
    var o := lv.spawner.pool.objects[id];
    var c := Package.OnTriggerEnter(o, Package.PlayerTag, Some(lv.game));
    var step := c.game.value;
    var pool := lv.spawner.pool.(objects := lv.spawner.pool.objects[id := c.obj]);
    var spawner :=
      if GameManager.SpawnerNotified in step.events then PackageSpawner.OnPackageCollected(lv.spawner)
      else lv.spawner;
    Level(step.game, spawner.(pool := pool))
  }

  datatype Event = TouchEvent(id: nat) | RespawnEvent(d: PackageSpawner.Draws)

  /** One event. The engine sends no trigger callback to an inactive object,
      so a touch of one (or of an unknown object) is skipped, as is a respawn
      with nothing pending or a draw outside the configured ranges. Once the
      match has ended the clear or the timeout has set the time scale to
      zero: physics contacts stop and the spawner's scaled-time delay never
      elapses, so every event is skipped. */
  function Step(lv: Level, e: Event): (r: Level)
    requires PackageSpawner.Valid(lv.spawner)
    ensures PackageSpawner.Valid(r.spawner) && r.spawner.config == lv.spawner.config
    ensures |r.spawner.pool.queue| <= |lv.spawner.pool.queue|
    ensures lv.spawner.currentSpawnedCount <= lv.spawner.config.totalPackagesToSpawn ==>
      r.spawner.currentSpawnedCount <= lv.spawner.config.totalPackagesToSpawn
    ensures r.game.settings == lv.game.settings
    ensures e.TouchEvent? && (e.id >= |lv.spawner.pool.objects| || !lv.spawner.pool.objects[e.id].active) ==> r == lv
    ensures lv.game.state != GameManager.Playing ==> r == lv
  {
    if lv.game.state != GameManager.Playing then lv
    else match e
    case TouchEvent(id) =>
      if id < |lv.spawner.pool.objects| && lv.spawner.pool.objects[id].active then Touch(lv, id) else lv
    case RespawnEvent(d) =>
      if lv.spawner.pendingRespawns > 0 && PackageSpawner.DrawsInRange(lv.spawner.config, d)
      then lv.(spawner := PackageSpawner.RespawnAfterDelay(lv.spawner, d).spawner)
      else lv
  }

  function Run(lv: Level, es: seq<Event>): (r: Level)
    requires PackageSpawner.Valid(lv.spawner)
    decreases |es|
  {
    if es == [] then lv else Run(Step(lv, es[0]), es[1..])
  }

  /** The pool's queue is never refilled during play, and the spawn cap
      holds throughout: objects handed out are never returned, so once the
      initial queue is used up every spawn instantiates a new object. */
  lemma {:induction false} RunNeverRefillsPool(lv: Level, es: seq<Event>)
    requires PackageSpawner.Valid(lv.spawner)
    requires lv.spawner.currentSpawnedCount <= lv.spawner.config.totalPackagesToSpawn
    ensures var r := Run(lv, es);
      && PackageSpawner.Valid(r.spawner)
      && |r.spawner.pool.queue| <= |lv.spawner.pool.queue|
      && r.spawner.currentSpawnedCount <= lv.spawner.config.totalPackagesToSpawn
      && r.game.settings == lv.game.settings
    decreases |es|
  {
    if es != [] {
      RunNeverRefillsPool(Step(lv, es[0]), es[1..]);
    }
  }

  /** Once the match has ended, no run of touches and respawns changes the
      level: in particular a respawn the clearing collect scheduled never
      spawns. */
  lemma {:induction false} EndedLevelIsFrozen(lv: Level, es: seq<Event>)
    requires PackageSpawner.Valid(lv.spawner)
    requires lv.game.state != GameManager.Playing
    ensures Run(lv, es) == lv
    decreases |es|
  {
    if es != [] {
      EndedLevelIsFrozen(Step(lv, es[0]), es[1..]);
    }
  }
}
