/** The package spawner: a lifetime spawn cap, an initial burst, one delayed
    respawn per collection, a two-tier choice of package type and a random
    spawn point. Packages come from the object pool and are never given
    back to it, so the pool only drains. Random draws are parameters. */
module PackageSpawner {
  import opened Common
  import opened Package
  import ObjectPool

  const DefaultTotalPackagesToSpawn: int := 15
  const DefaultInitialSpawnCount: int := 3
  /** Seconds between a collection and the replacement spawn. */
  const DefaultRespawnDelay: real := 2.0
  const DefaultRarePackageChance: real := 0.2

  datatype Config = Config(
    spawnPoints: seq<Vec3>,
    totalPackagesToSpawn: int,
    initialSpawnCount: int,
    packageTypes: seq<PackageData>,
    rarePackageChance: real)

  /** `pendingRespawns` counts replacement spawns whose delay has not yet
      elapsed. */
  datatype Spawner = Spawner(
    config: Config,
    currentSpawnedCount: int,
    pool: ObjectPool.Pool<Item>,
    pendingRespawns: nat)

  /** The random draws one spawn uses: a spawn-point index, a uniform value
      compared against the rare chance, and an index among the rare types. */
  datatype Draws = Draws(pointIndex: int, roll: real, rareIndex: int)

  /** The ranges the random source guarantees. */
  predicate DrawsInRange(c: Config, d: Draws) {
    && (|c.spawnPoints| > 0 ==> 0 <= d.pointIndex < |c.spawnPoints|)
    && 0.0 <= d.roll <= 1.0
    && (|c.packageTypes| > 1 ==> 1 <= d.rareIndex < |c.packageTypes|)
  }

  /** Index of the chosen package type: a rare type (index 1 or above, as
      drawn) when the roll falls under the rare chance and there is more
      than one type, otherwise the standard type at index 0. */
  function GetRandomPackageData(types: seq<PackageData>, rareChance: real, roll: real, rareIndex: int): (i: nat)
    requires |types| > 0
    requires |types| > 1 ==> 1 <= rareIndex < |types|
    ensures i < |types|
    ensures i != 0 <==> roll < rareChance && |types| > 1
    ensures i != 0 ==> i == rareIndex
  {
    if roll < rareChance && |types| > 1 then rareIndex else 0
  }

  /** With a single package type the choice is index 0 whatever is drawn. */
  lemma SingleTypeAlwaysStandard(types: seq<PackageData>, rareChance: real, roll: real, rareIndex: int)
    requires |types| == 1
    ensures GetRandomPackageData(types, rareChance, roll, rareIndex) == 0
  {
  }

  /** A configured point chosen by the draw, or the origin when no point is
      configured (the spawn then goes ahead there). */
  function GetRandomSpawnPoint(points: seq<Vec3>, index: int): (pos: Vec3)
    requires |points| > 0 ==> 0 <= index < |points|
    ensures |points| == 0 ==> pos == Origin
    ensures |points| > 0 ==> pos == points[index] && pos in points
  {
    if |points| == 0 then Origin else points[index]
  }

  ghost predicate Valid(s: Spawner) {
    ObjectPool.Valid(s.pool)
  }

  /** The spawner after a spawn call, and the object spawned, if any. */
  datatype Spawned = Spawned(spawner: Spawner, id: Option<nat>)

  /** The object a spawn hands out: placed, reset, and retyped when types
      are configured. */
  function Prepare(o: PackageObject, c: Config, d: Draws): (r: PackageObject)
    requires DrawsInRange(c, d)
    ensures r.active && !r.comp.isCollected
    ensures r.comp.position == GetRandomSpawnPoint(c.spawnPoints, d.pointIndex)
    ensures |c.packageTypes| > 0 ==>
      r.comp.data == Some(c.packageTypes[GetRandomPackageData(c.packageTypes, c.rarePackageChance, d.roll, d.rareIndex)])
    ensures |c.packageTypes| == 0 ==> r.comp.data == o.comp.data
  {
    var placed := o.(comp := o.comp.(position := GetRandomSpawnPoint(c.spawnPoints, d.pointIndex)));
    var reset := ResetPackage(placed);
    if |c.packageTypes| > 0 then
      var i := GetRandomPackageData(c.packageTypes, c.rarePackageChance, d.roll, d.rareIndex);
      SetPackageData(reset, Some(c.packageTypes[i]))
    else reset
  }

  function SpawnPackage(s: Spawner, d: Draws): (r: Spawned)
    requires Valid(s) && DrawsInRange(s.config, d)
    ensures Valid(r.spawner)
    ensures r.spawner.config == s.config && r.spawner.pendingRespawns == s.pendingRespawns
    ensures r.spawner.pool.prefab == s.pool.prefab
    ensures s.currentSpawnedCount >= s.config.totalPackagesToSpawn ==> r == Spawned(s, None)
    ensures s.currentSpawnedCount < s.config.totalPackagesToSpawn ==>
      && r.spawner.currentSpawnedCount == s.currentSpawnedCount + 1
      && r.id == Some(ObjectPool.Get(s.pool).id)
      && r.id.value < |r.spawner.pool.objects|
      && r.spawner.pool.objects[r.id.value].active
      && !r.spawner.pool.objects[r.id.value].comp.isCollected
      && r.spawner.pool.objects[r.id.value].comp.position
           == GetRandomSpawnPoint(s.config.spawnPoints, d.pointIndex)
    ensures s.currentSpawnedCount <= s.config.totalPackagesToSpawn ==>
      r.spawner.currentSpawnedCount <= s.config.totalPackagesToSpawn
    ensures var spawns := s.currentSpawnedCount < s.config.totalPackagesToSpawn;
      && |r.spawner.pool.queue| == (if spawns && |s.pool.queue| > 0 then |s.pool.queue| - 1 else |s.pool.queue|)
      && |r.spawner.pool.objects| == (if spawns && |s.pool.queue| == 0 then |s.pool.objects| + 1 else |s.pool.objects|)
  {
    if s.currentSpawnedCount >= s.config.totalPackagesToSpawn then Spawned(s, None)
    else
      var got := ObjectPool.Get(s.pool);
      var obj := Prepare(got.pool.objects[got.id], s.config, d);
      var pool := got.pool.(objects := got.pool.objects[got.id := obj]);
      Spawned(s.(currentSpawnedCount := s.currentSpawnedCount + 1, pool := pool), Some(got.id))
  }

  /** Spawns that would pass the cap, starting from `count`. */
  function Capped(count: int, total: int, calls: nat): int {
    if count >= total then count
    else if count + calls <= total then count + calls
    else total
  }

  /** The initial burst: `initialSpawnCount` spawn calls in a row, each with
      its own draws. Starting below the cap, `min(initial, room)` packages
      are spawned. */
  method SpawnInitialPackages(s: Spawner, draws: seq<Draws>) returns (r: Spawner)
    requires Valid(s)
    requires |draws| >= ObjectPool.Clip(s.config.initialSpawnCount)
    requires forall k :: 0 <= k < |draws| ==> DrawsInRange(s.config, draws[k])
    ensures Valid(r) && r.config == s.config && r.pendingRespawns == s.pendingRespawns
    ensures r.currentSpawnedCount
            == Capped(s.currentSpawnedCount, s.config.totalPackagesToSpawn, ObjectPool.Clip(s.config.initialSpawnCount))
    ensures |r.pool.queue| <= |s.pool.queue|
  {
    r := s;
    var i := 0;
    while i < s.config.initialSpawnCount
      invariant 0 <= i
      invariant s.config.initialSpawnCount > 0 ==> i <= s.config.initialSpawnCount
      invariant s.config.initialSpawnCount <= 0 ==> i == 0
      invariant Valid(r) && r.config == s.config && r.pendingRespawns == s.pendingRespawns
      invariant r.currentSpawnedCount == Capped(s.currentSpawnedCount, s.config.totalPackagesToSpawn, i)
      invariant |r.pool.queue| <= |s.pool.queue|
    {
      var spawned := SpawnPackage(r, draws[i]);
      r := spawned.spawner;
      i := i + 1;
    }
  }

  /** A collection schedules exactly one replacement spawn. */
  function OnPackageCollected(s: Spawner): (r: Spawner)
    ensures r == s.(pendingRespawns := s.pendingRespawns + 1)
  {
    s.(pendingRespawns := s.pendingRespawns + 1)
  }

  /** A scheduled replacement's delay elapses and it spawns (subject to the
      cap like any other spawn). */
  function RespawnAfterDelay(s: Spawner, d: Draws): (r: Spawned)
    requires Valid(s) && DrawsInRange(s.config, d) && s.pendingRespawns > 0
    ensures r.spawner.pendingRespawns == s.pendingRespawns - 1
    ensures Valid(r.spawner) && r.spawner.config == s.config
    ensures s.currentSpawnedCount <= s.config.totalPackagesToSpawn ==>
      r.spawner.currentSpawnedCount <= s.config.totalPackagesToSpawn
  {
    SpawnPackage(s.(pendingRespawns := s.pendingRespawns - 1), d)
  }
}
