# Rooftop Runner — a Dafny model of the game's core

Rooftop Runner is a Unity parkour game. The player runs across rooftops and
collects delivery packages before a countdown runs out. Snipers shoot at the
player, a grappling hook pulls the player toward surfaces, and a heads-up
display, a radar and an off-screen arrow point to packages.

This project models the game's core as immutable states and pure step
functions, one Dafny module per C# behaviour class:

- **GameManager**: the match state machine (Playing, Cleared, GameOver), the countdown, the collected count and score, the best clear time, and the sky-colour progress.
- **PlayerHealth** and **LifeManager**: the death latch, the life counter, and the delayed respawn. **DamageChain** composes them into one scene: bullet, death, lost life, respawn.
- **ObjectPool**: a FIFO pool of reusable objects. **Package**: magnet pull, collection, reset and retyping. **PackageSpawner**: the spawn cap, the initial burst, delayed respawns and the rare-type choice. **Level** wires package → match manager → spawner.
- **SniperController**: Idle → Aiming → Cooldown, with the laser.
- **GrappleController**: grapple start, stop, pull and timeout.
- **PlayerController**: the ground check, jump and double jump, gravity with a terminal fall speed, and landing.
- **UIManager**: the `m:ss` clock text, the score text, and the warning colours.
- **DirectionIndicator**: the nearest package and the clamped off-screen arrow.
- **RadarUI**: the package-to-dot map and the dot list.
- **Common**: shared types (`Option`, `Vec3`, `Color`, `GameObject`).

Engine services become parameters of the step functions:

- inputs and raycast hits;
- distances and screen positions;
- random draws;
- frame time `dt`;
- the preference store's saved value.

Calls to other components (UI panels, the spawner's handler, the preference
store's save) are returned as events or flags. The engine's nullable
singletons (`GameManager.Instance` and others) are `Option` values. A
component that is absent is `None`. Floats are modelled as exact `real`s.
`Mathf.FloorToInt` is `Floor`. The float `%` is a truncated remainder, and
`Color.Lerp`/`Mathf.Lerp` clamp their factor to [0, 1].

## Model

| member | source | states |
|---|---|---|
| GameManager.Start | Assets/Scripts/Manager/GameManager.cs:55-64 | A new match is Playing with nothing collected, no score, no game time and the full time limit; the best time is the stored one, or 999 when none was stored. |
| GameManager.EndGame | Assets/Scripts/Manager/GameManager.cs:151-173 | Time-out sets GameOver, changes nothing else, and shows only the game-over panel. |
| GameManager.Tick | Assets/Scripts/Manager/GameManager.cs:72-89 | An ended match ignores frames. A Playing frame adds `dt` to the game time. The countdown drops by `dt`; on reaching zero it is pinned to 0 and the match is lost. Count, score, best time and settings are untouched. |
| GameManager.SkyBlendFactor | Assets/Scripts/Manager/GameManager.cs:194-199 | The colour-blend factor is always in [0, 1], and equals collected/target whenever the count is within the target. |
| GameManager.GameClear | Assets/Scripts/Manager/GameManager.cs:118-149 | Clearing sets Cleared. The new best time is the smaller of the old best and the clear time (time limit − remaining). The best time is saved exactly when it strictly improved. The clear panel, showing the clear time and the new best, is the last request. |
| GameManager.CheckClearCondition | Assets/Scripts/Manager/GameManager.cs:110-116 | The match clears exactly when the count has reached the target, and is otherwise unchanged. |
| GameManager.CollectPackage | Assets/Scripts/Manager/GameManager.cs:92-108 | Ignored unless Playing. Otherwise the count rises by one and the score by the reported score. The match is Cleared iff the count reached the target. The spawner is notified iff one is attached. The sky blend gets the new progress. Timers are untouched. |
| GameManager.RestartGame | Assets/Scripts/Manager/GameManager.cs:176-180 | A restart reloads the scene: the new match keeps the settings, is Playing with nothing collected, no score, no game time and the full time limit, and reads the best time back from the store (999 when none is stored). |
| GameManager.StartEstablishesInv | Assets/Scripts/Manager/GameManager.cs:55-60 | With a positive target and a non-negative limit, a new match satisfies the match invariant: the count is within the target, Cleared iff the target is reached, the countdown is within [0, limit], and GameOver only at zero. |
| GameManager.TickPreservesInv | Assets/Scripts/Manager/GameManager.cs:72-89 | A frame of non-negative length keeps the match invariant and never raises the countdown. |
| GameManager.CollectPreservesInv | Assets/Scripts/Manager/GameManager.cs:92-116 | A collect keeps the match invariant; in particular the count never passes the target. |
| GameManager.RestartAfterRecordKeepsBest | Assets/Scripts/Manager/GameManager.cs:118-180 | After a clear that saved a new record (the clear time), a restart that reads the store gives a match satisfying the invariant whose best time is that record, below the old best. |
| GameManager.ProgressInUnitInterval | Assets/Scripts/Manager/GameManager.cs:194-199 | In a reachable match the ratio collected/target is in [0, 1], so the blend's clamp never alters it. |
| GameManager.EndedMatchIsFrozen | Assets/Scripts/Manager/GameManager.cs:72-108 | Once Cleared or GameOver, no sequence of frames and collects changes the match at all. |
| GameManager.PhaseMonotone | Assets/Scripts/Manager/GameManager.cs:72-108 | No run leaves Cleared or GameOver, and a run that ends Playing began Playing. |
| GameManager.RunCountsAcceptedCollects | Assets/Scripts/Manager/GameManager.cs:92-97 | After any run, the count equals the number of collects accepted while Playing, and the score equals the sum of their scores. |
| GameManager.RunPreservesInv | Assets/Scripts/Manager/GameManager.cs:72-116 | Any run of non-negative frames and collects keeps the match invariant and never raises the countdown. The collects it accepts never exceed the room left below the target. |
| GameManager.ThreeCollectsClear | Assets/Scripts/Manager/GameManager.cs:92-149 | With a target of 3, three collects of 10 clear the match with score 30. The clear panel appears only on the third collect. |
| GameManager.FullLengthFrameLoses | Assets/Scripts/Manager/GameManager.cs:80-89 | One frame as long as the whole time limit pins the countdown at 0 and loses the match. |
| PlayerHealth.Initial | Assets/Scripts/Player/PlayerHealth.cs:8-16 | The player starts alive, with a movement controller iff one is attached, enabled. |
| PlayerHealth.TakeDamage | Assets/Scripts/Player/PlayerHealth.cs:18-60 | A dead player, or a hit while a manager reports the match over, changes nothing and costs no life. Otherwise the player dies, the controller is disabled, and a life is requested iff a life counter exists. A life is requested only on an alive-to-dead transition. |
| PlayerHealth.Respawn | Assets/Scripts/Player/PlayerHealth.cs:62-79 | Respawn revives the player and re-enables the controller if there is one. |
| PlayerHealth.RepeatedHitsLoseAtMostOneLife | Assets/Scripts/Player/PlayerHealth.cs:18-32 | Any number of hits with no respawn in between request at most one life, and none once dead. |
| LifeManager.Start | Assets/Scripts/Manager/LifeManager.cs:30-34 | The counter starts full. |
| LifeManager.LoseLife | Assets/Scripts/Manager/LifeManager.cs:36-62 | The call is ignored iff a manager reports the match over. Otherwise one life is taken. A respawn is scheduled iff lives remain above 0, and lives are exhausted iff they reached 0 or below. On exhaustion the panel is shown iff a manager exists. |
| LifeManager.RespawnPlayer | Assets/Scripts/Manager/LifeManager.cs:64-89 | The delayed respawn moves the player to the respawn point and leaves its character controller enabled. A health latch, if present, is reset to alive. |
| LifeManager.ResetLives | Assets/Scripts/Manager/LifeManager.cs:118-121 | Reset refills the counter to its maximum. |
| LifeManager.LastLifeExhausts | Assets/Scripts/Manager/LifeManager.cs:43-56 | Losing the last life while Playing, or with no manager, leaves 0 lives and schedules no respawn. |
| DamageChain.BulletHit | Assets/Scripts/Player/PlayerHealth.cs:18-60 | A bullet never changes the match. It is ignored when the player is dead or the match is over. Otherwise the player dies and loses one life, and then either one more respawn is pending or, at 0 lives, the game-over panel is shown. |
| DamageChain.RespawnDue | Assets/Scripts/Manager/LifeManager.cs:64-89 | A respawn whose delay elapsed goes through the life counter's respawn: the player is moved to the respawn point, its character controller (if any) is left enabled, its health is revived, and one pending respawn is retired. Lives and match are unchanged. |
| DamageChain.InitialSatisfiesChainInv | Assets/Scripts/Manager/LifeManager.cs:30-34 | With at least one life, a new scene satisfies the damage invariant. |
| DamageChain.StepPreservesChainInv | Assets/Scripts/Manager/LifeManager.cs:36-89 | Every bullet, respawn, frame and collect keeps the damage invariant: lives within [0, max], at most one respawn pending, the player dead iff a respawn is pending or no life is left, the controller enabled iff alive, and the game-over panel shown only at 0 lives. |
| DamageChain.RunPreservesChainInv | Assets/Scripts/Manager/LifeManager.cs:36-62 | From a scene configured with at least one life (the invariant includes maxLives ≥ 1), over any run of events the life counter never goes below 0 or above its maximum. |
| DamageChain.LastLifeLeavesMatchPlaying | Assets/Scripts/Manager/LifeManager.cs:91-116 | Losing the last life kills the player for good and shows the panel, but the match manager stays Playing. |
| DamageChain.ExhaustedStaysExhausted | Assets/Scripts/Player/PlayerHealth.cs:18-28 | With no lives left, no event revives the player or takes another life. |
| DamageChain.LivesExhaustedFreezesScene | Assets/Scripts/Manager/LifeManager.cs:91-116 | Once the lost-lives panel has set the time scale to zero, a match with time left (or already over) never changes again: frames pass with zero time, and no hit, pickup or respawn arrives. |
| DamageChain.EndedMatchFreezesScene | Assets/Scripts/Manager/GameManager.cs:118-173 | After a clear or a timeout, which stop time, no event changes the damage scene. A pending respawn never revives the player. |
| DamageChain.NoLivesConfiguredGoesNegative | Assets/Scripts/Manager/LifeManager.cs:8-56 | With maxLives set to 0 in the inspector, the first hit takes the counter to -1 and shows the panel. |
| ObjectPool.Initialize | Assets/Scripts/Manager/ObjectPool.cs:17-29 | The pool makes `poolSize` inactive prefab copies (none for a size ≤ 0) and queues them in creation order. |
| ObjectPool.Get | Assets/Scripts/Manager/ObjectPool.cs:32-48 | With a non-empty queue, the front object is taken and activated. With an empty queue, a new prefab copy is made, left as the prefab is, and not queued. |
| ObjectPool.Return | Assets/Scripts/Manager/ObjectPool.cs:51-56 | A returned object is deactivated and appended to the queue, with no duplicate check. |
| ObjectPool.ReturnForeign | Assets/Scripts/Manager/ObjectPool.cs:51-56 | An object the pool did not make, when returned, is deactivated, joins the pool's objects under the next number, and is appended to the queue. |
| ObjectPool.RunIsFifo | Assets/Scripts/Manager/ObjectPool.cs:32-56 | Over any run, including returns of objects from elsewhere, the objects taken followed by those still queued equal the initial queue followed by those returned, in order. |
| ObjectPool.RunCreatesOnlyOnMiss | Assets/Scripts/Manager/ObjectPool.cs:32-56 | Objects are created only by Gets that find the queue empty; the only other objects the pool gains are those returned from elsewhere; none is ever destroyed. |
| ObjectPool.ForeignReturnIsHandedOut | Assets/Scripts/Manager/ObjectPool.cs:32-56 | A returned object from elsewhere is handed out, activated, by the next Get on an otherwise empty queue. |
| ObjectPool.DoubleReturnHandsOutTwice | Assets/Scripts/Manager/ObjectPool.cs:51-56 | An object returned twice is queued twice, and the next two Gets both hand it out. |
| Package.ScoreOf | Assets/Scripts/Item/Package.cs:89-101 | A collect reports its descriptor's score, or the default score 1 without a descriptor. |
| Package.MagnetUpdate | Assets/Scripts/Item/Package.cs:59-75 | Only an uncollected package with a player within the magnet range is changed. Its velocity is overwritten with the direction to the player times the magnet speed. Without a rigidbody nothing changes. |
| Package.Collect | Assets/Scripts/Item/Package.cs:85-124 | The package is marked collected and deactivated. The manager, if any, gets exactly one collect with this package's score. |
| Package.OnTriggerEnter | Assets/Scripts/Item/Package.cs:77-83 | Only the first contact by the player collects. Every other contact leaves package and match as they were. |
| Package.ResetPackage | Assets/Scripts/Item/Package.cs:126-142 | Reset makes the package active and uncollected and zeroes both velocities if it has a rigidbody. Nothing else changes. |
| Package.SetPackageData | Assets/Scripts/Item/Package.cs:145-152 | The descriptor is always rebound. Colour and mass are restyled only when there is a descriptor and the renderer is known. |
| Package.CollectsAtMostOnce | Assets/Scripts/Item/Package.cs:77-87 | Over any sequence of contacts, a package collects at most once. An uncollected package collects exactly once iff the player touched it. |
| Package.CollectedEvenWhenRefused | Assets/Scripts/Item/Package.cs:85-124 | After the match ends, a player contact still collects and hides the package, while the match is unchanged. |
| PackageSpawner.GetRandomPackageData | Assets/Scripts/Item/PackageSpawner.cs:75-91 | A rare type (the drawn index, ≥ 1) is chosen iff the roll is below the rare chance and there is more than one type. Otherwise the standard type 0 is chosen. |
| PackageSpawner.SingleTypeAlwaysStandard | Assets/Scripts/Item/PackageSpawner.cs:80-90 | With one configured type, every draw picks it. |
| PackageSpawner.GetRandomSpawnPoint | Assets/Scripts/Item/PackageSpawner.cs:94-104 | The spawn point is the drawn configured point, or the origin when none is configured. |
| PackageSpawner.Prepare | Assets/Scripts/Item/PackageSpawner.cs:48-68 | A spawned package is placed at the spawn point and reset to active and uncollected. When types are configured it gets the chosen type; otherwise it keeps its old one. |
| PackageSpawner.SpawnPackage | Assets/Scripts/Item/PackageSpawner.cs:40-73 | At the cap nothing happens. Below it, the count rises by one and the next pool object is handed out active, uncollected and placed. The pool's queue shrinks by one, or, when empty, the pool grows by one object. |
| PackageSpawner.SpawnInitialPackages | Assets/Scripts/Item/PackageSpawner.cs:31-37 | The initial burst spawns min(initial count, room below the cap) packages and never refills the pool's queue. |
| PackageSpawner.OnPackageCollected | Assets/Scripts/Item/PackageSpawner.cs:107-111 | Each collection schedules exactly one more delayed spawn. |
| PackageSpawner.RespawnAfterDelay | Assets/Scripts/Item/PackageSpawner.cs:113-117 | A due respawn retires one scheduled spawn and spawns subject to the cap, so the cap is never passed. |
| Level.Touch | Assets/Scripts/Item/Package.cs:77-124 | A player touch always leaves the touched package collected. When it was uncollected, the package is deactivated. The match counts it, and one respawn is scheduled, iff the package was uncollected, the match Playing, and a spawner attached. The pool's queue is untouched. |
| Level.Step | Assets/Scripts/Item/PackageSpawner.cs:107-117 | Touches and due respawns never lengthen the pool's queue, never pass the spawn cap, and never change the settings. A touch of an inactive (pooled) object changes nothing, since the engine sends it no trigger callback. Once the match has ended (time scale zero), no event changes the level. |
| Level.EndedLevelIsFrozen | Assets/Scripts/Manager/GameManager.cs:118-173 | After a clear or a timeout, no run of touches and respawns changes the level. A respawn the clearing collect scheduled never spawns. |
| Level.RunNeverRefillsPool | Assets/Scripts/Item/PackageSpawner.cs:40-73 | Over any run of touches and respawns, the pool's queue never grows and the spawn cap holds: collected packages never go back to the pool. |
| SniperController.Start | Assets/Scripts/Environment/SniperController.cs:31-52 | The sniper starts Idle with the laser off. |
| SniperController.StartAiming | Assets/Scripts/Environment/SniperController.cs:115-127 | Aiming restarts the timer and turns the laser on if there is one. |
| SniperController.Shoot | Assets/Scripts/Environment/SniperController.cs:159-198 | A shot fires, then the sniper enters Cooldown with a fresh timer and the laser off. |
| SniperController.UpdateAiming | Assets/Scripts/Environment/SniperController.cs:129-146 | The sniper fires exactly when the aim timer plus `dt` reaches the aim duration, and otherwise just advances the timer. |
| SniperController.UpdateCooldown | Assets/Scripts/Environment/SniperController.cs:200-208 | The cooldown timer advances, and the sniper returns to Idle exactly when it reaches the cooldown time. |
| SniperController.Update | Assets/Scripts/Environment/SniperController.cs:61-113 | Without a player nothing happens. With the match over or the player dead, the laser goes off and the state is kept. Out of range, the sniper drops to Idle. In range, it runs Idle → Aiming, fires from Aiming on time, and leaves Cooldown on time. A shot only ever leaves Aiming for Cooldown, and the laser invariant is kept. |
| SniperController.OneShotPerAim | Assets/Scripts/Environment/SniperController.cs:61-198 | Over any run, shots never outnumber aims started, counting the aim under way at the start. An aim still running at the end has not fired. |
| SniperController.RunKeepsLaserInv | Assets/Scripts/Environment/SniperController.cs:61-113 | Any run keeps the laser lit only while Aiming, and never without a laser line. |
| SniperController.LaserOnlyWhileAiming | Assets/Scripts/Environment/SniperController.cs:115-198 | From the start of the scene, the laser is lit only while Aiming. |
| GrappleController.Start | Assets/Scripts/Player/GrappleController.cs:28-43 | The grapple starts idle with the rope off. |
| GrappleController.StopGrapple | Assets/Scripts/Player/GrappleController.cs:215-227 | Stopping clears the grapple and its timer and turns the rope off. |
| GrappleController.StartGrapple | Assets/Scripts/Player/GrappleController.cs:132-163 | A raycast miss changes nothing. A hit starts grappling toward the hit point with a fresh timer and the rope on. |
| GrappleController.HandleGrappleInput | Assets/Scripts/Player/GrappleController.cs:117-130 | A press with a hit starts a grapple. A release or Space stops any grapple, including one started in the same frame. A running grapple is otherwise unchanged. |
| GrappleController.ExecuteGrapple | Assets/Scripts/Player/GrappleController.cs:165-191 | The player is pulled iff more than 2 units from the point. The grapple continues iff it was pulled and its advanced timer is still below the duration. |
| GrappleController.Update | Assets/Scripts/Player/GrappleController.cs:52-72 | A match that is over stops any grapple. A grapple that survives a frame was started by a press with a hit, saw no release or Space, and is still beyond the release distance with time left. The rope is shown exactly while grappling. |
| GrappleController.GrappleTimeIsBounded | Assets/Scripts/Player/GrappleController.cs:165-191 | A grapple still running after a run of frames has its timer equal to the frame time spent, which stays below the grapple duration. |
| GrappleController.StoppedStaysStopped | Assets/Scripts/Player/GrappleController.cs:117-130 | Without a press, a stopped grapple never restarts. |
| PlayerController.Start | Assets/Scripts/Player/PlayerController.cs:19-27 | The player starts airborne, at rest, with no double jump armed. |
| PlayerController.CheckGround | Assets/Scripts/Player/PlayerController.cs:55-67 | Touching ground while falling pins the vertical speed at −2 and re-arms the double jump. Otherwise only the grounded flag changes. |
| PlayerController.DoJump | Assets/Scripts/Player/PlayerController.cs:89-108 | A press on the ground jumps and arms the double jump. A press in the air jumps only if armed, and disarms it. Otherwise nothing happens. |
| PlayerController.ApplyGravity | Assets/Scripts/Player/PlayerController.cs:128-141 | Gravity never takes the vertical speed below the terminal fall speed, and is applied in full above it. |
| PlayerController.CheckLanding | Assets/Scripts/Player/PlayerController.cs:110-126 | The landing effect fires exactly on an airborne-to-grounded transition. |
| PlayerController.Update | Assets/Scripts/Player/PlayerController.cs:40-53 | Movement runs iff a manager reports Playing. Jumps need a press while Playing. A ground jump happens iff pressed on ground while Playing. An air jump uses up an armed double jump. Only ground contact re-arms it, and the fall speed stays capped. |
| PlayerController.ForceJump | Assets/Scripts/Player/PlayerController.cs:152-155 | A forced jump sets only the vertical speed. |
| PlayerController.OneAirJumpPerContact | Assets/Scripts/Player/PlayerController.cs:89-108 | Without touching ground, any number of presses gives at most one air jump, and only if one was armed. |
| UIManager.DigitsRoundTrip | Assets/Scripts/UI/UIManager.cs:112-118 | The decimal text of a natural number reads back as that number. |
| UIManager.ClockOf | Assets/Scripts/UI/UIManager.cs:120-125 | For a non-negative time, the minutes are non-negative and the seconds are 0..59, and 60·minutes + seconds is the whole seconds elapsed. |
| UIManager.ClockFieldsRoundTrip | Assets/Scripts/UI/UIManager.cs:124-126 | A `minutes:ss` text built from any minutes and a second of a minute reads back as that clock. |
| UIManager.ClockText | Assets/Scripts/UI/UIManager.cs:120-126 | For a non-negative time, the clock text is at least `m:ss` long and reads back as the clock it shows. |
| UIManager.TimerColor | Assets/Scripts/UI/UIManager.cs:128-136 | The timer is red or yellow; for a non-negative time it is red exactly when the clock shows 0 minutes and under 30 seconds. |
| UIManager.TimerStaysRed | Assets/Scripts/UI/UIManager.cs:128-136 | Once the countdown of a reachable match shows red, a frame never turns it back. |
| UIManager.LivesColor | Assets/Scripts/UI/UIManager.cs:140-156 | The lives text is red or white. For a non-negative counter it is red exactly when the number it shows is at most 1; a negative counter shows a minus sign, in red. |
| UIManager.ScoreText | Assets/Scripts/UI/UIManager.cs:112-118 | For non-negative counts, the `collected/total` text reads back as the pair it shows. |
| UIManager.ScoreFieldsRoundTrip | Assets/Scripts/UI/UIManager.cs:116 | Any two natural numbers written as `a/b` read back as that pair. |
| DirectionIndicator.FindNearestPackage | Assets/Scripts/UI/DirectionIndicator.cs:32-51 | No package is found iff none is active. Otherwise the result is active, no farther than any active package, and strictly nearer than every earlier active one. |
| DirectionIndicator.Clamp | Assets/Scripts/UI/DirectionIndicator.cs:80-81 | The clamp lies within the bounds when they are ordered, and keeps values already inside. |
| DirectionIndicator.ClampToEdges | Assets/Scripts/UI/DirectionIndicator.cs:75-83 | The arrow keeps its depth, and x and y lie within the margin box whenever the margins fit the screen. |
| DirectionIndicator.ClampToEdgesIdempotent | Assets/Scripts/UI/DirectionIndicator.cs:79-83 | Clamping twice equals clamping once, and a point inside the margin box is kept. |
| DirectionIndicator.ClampedArrowOnScreen | Assets/Scripts/UI/DirectionIndicator.cs:68-83 | With fitting non-negative margins, a clamped arrow in front of the camera is never off-screen. |
| DirectionIndicator.Update | Assets/Scripts/UI/DirectionIndicator.cs:18-66 | The arrow is shown iff the nearest active package is off-screen, and then at that package's clamped screen position. |
| DirectionIndicator.NearestIsUnique | Assets/Scripts/UI/DirectionIndicator.cs:38-48 | The search's choice is unique: at most one candidate is the first at the least distance. |
| RadarUI.Start | Assets/Scripts/UI/RadarUI.cs:20-21 | The radar starts with no entries and no dots, so every package trivially has a dot of its own. |
| RadarUI.DotFor | Assets/Scripts/UI/RadarUI.cs:86-111 | A drawn dot is shown. Within range it lies within the radar radius, its normalised distance is in [0, 1], and its scale is between 0.6 and 1.2. |
| RadarUI.GetDotFromPool | Assets/Scripts/UI/RadarUI.cs:114-129 | The first hidden dot in list order is reused. When every dot is shown, one new dot is appended. |
| RadarUI.Attach | Assets/Scripts/UI/RadarUI.cs:76-81 | A package keeps its dot, or gets the dot the pool hands out. No existing dot changes. |
| RadarUI.UpdatePackageDot | Assets/Scripts/UI/RadarUI.cs:74-112 | An in-range package ends up mapped to a shown dot drawn for its distance. Every other dot is untouched. |
| RadarUI.Visit | Assets/Scripts/UI/RadarUI.cs:35-55 | Inactive packages are skipped. An in-range package gets a shown dot. An out-of-range package keeps its entry, but its dot is hidden. |
| RadarUI.VisitAll | Assets/Scripts/UI/RadarUI.cs:35-55 | The first pass never drops an entry, and adds entries only for active packages. |
| RadarUI.DropInactive | Assets/Scripts/UI/RadarUI.cs:57-71 | Exactly the entries of packages no longer active are dropped, and their dots hidden. No other dot changes. |
| RadarUI.UpdateRadar | Assets/Scripts/UI/RadarUI.cs:29-72 | After a frame only active packages are mapped. Previously mapped active packages stay mapped, and previously mapped inactive ones are dropped. |
| RadarUI.InRangeGetsEntry | Assets/Scripts/UI/RadarUI.cs:35-46 | Every active package within radar range has an entry after the frame. |
| RadarUI.SharedDot | Assets/Scripts/UI/RadarUI.cs:47-54 | Starting from a radar where each package has its own shown dot, one frame leaves two packages mapped to the same dot. |
| RadarUI.VisitReleasing | Assets/Scripts/UI/RadarUI.cs:47-54 | With out-of-range entries released, one package keeps every package on a dot of its own and every mapped dot shown. |
| RadarUI.OwnedAfterUpdate | Assets/Scripts/UI/RadarUI.cs:74-84 | Placing an in-range package never gives it a dot another package holds. |
| RadarUI.UpdateRadarReleasing | Assets/Scripts/UI/RadarUI.cs:29-72 | With out-of-range entries released, a frame keeps every package on a dot of its own and every mapped dot shown, with only active packages mapped. |
| RadarUI.ReleasingKeepsDotsApart | Assets/Scripts/UI/RadarUI.cs:47-54 | On the shared-dot input, the released frame maps the in-range package and drops the out-of-range one. |

## Left out

- Rendering, audio, particles, animation, cursor locking, scene loading, quitting, the crosshair colour, the rope's sag curve, the sniper's turn toward the player, the laser's end points, bullet creation and flight, and the radar's scan line. These are presentation and engine effects that no state of the core depends on.
- `Time.timeScale` as a global. The clear, the timeout and the lost-lives game over each set it to zero, which stops physics contacts and the scaled-time waits of the player respawn and the package respawn. `DamageChain.Step` and `Level.Step` model the consequence of the clear and the timeout: once the match has ended, pending respawns never fire and contacts are dropped (`DamageChain.EndedMatchFreezesScene`, `Level.EndedLevelIsFrozen`). `DamageChain.Step` also models the lost-lives freeze, during which the match stays Playing (`DamageChain.LivesExhaustedFreezesScene`).
- Level.Step: the level does not hold the life counter, so it cannot see the lost-lives freeze. After that freeze it still accepts touches and package respawns, which over-approximates the game. The other per-frame components (sniper, grapple, player movement) are not told of any freeze either: their step functions take `dt` as given, and a frozen scene should pass them 0.
- The panel events (`ClearPanel`, `GameOverPanel`, and the panel request recorded by `DamageChain`'s `lostPanelShown`) are requests. The source forwards them only when a UI manager exists, and the model does not track whether one does.
- Unity sends no `Update` and no trigger callback to an inactive object. `Level.Step` skips touches of inactive pooled packages; `Package.MagnetUpdate` and `Package.OnTriggerEnter` are the callbacks themselves and do not check the object's active flag, so a caller must not deliver them to inactive objects.
- The preference store. Its saved value is a parameter of `GameManager.Start`, and a save is the event `BestTimeSaved`.
- Singleton set-up in `Awake`, which destroys duplicates. Each manager is modelled as present or absent.
- Random number generation. Draws are parameters, and `DrawsInRange` states only the ranges the generator guarantees. The rare-type probability itself is not modelled.
- Horizontal movement (`Move`) and the grapple pull. Both are physics and are reduced to a flag. Distances and raycast hits are parameters.
- Coroutine delays (1.5 s respawn, 2 s spawn, one frame before the initial burst). A delayed call is a pending counter plus an explicit "due" event.
- Unity's per-component enabling. A disabled `PlayerController` gets no `Update`; the model shows `PlayerHealth` disabling it but does not stop its frames.
- `Package.Start`. The component lookup is a parameter (`rendererKnown`), and the player lookup is the `playerDistance` option of `Package.MagnetUpdate`.
- Null entries in the package-type list, a missing `Package` component on a pooled object, and a null result of the pool's `Get`.
- 32-bit integer overflow of counts and scores, and floating-point rounding. Values are unbounded integers and exact reals.
- RadarUI.UpdateRadar: requires a non-zero radar range, because for a zero range the source divides 0 by 0. The same requirement sits on the radar's per-package helpers.
- RadarUI.UpdatePackageDot: requires a non-zero radar range, for the same reason.
- `UIManager.UpdateUI`, which only forwards the manager's counters to the text builders, and the decorative labels around each text. Only the variable part of each text is modelled.
- DirectionIndicator's distance label (`F0` rounding) and arrow angle, which are presentation only.
- PlayerHealth.RepeatedHitsLoseAtMostOneLife: it counts life requests, not the life counter's reaction. `DamageChain` covers the reaction.
- DamageChain.RunPreservesChainInv: holds only for scenes configured with at least one life. `maxLives` is an unchecked inspector field, and with 0 or fewer the counter goes negative (`DamageChain.NoLivesConfiguredGoesNegative`).
- LifeManager.LoseLife: the push of the new count to the lives text (`UpdateLives`, when a UI manager exists) is not returned as an event; `UIManager.LivesColor` and `IntText` model what that text shows.
- ObjectPool.Run: a `ReturnOp` whose number the pool never assigned names no object and is skipped; objects from elsewhere are returned through `ReturnForeignOp`.

## Findings

| source | as written | input that shows it | evidently intended | confidence | as-written member | corrected member |
|---|---|---|---|---|---|---|
| Assets/Scripts/UI/RadarUI.cs:47-54 | An out-of-range package keeps its map entry while its dot is hidden, and `GetDotFromPool` hands any hidden dot to the next package that needs one. | Package 1 is mapped to dot 0 and is now out of range, and package 2, enumerated after it, is in range: both end up mapped to dot 0. When both are in range, one of them is not drawn. | Each package on the radar has a dot of its own: release the entry of an out-of-range package when hiding its dot. | medium, not executed | RadarUI.SharedDot | RadarUI.UpdateRadarReleasing |
