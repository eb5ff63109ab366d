/** The match state machine: Playing until enough packages are collected
    (Cleared) or the countdown reaches zero (GameOver), with the collected
    count, total score, elapsed game time and the persisted best clear time.
    Calls into the UI, audio, the package spawner and the preference store
    are returned as events; the colour blend keeps only its blend factor.
    The panel events are requests: the source forwards them only when a UI
    manager exists, and without one they have no effect. */
module GameManager {
  import opened Common

  datatype GameState = Playing | Cleared | GameOver

  /** Inspector defaults of the scene. */
  const DefaultTargetCount: int := 15
  const DefaultTimeLimit: real := 180.0
  /** Best time assumed when the preference store holds none. */
  const DefaultBestTime: real := 999.0
  /** Score of a collect call that passes no score. */
  const DefaultScore: int := 1

  datatype Settings = Settings(targetPackageCount: int, timeLimit: real, hasSpawner: bool)

  datatype Game = Game(
    settings: Settings,
    state: GameState,
    collectedCount: int,
    totalScore: int,
    remainingTime: real,
    gameTime: real,
    bestTime: real)

  /** Requests the manager sends to its collaborators. */
  datatype Event =
    | SpawnerNotified                         // the spawner's collection handler
    | SkyBlend(t: real)                       // morning-to-evening blend factor
    | BestTimeSaved(t: real)                  // preference store written and flushed
    | ClearPanel(clearTime: real, bestTime: real)
    | GameOverPanel

  datatype Step = Step(game: Game, events: seq<Event>)

  /** Configuration the scene is meant to be authored with. */
  predicate ValidSettings(s: Settings) {
    s.targetPackageCount >= 1 && s.timeLimit >= 0.0
  }

  /** The state of a freshly loaded scene once `Start` has run; `stored` is
      the preference store's best time, if one was saved. */
  function Start(settings: Settings, stored: Option<real>): (g: Game)
    ensures g.state == Playing && g.settings == settings
    ensures g.collectedCount == 0 && g.totalScore == 0 && g.gameTime == 0.0
    ensures g.remainingTime == settings.timeLimit
    ensures stored.Some? ==> g.bestTime == stored.value
    ensures stored.None? ==> g.bestTime == DefaultBestTime
  {
    Game(settings, Playing, 0, 0, settings.timeLimit, 0.0, stored.GetOr(DefaultBestTime))
  }

  /** Timer expiry: the match is lost. */
  function EndGame(g: Game): (r: Step)
    ensures r.game == g.(state := GameOver)
    ensures r.events == [GameOverPanel]
  {
    Step(g.(state := GameOver), [GameOverPanel])
  }

  /** One frame of `dt` seconds. */
  function Tick(g: Game, dt: real): (r: Step)
    ensures g.state != Playing ==> r == Step(g, [])
    ensures g.state == Playing ==> r.game.gameTime == g.gameTime + dt
    ensures g.state == Playing && g.remainingTime - dt <= 0.0 ==>
              r.game.remainingTime == 0.0 && r.game.state == GameOver && r.events == [GameOverPanel]
    ensures g.state == Playing && g.remainingTime - dt > 0.0 ==>
              r.game.remainingTime == g.remainingTime - dt && r.game.state == Playing && r.events == []
    ensures r.game.settings == g.settings && r.game.bestTime == g.bestTime
    ensures r.game.collectedCount == g.collectedCount && r.game.totalScore == g.totalScore
  {
    if g.state != Playing then Step(g, [])
    else
      var left := g.remainingTime - dt;
      var timed :=
        if left <= 0.0 then EndGame(g.(remainingTime := 0.0))
        else Step(g.(remainingTime := left), []);
      Step(timed.game.(gameTime := g.gameTime + dt), timed.events)
  }

  /** The factor given to the morning-to-evening colour blend: the ratio
      collected/target, clamped to [0, 1] as the blend clamps it. A zero
      target divides a positive count to +infinity, which clamps to 1. */
  function SkyBlendFactor(count: int, target: int): (t: real)
    ensures 0.0 <= t <= 1.0
    ensures 0 <= count <= target && target > 0 ==> t == count as real / target as real
  {
    if target == 0 then (if count > 0 then 1.0 else 0.0)
    else Clamp01(count as real / target as real)
  }

  /** Success: record the clear time, keep the smaller best time, and save it
      only when it improved. */
  function GameClear(g: Game): (r: Step)
    ensures r.game.state == Cleared
    ensures var clearTime := g.settings.timeLimit - g.remainingTime;
      && (clearTime < g.bestTime ==> r.game.bestTime == clearTime)
      && (clearTime >= g.bestTime ==> r.game.bestTime == g.bestTime)
      && r.game.bestTime <= g.bestTime
      && (BestTimeSaved(clearTime) in r.events <==> clearTime < g.bestTime)
      && |r.events| >= 1 && r.events[|r.events| - 1] == ClearPanel(clearTime, r.game.bestTime)
    ensures r.game == g.(state := Cleared, bestTime := r.game.bestTime)
  {
    var clearTime := g.settings.timeLimit - g.remainingTime;
    if clearTime < g.bestTime then
      Step(g.(state := Cleared, bestTime := clearTime),
           [BestTimeSaved(clearTime), ClearPanel(clearTime, clearTime)])
    else
      Step(g.(state := Cleared), [ClearPanel(clearTime, g.bestTime)])
  }

  function CheckClearCondition(g: Game): (r: Step)
    ensures g.collectedCount >= g.settings.targetPackageCount ==> r == GameClear(g)
    ensures g.collectedCount < g.settings.targetPackageCount ==> r == Step(g, [])
  {
    if g.collectedCount >= g.settings.targetPackageCount then GameClear(g) else Step(g, [])
  }

  /** A package reports `score` (the caller passes DefaultScore when it has
      no score of its own). */
  function CollectPackage(g: Game, score: int): (r: Step)
    ensures g.state != Playing ==> r == Step(g, [])
    ensures g.state == Playing ==>
      && r.game.collectedCount == g.collectedCount + 1
      && r.game.totalScore == g.totalScore + score
      && r.game.remainingTime == g.remainingTime
      && r.game.gameTime == g.gameTime
      && (r.game.collectedCount >= g.settings.targetPackageCount <==> r.game.state == Cleared)
      && (r.game.state != Cleared ==> r.game.state == Playing && r.game.bestTime == g.bestTime)
      && (SpawnerNotified in r.events <==> g.settings.hasSpawner)
      && SkyBlend(SkyBlendFactor(g.collectedCount + 1, g.settings.targetPackageCount)) in r.events
    ensures r.game.settings == g.settings
  {
    if g.state != Playing then Step(g, [])
    else
      var counted := g.(collectedCount := g.collectedCount + 1, totalScore := g.totalScore + score);
      var notify := if g.settings.hasSpawner then [SpawnerNotified] else [];
      var sky := [SkyBlend(SkyBlendFactor(counted.collectedCount, g.settings.targetPackageCount))];
      var clear := CheckClearCondition(counted);
      Step(clear.game, notify + sky + clear.events)
  }

  /** Restart reloads the scene: the only way back to Playing is a fresh
      `Start`, which keeps nothing but the stored best time. */
  function RestartGame(g: Game, stored: Option<real>): (r: Game)
    ensures r.state == Playing && r.collectedCount == 0 && r.totalScore == 0
    ensures r.remainingTime == g.settings.timeLimit && r.gameTime == 0.0
    ensures r.settings == g.settings
    ensures stored.Some? ==> r.bestTime == stored.value
    ensures stored.None? ==> r.bestTime == DefaultBestTime
  {
    Start(g.settings, stored)
  }

  // ---------------------------------------------------------------------
  // Invariants over a match

  /** What holds of every reachable match with valid settings. */
  ghost predicate Inv(g: Game) {
    && ValidSettings(g.settings)
    && 0 <= g.collectedCount <= g.settings.targetPackageCount
    && (g.state == Cleared <==> g.collectedCount == g.settings.targetPackageCount)
    && 0.0 <= g.remainingTime <= g.settings.timeLimit
    && (g.state == GameOver ==> g.remainingTime == 0.0)
  }

  lemma StartEstablishesInv(settings: Settings, stored: Option<real>)
    requires ValidSettings(settings)
    ensures Inv(Start(settings, stored))
  {
  }

  lemma TickPreservesInv(g: Game, dt: real)
    requires Inv(g) && dt >= 0.0
    ensures Inv(Tick(g, dt).game)
    ensures Tick(g, dt).game.remainingTime <= g.remainingTime
  {
  }

  lemma CollectPreservesInv(g: Game, score: int)
    requires Inv(g)
    ensures Inv(CollectPackage(g, score).game)
  {
  }

  /** Restart reloads the scene, so the new match reads the record back from
      the store: after a clear that saved a record, the restarted match is a
      fresh reachable one that keeps that record. */
  lemma RestartAfterRecordKeepsBest(g: Game, b: real)
    requires Inv(g)
    requires BestTimeSaved(b) in GameClear(g).events
    ensures var c := GameClear(g).game;
      var r := RestartGame(c, Some(b));
      && Inv(r)
      && r.bestTime == c.bestTime < g.bestTime
      && b == g.settings.timeLimit - g.remainingTime
  {
  }

  /** The colour-blend ratio of a reachable match never leaves [0, 1], so the
      clamp of the blend never changes it. */
  lemma ProgressInUnitInterval(g: Game)
    requires Inv(g)
    ensures 0.0 <= g.collectedCount as real / g.settings.targetPackageCount as real <= 1.0
    ensures SkyBlendFactor(g.collectedCount, g.settings.targetPackageCount)
            == g.collectedCount as real / g.settings.targetPackageCount as real
  {
    var c := g.collectedCount as real;
    var t := g.settings.targetPackageCount as real;
    assert c / t <= 1.0 by {
      assert c <= t;
      assert c / t <= t / t;
    }
  }

  // ---------------------------------------------------------------------
  // Runs of frames and collect calls

  datatype Command = TickCmd(dt: real) | CollectCmd(score: int)

  function Apply(g: Game, c: Command): Game {
    match c
    case TickCmd(dt) => Tick(g, dt).game
    case CollectCmd(score) => CollectPackage(g, score).game
  }

  function Run(g: Game, cmds: seq<Command>): Game
    decreases |cmds|
  {
    if cmds == [] then g else Run(Apply(g, cmds[0]), cmds[1..])
  }

  /** Scores of the collect calls the manager accepted during a run. */
  function Accepted(g: Game, cmds: seq<Command>): seq<int>
    decreases |cmds|
  {
    if cmds == [] then []
    else
      var head := if cmds[0].CollectCmd? && g.state == Playing then [cmds[0].score] else [];
      head + Accepted(Apply(g, cmds[0]), cmds[1..])
  }

  function Sum(s: seq<int>): int {
    if s == [] then 0 else s[0] + Sum(s[1..])
  }

  lemma {:induction false} SumAppend(a: seq<int>, b: seq<int>)
    ensures Sum(a + b) == Sum(a) + Sum(b)
  {
    if a == [] {
      assert a + b == b;
    } else {
      assert (a + b)[1..] == a[1..] + b;
      SumAppend(a[1..], b);
    }
  }

  /** Once the match has ended, no frame and no collect call changes it:
      Cleared and GameOver are never left. */
  lemma {:induction false} EndedMatchIsFrozen(g: Game, cmds: seq<Command>)
    requires g.state != Playing
    ensures Run(g, cmds) == g
    decreases |cmds|
  {
    if cmds != [] {
      EndedMatchIsFrozen(Apply(g, cmds[0]), cmds[1..]);
    }
  }

  /** No step returns a match to Playing once it has left it, and a run that
      ends Playing was Playing at its start. */
  lemma {:induction false} PhaseMonotone(g: Game, cmds: seq<Command>)
    ensures g.state != Playing ==> Run(g, cmds).state == g.state
    ensures Run(g, cmds).state == Playing ==> g.state == Playing
    decreases |cmds|
  {
    if cmds != [] {
      PhaseMonotone(Apply(g, cmds[0]), cmds[1..]);
    }
  }

  /** The collected count is the number of accepted collect calls, the total
      score is the sum of their scores, and the settings never change. */
  lemma {:induction false} RunCountsAcceptedCollects(g: Game, cmds: seq<Command>)
    ensures Run(g, cmds).collectedCount == g.collectedCount + |Accepted(g, cmds)|
    ensures Run(g, cmds).totalScore == g.totalScore + Sum(Accepted(g, cmds))
    ensures Run(g, cmds).settings == g.settings
    decreases |cmds|
  {
    if cmds != [] {
      var g' := Apply(g, cmds[0]);
      RunCountsAcceptedCollects(g', cmds[1..]);
      var head := if cmds[0].CollectCmd? && g.state == Playing then [cmds[0].score] else [];
      SumAppend(head, Accepted(g', cmds[1..]));
    }
  }

  /** Over any run from a reachable match (frames of non-negative length),
      the invariant holds at the end, the countdown never rises, and fewer
      collects are accepted than the target leaves room for. */
  lemma {:induction false} RunPreservesInv(g: Game, cmds: seq<Command>)
    requires Inv(g)
    requires forall i :: 0 <= i < |cmds| && cmds[i].TickCmd? ==> cmds[i].dt >= 0.0
    ensures Inv(Run(g, cmds))
    ensures Run(g, cmds).remainingTime <= g.remainingTime
    ensures |Accepted(g, cmds)| <= g.settings.targetPackageCount - g.collectedCount
    decreases |cmds|
  {
    if cmds != [] {
      var g' := Apply(g, cmds[0]);
      match cmds[0] {
        case TickCmd(dt) => TickPreservesInv(g, dt);
        case CollectCmd(score) => CollectPreservesInv(g, score);
      }
      assert forall i :: 0 <= i < |cmds[1..]| && cmds[1..][i].TickCmd? ==> cmds[1..][i].dt >= 0.0 by {
        forall i | 0 <= i < |cmds[1..]| && cmds[1..][i].TickCmd?
          ensures cmds[1..][i].dt >= 0.0
        {
          assert cmds[1..][i] == cmds[i + 1];
        }
      }
      RunPreservesInv(g', cmds[1..]);
      RunCountsAcceptedCollects(g, cmds);
      RunCountsAcceptedCollects(g', cmds[1..]);
    }
  }

  /** Three collects of 10 against a target of 3 clear the match with a
      total score of 30 and show the clear panel exactly once. */
  lemma ThreeCollectsClear(settings: Settings)
    requires settings.targetPackageCount == 3 && settings.timeLimit == 10.0
    ensures var g0 := Start(settings, None);
      var s1 := CollectPackage(g0, 10);
      var s2 := CollectPackage(s1.game, 10);
      var s3 := CollectPackage(s2.game, 10);
      && s1.game.state == Playing && s2.game.state == Playing
      && s3.game.state == Cleared && s3.game.totalScore == 30
      && (forall e | e in s1.events + s2.events :: !e.ClearPanel?)
      && ClearPanel(0.0, 0.0) in s3.events
  {
    var g0 := Start(settings, None);
    var s1 := CollectPackage(g0, 10);
    var s2 := CollectPackage(s1.game, 10);
    var s3 := CollectPackage(s2.game, 10);
    assert s3.game.bestTime == 0.0;
  }

  /** A single frame as long as the whole time limit loses the match. */
  lemma FullLengthFrameLoses(settings: Settings)
    requires settings.timeLimit == 10.0
    ensures var r := Tick(Start(settings, None), 10.0);
      r.game.remainingTime == 0.0 && r.game.state == GameOver && r.events == [GameOverPanel]
  {
  }
}
