/** A collectible package: pulled toward a nearby player, collected once on
    contact with the player, reset for reuse by the spawner, and retyped
    with a package descriptor. The collect call reports its score to the
    match manager, which may refuse it; the package is collected and
    deactivated either way. */
module Package {
  import opened Common
  import GameManager

  /** A package type. Only `scoreValue` affects play; the colour and the
      weight only restyle the object. */
  datatype PackageData = PackageData(packageName: string, scoreValue: int, packageColor: Color, weight: real)

  /** The rigidbody: velocities and mass. */
  datatype Body = Body(velocity: Vec3, angularVelocity: Vec3, mass: real)

  /** The package behaviour. `body` is the rigidbody when one is attached;
      `rendererKnown` is whether the renderer has been looked up yet. */
  datatype Item = Item(
    data: Option<PackageData>,
    isCollected: bool,
    position: Vec3,
    body: Option<Body>,
    rendererKnown: bool,
    materialColor: Color,
    magnetRange: real,
    magnetSpeed: real)

  type PackageObject = GameObject<Item>

  const DefaultMagnetRange: real := 3.0
  const DefaultMagnetSpeed: real := 5.0
  const PlayerTag: string := "Player"
  const Zero: Vec3 := Vec3(0.0, 0.0, 0.0)

  /** The score a collect reports. */
  function ScoreOf(i: Item): (s: int)
    ensures i.data.Some? ==> s == i.data.value.scoreValue
    ensures i.data.None? ==> s == GameManager.DefaultScore
  {
    if i.data.Some? then i.data.value.scoreValue else GameManager.DefaultScore
  }

  /** One frame of the magnet. `playerDistance` is the distance to the
      player, `None` when no player was found; `toPlayer` is the unit
      direction from the package to the player. Without a rigidbody the
      pull fails and nothing changes. */
  function MagnetUpdate(o: PackageObject, playerDistance: Option<real>, toPlayer: Vec3): (r: PackageObject)
    ensures r.active == o.active
    ensures r.comp == o.comp.(body := r.comp.body)
    ensures r.comp.body.Some? == o.comp.body.Some?
    ensures r != o ==>
      && !o.comp.isCollected
      && playerDistance.Some? && playerDistance.value < o.comp.magnetRange
    ensures !o.comp.isCollected && playerDistance.Some? && playerDistance.value < o.comp.magnetRange
            && o.comp.body.Some? ==>
      r.comp.body == Some(o.comp.body.value.(velocity := Scale(toPlayer, o.comp.magnetSpeed)))
  {
    if o.comp.isCollected || playerDistance.None? then o
    else if playerDistance.value < o.comp.magnetRange && o.comp.body.Some? then
      var b := o.comp.body.value;
      o.(comp := o.comp.(body := Some(b.(velocity := Scale(toPlayer, o.comp.magnetSpeed)))))
    else o
  }

  /** The result of a collect: the package, and the match manager's step
      when one exists. */
  datatype Collected = Collected(obj: PackageObject, game: Option<GameManager.Step>)

  function Collect(o: PackageObject, game: Option<GameManager.Game>): (r: Collected)
    ensures r.obj.comp == o.comp.(isCollected := true)
    ensures !r.obj.active
    ensures game.None? ==> r.game.None?
    ensures game.Some? ==> r.game == Some(GameManager.CollectPackage(game.value, ScoreOf(o.comp)))
  {
    var marked := o.comp.(isCollected := true);
    var step := if game.Some? then Some(GameManager.CollectPackage(game.value, ScoreOf(o.comp))) else None;
    Collected(GameObject(false, marked), step)
  }

  /** Another collider enters the package's trigger. */
  function OnTriggerEnter(o: PackageObject, otherTag: string, game: Option<GameManager.Game>): (r: Collected)
    ensures otherTag == PlayerTag && !o.comp.isCollected ==> r == Collect(o, game)
    ensures otherTag != PlayerTag || o.comp.isCollected ==>
      r.obj == o && (game.Some? ==> r.game == Some(GameManager.Step(game.value, []))) && (game.None? ==> r.game.None?)
  {
    if otherTag == PlayerTag && !o.comp.isCollected then Collect(o, game)
    else Collected(o, if game.Some? then Some(GameManager.Step(game.value, [])) else None)
  }

  function ResetPackage(o: PackageObject): (r: PackageObject)
    ensures r.active && !r.comp.isCollected
    ensures r.comp.body.Some? == o.comp.body.Some?
    ensures o.comp.body.Some? ==>
      r.comp.body.value == o.comp.body.value.(velocity := Zero, angularVelocity := Zero)
    ensures r.comp == o.comp.(isCollected := false, body := r.comp.body)
  {
    var body := if o.comp.body.Some? then Some(o.comp.body.value.(velocity := Zero, angularVelocity := Zero)) else None;
    GameObject(true, o.comp.(isCollected := false, body := body))
  }

  /** Rebinds the descriptor, then restyles the object from it (colour, and
      mass when a rigidbody is attached) only when there is a descriptor and
      the renderer is known. */
  function SetPackageData(o: PackageObject, data: Option<PackageData>): (r: PackageObject)
    ensures r.comp.data == data && r.active == o.active
    ensures r.comp.isCollected == o.comp.isCollected && r.comp.position == o.comp.position
    ensures data.Some? && o.comp.rendererKnown ==>
      && r.comp.materialColor == data.value.packageColor
      && (o.comp.body.Some? ==> r.comp.body == Some(o.comp.body.value.(mass := data.value.weight)))
    ensures data.None? || !o.comp.rendererKnown ==> r.comp == o.comp.(data := data)
  {
    var bound := o.comp.(data := data);
    if data.Some? && o.comp.rendererKnown then
      var d := data.value;
      var body := if bound.body.Some? then Some(bound.body.value.(mass := d.weight)) else None;
      o.(comp := bound.(materialColor := d.packageColor, body := body))
    else o.(comp := bound)
  }

  // ---------------------------------------------------------------------
  // At most one collect between resets

  /** Trigger contacts in order, counting the collects they cause; the match
      manager is absent so that only the package is followed. */
  function Contacts(o: PackageObject, tags: seq<string>): (r: (PackageObject, nat))
    decreases |tags|
  {
    if tags == [] then (o, 0)
    else
      var c := OnTriggerEnter(o, tags[0], None);
      var rest := Contacts(c.obj, tags[1..]);
      (rest.0, rest.1 + if c.obj.comp.isCollected && !o.comp.isCollected then 1 else 0)
  }

  /** However many contacts arrive, a package collects at most once, and
      exactly once when it was uncollected and the player touched it. */
  lemma {:induction false} CollectsAtMostOnce(o: PackageObject, tags: seq<string>)
    ensures Contacts(o, tags).1 <= 1
    ensures o.comp.isCollected ==> Contacts(o, tags) == (o, 0)
    ensures !o.comp.isCollected ==> (Contacts(o, tags).1 == 1 <==> PlayerTag in tags)
    decreases |tags|
  {
    if tags != [] {
      var c := OnTriggerEnter(o, tags[0], None);
      CollectsAtMostOnce(c.obj, tags[1..]);
      assert PlayerTag in tags <==> tags[0] == PlayerTag || PlayerTag in tags[1..] by {
        assert tags == [tags[0]] + tags[1..];
      }
    }
  }

  /** The score is lost, not the package: when the match has ended, a
      player contact still collects and deactivates the package, while the
      match is left exactly as it was. */
  lemma CollectedEvenWhenRefused(o: PackageObject, g: GameManager.Game)
    requires !o.comp.isCollected && g.state != GameManager.Playing
    ensures var r := OnTriggerEnter(o, PlayerTag, Some(g));
      r.obj.comp.isCollected && !r.obj.active && r.game == Some(GameManager.Step(g, []))
  {
  }
}
