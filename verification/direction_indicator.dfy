/** The off-screen arrow: find the nearest active package, and when its
    screen position is off the screen show an arrow clamped inside a margin
    from the screen edges; otherwise hide it. Distances and screen positions
    come from the engine and are parameters. */
module DirectionIndicator {
  import opened Common

  const DefaultEdgeMargin: real := 50.0

  /** A tagged package as the indicator sees it this frame: whether it is
      active, its distance to the player, and its screen position (z is the
      depth in front of the camera). */
  datatype Candidate = Candidate(active: bool, distance: real, screen: Vec3)

  datatype Screen = Screen(width: real, height: real, margin: real)

  datatype Arrow = Hidden | Shown(pos: Vec3)

  /** The first active candidate at the smallest distance: later candidates
      replace the current one only when strictly nearer. */
  method FindNearestPackage(ps: seq<Candidate>) returns (r: Option<nat>)
    ensures r.None? <==> forall i :: 0 <= i < |ps| ==> !ps[i].active
    ensures r.Some? ==> r.value < |ps| && ps[r.value].active
    ensures r.Some? ==> forall i :: 0 <= i < |ps| && ps[i].active ==> ps[r.value].distance <= ps[i].distance
    ensures r.Some? ==> forall i :: 0 <= i < r.value && ps[i].active ==> ps[r.value].distance < ps[i].distance
  {
    r := None;
    var k := 0;
    while k < |ps|
      invariant 0 <= k <= |ps|
      invariant r.None? <==> forall i :: 0 <= i < k ==> !ps[i].active
      invariant r.Some? ==> r.value < k && ps[r.value].active
      invariant r.Some? ==> forall i :: 0 <= i < k && ps[i].active ==> ps[r.value].distance <= ps[i].distance
      invariant r.Some? ==> forall i :: 0 <= i < r.value && ps[i].active ==> ps[r.value].distance < ps[i].distance
    {
      if ps[k].active && (r.None? || ps[k].distance < ps[r.value].distance) {
        r := Some(k);
      }
      k := k + 1;
    }
  }

  predicate IsOffScreen(p: Vec3, s: Screen) {
    p.z < 0.0 || p.x < 0.0 || p.x > s.width || p.y < 0.0 || p.y > s.height
  }

  /** The engine's clamp: the lower bound wins when the bounds cross. */
  function Clamp(v: real, lo: real, hi: real): (r: real)
    ensures lo <= hi ==> lo <= r <= hi
    ensures lo <= v <= hi ==> r == v
  {
    if v < lo then lo else if v > hi then hi else v
  }

  /** The arrow's position: x and y clamped to the margin box, z kept. */
  function ClampToEdges(p: Vec3, s: Screen): (r: Vec3)
    ensures r.z == p.z
    ensures s.width >= 2.0 * s.margin ==> s.margin <= r.x <= s.width - s.margin
    ensures s.height >= 2.0 * s.margin ==> s.margin <= r.y <= s.height - s.margin
  {
    Vec3(Clamp(p.x, s.margin, s.width - s.margin), Clamp(p.y, s.margin, s.height - s.margin), p.z)
  }

  /** Clamping is idempotent, and a point inside the margin box is kept. */
  lemma ClampToEdgesIdempotent(p: Vec3, s: Screen)
    requires s.width >= 2.0 * s.margin && s.height >= 2.0 * s.margin
    ensures ClampToEdges(ClampToEdges(p, s), s) == ClampToEdges(p, s)
    ensures s.margin <= p.x <= s.width - s.margin && s.margin <= p.y <= s.height - s.margin ==>
      ClampToEdges(p, s) == p
  {
  }

  /** With a non-negative margin that fits the screen, a shown arrow lies on
      screen horizontally and vertically, even though the package does not. */
  lemma ClampedArrowOnScreen(p: Vec3, s: Screen)
    requires 0.0 <= s.margin && s.width >= 2.0 * s.margin && s.height >= 2.0 * s.margin
    requires p.z >= 0.0
    ensures !IsOffScreen(ClampToEdges(p, s), s)
  {
  }

  /** The arrow for one frame. */
  method Update(ps: seq<Candidate>, s: Screen) returns (a: Arrow)
    ensures a.Shown? <==> exists i :: 0 <= i < |ps| && ps[i].active && IsNearest(ps, i) && IsOffScreen(ps[i].screen, s)
    ensures a.Shown? ==> exists i :: 0 <= i < |ps| && IsNearest(ps, i) && a.pos == ClampToEdges(ps[i].screen, s)
  {
    var nearest := FindNearestPackage(ps);
    if nearest.Some? {
      var n := nearest.value;
      NearestIsUnique(ps, n);
      if IsOffScreen(ps[n].screen, s) {
        a := Shown(ClampToEdges(ps[n].screen, s));
      } else {
        a := Hidden;
      }
    } else {
      a := Hidden;
    }
  }

  /** Candidate `n` is the one the search picks. */
  ghost predicate IsNearest(ps: seq<Candidate>, n: nat) {
    && n < |ps| && ps[n].active
    && (forall i :: 0 <= i < |ps| && ps[i].active ==> ps[n].distance <= ps[i].distance)
    && (forall i :: 0 <= i < n && ps[i].active ==> ps[n].distance < ps[i].distance)
  }

  /** At most one candidate is nearest in that sense. */
  lemma NearestIsUnique(ps: seq<Candidate>, n: nat)
    requires IsNearest(ps, n)
    ensures forall m: nat :: IsNearest(ps, m) ==> m == n
  {
  }
}
