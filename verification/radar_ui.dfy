/** The radar: one dot per active package within radar range, taken from a
    list of reusable dots. Each frame the package-to-dot map is reconciled
    with the active packages: in-range packages get (or keep) an active dot,
    out-of-range ones keep their entry with the dot hidden, and entries for
    packages no longer active are dropped with their dots hidden. A hidden
    dot is free for reuse even while it is still mapped, so two packages can
    end up sharing one dot. */
module RadarUI {
  import opened Common

  const DefaultRadarRange: real := 50.0
  const DefaultRadarRadius: real := 100.0
  /** Dot scale at the centre and at the rim of the radar. */
  const NearScale: real := 1.2
  const FarScale: real := 0.6

  datatype Settings = Settings(radarRange: real, radarRadius: real, dotPrefabActive: bool)

  /** A dot: whether it is shown, its distance from the radar centre in
      pixels, and its scale. */
  datatype Dot = Dot(active: bool, offset: real, scale: real)

  /** `packageDots` maps package numbers to dot numbers, indices into
      `dotPool`. */
  datatype Radar = Radar(packageDots: map<nat, nat>, dotPool: seq<Dot>)

  /** A tagged package as the radar sees it: its number, whether it is
      active, its distance to the player, and whether its horizontal offset
      from the player is zero (a zero offset has no direction to scale). */
  datatype Seen = Seen(id: nat, active: bool, distance: real, flat: bool)

  ghost predicate Valid(r: Radar) {
    forall p :: p in r.packageDots ==> r.packageDots[p] < |r.dotPool|
  }

  function Start(): (r: Radar)
    ensures r.packageDots == map[] && r.dotPool == []
    ensures Valid(r) && Owned(r)
  {
    Radar(map[], [])
  }

  /** The engine's blend, with `t` clamped to [0, 1]. */
  function Lerp(a: real, b: real, t: real): real {
    a + (b - a) * Clamp01(t)
  }

  /** Where and how large a package's dot is drawn. */
  function DotFor(cfg: Settings, distance: real, flat: bool): (d: Dot)
    requires cfg.radarRange != 0.0
    ensures d.active
    ensures 0.0 <= distance <= cfg.radarRange && 0.0 <= cfg.radarRadius ==>
      && 0.0 <= distance / cfg.radarRange <= 1.0
      && 0.0 <= d.offset <= cfg.radarRadius
      && FarScale <= d.scale <= NearScale
  {
    var normalized := distance / cfg.radarRange;
    assert 0.0 <= normalized <= 1.0 && 0.0 <= cfg.radarRadius ==> normalized * cfg.radarRadius <= 1.0 * cfg.radarRadius;
    Dot(true, if flat then 0.0 else normalized * cfg.radarRadius, Lerp(NearScale, FarScale, normalized))
  }

  /** The first hidden dot in list order, or a new dot added at the end. */
  function GetDotFromPool(cfg: Settings, pool: seq<Dot>): (r: (seq<Dot>, nat))
    ensures r.1 < |r.0| && r.1 <= |pool|
    ensures r.1 < |pool| ==> r.0 == pool && !pool[r.1].active && forall i :: 0 <= i < r.1 ==> pool[i].active
    ensures r.1 == |pool| ==> r.0 == pool + [Dot(cfg.dotPrefabActive, 0.0, 1.0)] && forall i :: 0 <= i < |pool| ==> pool[i].active
    decreases |pool|
  {
    if pool == [] then ([Dot(cfg.dotPrefabActive, 0.0, 1.0)], 0)
    else if !pool[0].active then (pool, 0)
    else
      var rest := GetDotFromPool(cfg, pool[1..]);
      assert pool == [pool[0]] + pool[1..];
      ([pool[0]] + rest.0, rest.1 + 1)
  }

  /** The package's existing dot, or a free one newly assigned to it. */
  function Attach(cfg: Settings, r: Radar, p: nat): (r': Radar)
    requires Valid(r)
    ensures Valid(r') && p in r'.packageDots
    ensures p in r.packageDots ==> r' == r
    ensures p !in r.packageDots ==>
      && r'.packageDots == r.packageDots[p := GetDotFromPool(cfg, r.dotPool).1]
      && r'.dotPool == GetDotFromPool(cfg, r.dotPool).0
    ensures |r'.dotPool| >= |r.dotPool|
    ensures forall i :: 0 <= i < |r.dotPool| ==> r'.dotPool[i] == r.dotPool[i]
  {
    if p in r.packageDots then r
    else
      var got := GetDotFromPool(cfg, r.dotPool);
      Radar(r.packageDots[p := got.1], got.0)
  }

  function UpdatePackageDot(cfg: Settings, r: Radar, p: nat, distance: real, flat: bool): (r': Radar)
    requires Valid(r) && cfg.radarRange != 0.0
    ensures Valid(r') && p in r'.packageDots
    ensures r'.packageDots == Attach(cfg, r, p).packageDots
    ensures r'.dotPool[r'.packageDots[p]] == DotFor(cfg, distance, flat)
    ensures |r'.dotPool| >= |r.dotPool|
    ensures forall i :: 0 <= i < |r.dotPool| && i != r'.packageDots[p] ==> r'.dotPool[i] == r.dotPool[i]
  {
    var a := Attach(cfg, r, p);
    a.(dotPool := a.dotPool[a.packageDots[p] := DotFor(cfg, distance, flat)])
  }

  function Hide(pool: seq<Dot>, d: nat): seq<Dot>
    requires d < |pool|
  {
    pool[d := pool[d].(active := false)]
  }

  /** One package of the frame's list. */
  function Visit(cfg: Settings, r: Radar, s: Seen): (r': Radar)
    requires Valid(r) && cfg.radarRange != 0.0
    ensures Valid(r') && |r'.dotPool| >= |r.dotPool|
    ensures r.packageDots.Keys <= r'.packageDots.Keys
    ensures !s.active ==> r' == r
    ensures s.active && s.distance <= cfg.radarRange ==>
      s.id in r'.packageDots && r'.dotPool[r'.packageDots[s.id]].active
    ensures s.active && s.distance > cfg.radarRange ==>
      && r'.packageDots == r.packageDots
      && (s.id in r.packageDots ==> !r'.dotPool[r.packageDots[s.id]].active)
  {
    if !s.active then r
    else if s.distance <= cfg.radarRange then UpdatePackageDot(cfg, r, s.id, s.distance, s.flat)
    else if s.id in r.packageDots then r.(dotPool := Hide(r.dotPool, r.packageDots[s.id]))
    else r
  }

  function VisitAll(cfg: Settings, r: Radar, ss: seq<Seen>): (r': Radar)
    requires Valid(r) && cfg.radarRange != 0.0
    ensures Valid(r') && |r'.dotPool| >= |r.dotPool|
    ensures r.packageDots.Keys <= r'.packageDots.Keys
    ensures r'.packageDots.Keys <= r.packageDots.Keys + ActiveIds(ss)
    decreases |ss|
  {
    if ss == [] then r
    else
      var rest := VisitAll(cfg, Visit(cfg, r, ss[0]), ss[1..]);
      assert ActiveIds(ss) == (if ss[0].active then {ss[0].id} else {}) + ActiveIds(ss[1..]);
      rest
  }

  function ActiveIds(ss: seq<Seen>): set<nat> {
    set i | 0 <= i < |ss| && ss[i].active :: ss[i].id
  }

  /** Drops the entries of packages not in `active`, hiding their dots. */
  function DropInactive(r: Radar, active: set<nat>): (r': Radar)
    requires Valid(r)
    ensures Valid(r') && |r'.dotPool| == |r.dotPool|
    ensures r'.packageDots.Keys == r.packageDots.Keys * active
    ensures forall p :: p in r'.packageDots ==> r'.packageDots[p] == r.packageDots[p]
    ensures forall p :: p in r.packageDots && p !in active ==> !r'.dotPool[r.packageDots[p]].active
    ensures forall i :: 0 <= i < |r.dotPool| && r'.dotPool[i] != r.dotPool[i] ==>
      exists p :: p in r.packageDots && p !in active && r.packageDots[p] == i
  {
    var dropped := set p | p in r.packageDots && p !in active :: r.packageDots[p];
    var pool := seq(|r.dotPool|, i requires 0 <= i < |r.dotPool| =>
      if i in dropped then r.dotPool[i].(active := false) else r.dotPool[i]);
    Radar(map p | p in r.packageDots && p in active :: r.packageDots[p], pool)
  }

  /** One frame of the radar over the tagged packages, in enumeration order. */
  function UpdateRadar(cfg: Settings, r: Radar, ss: seq<Seen>): (r': Radar)
    requires Valid(r) && cfg.radarRange != 0.0
    ensures Valid(r') && |r'.dotPool| >= |r.dotPool|
    ensures r'.packageDots.Keys <= ActiveIds(ss)
    ensures forall p :: p in r.packageDots && p in ActiveIds(ss) ==> p in r'.packageDots
    ensures forall p :: p in r.packageDots && p !in ActiveIds(ss) ==> p !in r'.packageDots
  {
    var visited := VisitAll(cfg, r, ss);
    DropInactive(visited, ActiveIds(ss))
  }

  /** Every active in-range package has an entry after the frame. */
  lemma {:induction false} InRangeGetsEntry(cfg: Settings, r: Radar, ss: seq<Seen>, k: nat)
    requires Valid(r) && cfg.radarRange != 0.0
    requires k < |ss| && ss[k].active && ss[k].distance <= cfg.radarRange
    ensures ss[k].id in UpdateRadar(cfg, r, ss).packageDots
  {
    VisitAllKeepsVisited(cfg, r, ss, k);
    assert ss[k].id in ActiveIds(ss);
  }

  lemma {:induction false} VisitAllKeepsVisited(cfg: Settings, r: Radar, ss: seq<Seen>, k: nat)
    requires Valid(r) && cfg.radarRange != 0.0
    requires k < |ss| && ss[k].active && ss[k].distance <= cfg.radarRange
    ensures ss[k].id in VisitAll(cfg, r, ss).packageDots
    decreases |ss|
  {
    if k == 0 {
      assert ss[0].id in Visit(cfg, r, ss[0]).packageDots;
    } else {
      VisitAllKeepsVisited(cfg, Visit(cfg, r, ss[0]), ss[1..], k - 1);
    }
  }

  /** Each mapped package has a dot of its own, and every mapped dot is
      shown: what the radar evidently means its map to be. */
  ghost predicate Owned(r: Radar) {
    && Valid(r)
    && (forall p, q :: p in r.packageDots && q in r.packageDots && p != q ==>
          r.packageDots[p] != r.packageDots[q])
    && (forall p :: p in r.packageDots ==> r.dotPool[r.packageDots[p]].active)
  }

  /** Dots are not owned: a package hidden for being out of range frees its
      dot while keeping its entry, and a package seen later in the same frame
      picks that dot up, so both entries name one dot. */
  lemma SharedDot(cfg: Settings)
    requires cfg.radarRange == 50.0 && cfg.radarRadius == 100.0
    ensures var r := Radar(map[1 := 0], [Dot(true, 10.0, 1.0)]);
      var ss := [Seen(1, true, 80.0, false), Seen(2, true, 10.0, false)];
      var r' := UpdateRadar(cfg, r, ss);
      && Owned(r)
      && 1 in r'.packageDots && 2 in r'.packageDots && r'.packageDots[1] == r'.packageDots[2] == 0
      && !Owned(r')
  {
    var r := Radar(map[1 := 0], [Dot(true, 10.0, 1.0)]);
    var ss := [Seen(1, true, 80.0, false), Seen(2, true, 10.0, false)];
    var v1 := Visit(cfg, r, ss[0]);
    assert v1 == Radar(map[1 := 0], [Dot(false, 10.0, 1.0)]);
    var v2 := Visit(cfg, v1, ss[1]);
    assert v2.packageDots == map[1 := 0, 2 := 0];
    assert VisitAll(cfg, r, ss) == v2 by {
      assert ss[1..][1..] == [];
    }
    assert ActiveIds(ss) == {1, 2} by {
      assert ss[0].id == 1 && ss[1].id == 2;
    }
  }

  // ---------------------------------------------------------------------
  // The frame with out-of-range entries released

  /** One package, releasing the entry of an out-of-range package along with
      hiding its dot, so a hidden dot is never still mapped. */
  function VisitReleasing(cfg: Settings, r: Radar, s: Seen): (r': Radar)
    requires Owned(r) && cfg.radarRange != 0.0
    ensures Owned(r') && |r'.dotPool| >= |r.dotPool|
    ensures !s.active ==> r' == r
    ensures s.active && s.distance <= cfg.radarRange ==>
      s.id in r'.packageDots && r'.dotPool[r'.packageDots[s.id]] == DotFor(cfg, s.distance, s.flat)
    ensures s.active && s.distance > cfg.radarRange ==> r'.packageDots == r.packageDots - {s.id}
    ensures r'.packageDots.Keys <= r.packageDots.Keys + {s.id}
  {
    if !s.active then r
    else if s.distance <= cfg.radarRange then
      var r' := UpdatePackageDot(cfg, r, s.id, s.distance, s.flat);
      OwnedAfterUpdate(cfg, r, s.id, s.distance, s.flat);
      r'
    else if s.id in r.packageDots then
      var d := r.packageDots[s.id];
      var r' := Radar(r.packageDots - {s.id}, Hide(r.dotPool, d));
      assert forall p :: p in r'.packageDots ==> r'.packageDots[p] != d;
      r'
    else r
  }

  /** Placing an in-range package keeps dots owned: a newly assigned dot
      was hidden, so no other package held it. */
  lemma OwnedAfterUpdate(cfg: Settings, r: Radar, p: nat, distance: real, flat: bool)
    requires Owned(r) && cfg.radarRange != 0.0
    ensures Owned(UpdatePackageDot(cfg, r, p, distance, flat))
  {
    var r' := UpdatePackageDot(cfg, r, p, distance, flat);
    var d := r'.packageDots[p];
    if p !in r.packageDots {
      var got := GetDotFromPool(cfg, r.dotPool);
      assert d == got.1;
      forall q | q in r.packageDots
        ensures r.packageDots[q] != d
      {
        assert r.dotPool[r.packageDots[q]].active;
      }
    }
  }

  function VisitAllReleasing(cfg: Settings, r: Radar, ss: seq<Seen>): (r': Radar)
    requires Owned(r) && cfg.radarRange != 0.0
    ensures Owned(r') && |r'.dotPool| >= |r.dotPool|
    ensures r'.packageDots.Keys <= r.packageDots.Keys + ActiveIds(ss)
    decreases |ss|
  {
    if ss == [] then r
    else
      assert ActiveIds(ss) == (if ss[0].active then {ss[0].id} else {}) + ActiveIds(ss[1..]);
      VisitAllReleasing(cfg, VisitReleasing(cfg, r, ss[0]), ss[1..])
  }

  /** The frame with out-of-range entries released. Every package keeps a
      dot of its own, every mapped dot is shown, and only active packages
      stay mapped. */
  function UpdateRadarReleasing(cfg: Settings, r: Radar, ss: seq<Seen>): (r': Radar)
    requires Owned(r) && cfg.radarRange != 0.0
    ensures Owned(r') && |r'.dotPool| >= |r.dotPool|
    ensures r'.packageDots.Keys <= ActiveIds(ss)
  {
    var visited := VisitAllReleasing(cfg, r, ss);
    var r' := DropInactive(visited, ActiveIds(ss));
    r'
  }

  /** The released frame places the package that the shared-dot run lost:
      both packages end up with dots of their own. */
  lemma ReleasingKeepsDotsApart(cfg: Settings)
    requires cfg.radarRange == 50.0 && cfg.radarRadius == 100.0
    ensures var r := Radar(map[1 := 0], [Dot(true, 10.0, 1.0)]);
      var ss := [Seen(1, true, 80.0, false), Seen(2, true, 10.0, false)];
      var r' := UpdateRadarReleasing(cfg, r, ss);
      1 !in r'.packageDots && 2 in r'.packageDots
  {
    var r := Radar(map[1 := 0], [Dot(true, 10.0, 1.0)]);
    var ss := [Seen(1, true, 80.0, false), Seen(2, true, 10.0, false)];
    var v1 := VisitReleasing(cfg, r, ss[0]);
    assert v1.packageDots == map[];
    var v2 := VisitReleasing(cfg, v1, ss[1]);
    assert 2 in v2.packageDots;
    assert VisitAllReleasing(cfg, r, ss) == v2 by {
      assert ss[1..][1..] == [];
    }
    assert ActiveIds(ss) == {1, 2} by {
      assert ss[0].id == 1 && ss[1].id == 2;
    }
  }
}
