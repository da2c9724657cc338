/** One beam bunch: a cloud of particle positions, its velocity and direction of
    flight, and the 3-D count histogram that is rebuilt from the positions. */
module Bunches {
  import opened Sums
  import opened Histograms

  /** A position or displacement in mm (TVector3). */
  datatype Vec3 = Vec3(x: real, y: real, z: real)

  const Origin: Vec3 := Vec3(0.0, 0.0, 0.0)

  /** ROOT's kBlue, the marker colour a new bunch is drawn with. */
  const Blue: int := 600

  /** Speed of light in mm/ns. */
  const Light: real := 299.792

  /** TVector3 `+=`. */
  function Plus(p: Vec3, d: Vec3): Vec3
  {
    Vec3(p.x + d.x, p.y + d.y, p.z + d.z)
  }

  /** The shift one `move(dt)` applies: `ds = vel*dt` along each component of `dir`. */
  function Displacement(vel: real, dir: Vec3, dt: real): Vec3
  {
    var ds := vel * dt;
    Vec3(ds * dir.x, ds * dir.y, ds * dir.z)
  }

  /** Every point shifted by the same vector, in the same order. */
  function Shifted(ps: seq<Vec3>, d: Vec3): (r: seq<Vec3>)
    ensures |r| == |ps|
    ensures forall i :: 0 <= i < |ps| ==> r[i] == Plus(ps[i], d)
  {
    seq(|ps|, i requires 0 <= i < |ps| => Plus(ps[i], d))
  }

  /** TVector3::RotateY by the angle whose cosine is `c` and sine is `s`. */
  function RotY(c: real, s: real, p: Vec3): Vec3
  {
    Vec3(s * p.z + c * p.x, p.y, c * p.z - s * p.x)
  }

  /** Every point rotated about the y axis, in the same order. */
  function Rotated(c: real, s: real, ps: seq<Vec3>): (r: seq<Vec3>)
    ensures |r| == |ps|
    ensures forall i :: 0 <= i < |ps| ==> r[i] == RotY(c, s, ps[i])
  {
    seq(|ps|, i requires 0 <= i < |ps| => RotY(c, s, ps[i]))
  }

  /** Moving by zero time leaves every point where it was. */
  lemma MoveZero(ps: seq<Vec3>, vel: real, dir: Vec3)
    ensures Shifted(ps, Displacement(vel, dir, 0.0)) == ps
  {
  }

  /** Two moves with the same velocity and direction add their time steps. */
  lemma MoveTwice(ps: seq<Vec3>, vel: real, dir: Vec3, a: real, b: real, c: real)
    requires c == a + b
    ensures Shifted(Shifted(ps, Displacement(vel, dir, a)), Displacement(vel, dir, b))
            == Shifted(ps, Displacement(vel, dir, c))
  {
    var da, db, dc := Displacement(vel, dir, a), Displacement(vel, dir, b), Displacement(vel, dir, c);
    var sa, sb, sc := vel * a, vel * b, vel * c;
    assert sc == sa + sb;
    assert sc * dir.x == sa * dir.x + sb * dir.x;
    assert sc * dir.y == sa * dir.y + sb * dir.y;
    assert sc * dir.z == sa * dir.z + sb * dir.z;
    assert Plus(da, db) == dc;
    var r := Shifted(Shifted(ps, da), db);
    forall i | 0 <= i < |ps|
      ensures r[i] == Plus(ps[i], dc)
    {
      assert r[i] == Plus(Plus(ps[i], da), db);
    }
  }

  /** Squared length of a vector. */
  function Norm2(v: Vec3): real
  {
    v.x * v.x + v.y * v.y + v.z * v.z
  }

  /** Along a unit direction one move covers the distance `vel*dt`: the squared length
      of the shift is `(vel*dt)^2`. */
  lemma DisplacementLength(vel: real, dir: Vec3, dt: real)
    requires Norm2(dir) == 1.0
    ensures Norm2(Displacement(vel, dir, dt)) == (vel * dt) * (vel * dt)
  {
    var ds := vel * dt;
    calc {
      Norm2(Displacement(vel, dir, dt));
      (ds * dir.x) * (ds * dir.x) + (ds * dir.y) * (ds * dir.y) + (ds * dir.z) * (ds * dir.z);
      (ds * ds) * Norm2(dir);
    }
  }

  /** Moving forward and then back by the same time restores the points. */
  lemma MoveBack(ps: seq<Vec3>, vel: real, dir: Vec3, a: real)
    ensures Shifted(Shifted(ps, Displacement(vel, dir, a)), Displacement(vel, dir, -a)) == ps
  {
    MoveTwice(ps, vel, dir, a, -a, 0.0);
    MoveZero(ps, vel, dir);
  }

  /** With `c*c + s*s == 1` a rotation about y keeps `y` and the distance from the y axis. */
  lemma RotYIsometry(c: real, s: real, p: Vec3)
    requires c * c + s * s == 1.0
    ensures var q := RotY(c, s, p);
            q.y == p.y && q.x * q.x + q.z * q.z == p.x * p.x + p.z * p.z
  {
    var q := RotY(c, s, p);
    calc {
      q.x * q.x + q.z * q.z;
      (s * p.z + c * p.x) * (s * p.z + c * p.x) + (c * p.z - s * p.x) * (c * p.z - s * p.x);
      (c * c + s * s) * (p.x * p.x) + (c * c + s * s) * (p.z * p.z);
      p.x * p.x + p.z * p.z;
    }
  }

  /** Rotating by the opposite angle undoes a rotation. */
  lemma RotYInverse(c: real, s: real, p: Vec3)
    requires c * c + s * s == 1.0
    ensures RotY(c, -s, RotY(c, s, p)) == p
  {
    var q := RotY(c, s, p);
    calc {
      -s * q.z + c * q.x;
      -s * (c * p.z - s * p.x) + c * (s * p.z + c * p.x);
      (c * c + s * s) * p.x;
    }
    calc {
      c * q.z + s * q.x;
      c * (c * p.z - s * p.x) + s * (s * p.z + c * p.x);
      (c * c + s * s) * p.z;
    }
  }

  /** Two rotations about y compose into one by the summed angle. */
  lemma RotYCompose(c1: real, s1: real, c2: real, s2: real, p: Vec3)
    ensures RotY(c2, s2, RotY(c1, s1, p)) == RotY(c1 * c2 - s1 * s2, s1 * c2 + c1 * s2, p)
  {
    var q := RotY(c1, s1, p);
    calc {
      s2 * q.z + c2 * q.x;
      s2 * (c1 * p.z - s1 * p.x) + c2 * (s1 * p.z + c1 * p.x);
      (s1 * c2 + c1 * s2) * p.z + (c1 * c2 - s1 * s2) * p.x;
    }
    calc {
      c2 * q.z - s2 * q.x;
      c2 * (c1 * p.z - s1 * p.x) - s2 * (s1 * p.z + c1 * p.x);
      (c1 * c2 - s1 * s2) * p.z - (s1 * c2 + c1 * s2) * p.x;
    }
  }

  /** Point `p` falls into bin `(i, j, k)` of the given axes. */
  predicate InCell(ax: Axis, ay: Axis, az: Axis, p: Vec3, i: nat, j: nat, k: nat)
    requires ax.Valid() && ay.Valid() && az.Valid()
  {
    ax.FindBin(p.x) == i && ay.FindBin(p.y) == j && az.FindBin(p.z) == k
  }

  /** How many of the points fall into bin `(i, j, k)`. */
  function CountIn(ax: Axis, ay: Axis, az: Axis, ps: seq<Vec3>, i: nat, j: nat, k: nat): nat
    requires ax.Valid() && ay.Valid() && az.Valid()
  {
    if |ps| == 0 then 0
    else CountIn(ax, ay, az, ps[..|ps| - 1], i, j, k) + (if InCell(ax, ay, az, ps[|ps| - 1], i, j, k) then 1 else 0)
  }

  /** The histogram `Reset` followed by one unit-weight `Fill` per point, in order. */
  function Binning(ax: Axis, ay: Axis, az: Axis, ps: seq<Vec3>): (h: Hist3)
    requires ax.Valid() && ay.Valid() && az.Valid()
    ensures h.Valid() && h.ax == ax && h.ay == ay && h.az == az
  {
    if |ps| == 0 then Zero3(ax, ay, az)
    else
      var p := ps[|ps| - 1];
      Binning(ax, ay, az, ps[..|ps| - 1]).Fill(p.x, p.y, p.z)
  }

  /** Every bin of the binning holds exactly the number of points that fall into it. */
  lemma {:induction false} BinningCounts(ax: Axis, ay: Axis, az: Axis, ps: seq<Vec3>)
    requires ax.Valid() && ay.Valid() && az.Valid()
    ensures var h := Binning(ax, ay, az, ps);
            forall i: nat, j: nat, k: nat :: h.InBox(i, j, k) ==> h.cells[i][j][k] == CountIn(ax, ay, az, ps, i, j, k)
  {
    if |ps| > 0 {
      var p := ps[|ps| - 1];
      BinningCounts(ax, ay, az, ps[..|ps| - 1]);
      FillCells(Binning(ax, ay, az, ps[..|ps| - 1]), p.x, p.y, p.z);
    }
  }

  /** The binning holds one count per point, under- and overflow included. */
  lemma {:induction false} BinningTotal(ax: Axis, ay: Axis, az: Axis, ps: seq<Vec3>)
    requires ax.Valid() && ay.Valid() && az.Valid()
    ensures Binning(ax, ay, az, ps).Total() == |ps|
  {
    if |ps| == 0 {
      Zero3Total(ax, ay, az);
    } else {
      var p := ps[|ps| - 1];
      BinningTotal(ax, ay, az, ps[..|ps| - 1]);
      FillTotal(Binning(ax, ay, az, ps[..|ps| - 1]), p.x, p.y, p.z);
    }
  }

  /** The binning of a longer list extends the binning of its prefix by the next point. */
  lemma BinningStep(ax: Axis, ay: Axis, az: Axis, ps: seq<Vec3>, i: nat)
    requires ax.Valid() && ay.Valid() && az.Valid() && i < |ps|
    ensures Binning(ax, ay, az, ps[..i + 1]) == Binning(ax, ay, az, ps[..i]).Fill(ps[i].x, ps[i].y, ps[i].z)
  {
    assert ps[..i + 1][..i] == ps[..i];
  }

  /** The state of one bunch as a value: its fields at one moment. */
  datatype BunchState = BunchState(points: seq<Vec3>, hxyz: Hist3, vel: real, dir: Vec3, markerColor: int)
  {
    /** `hxyz` is the binning of the points on its own axes. */
    predicate Binned()
    {
      hxyz.Valid() && hxyz == Binning(hxyz.ax, hxyz.ay, hxyz.az, points)
    }

    /** The state after `move(dt)`: every point shifted by `vel*dt` along `dir`, the
        histogram rebuilt from them on its own axes. */
    function Moved(dt: real): (s: BunchState)
      requires hxyz.Valid()
      ensures s.Binned() && s.hxyz.Total() == |points| && |s.points| == |points|
      ensures s.hxyz.ax == hxyz.ax && s.hxyz.ay == hxyz.ay && s.hxyz.az == hxyz.az
      ensures s.vel == vel && s.dir == dir && s.markerColor == markerColor
    {
      var ps := Shifted(points, Displacement(vel, dir, dt));
      BinningTotal(hxyz.ax, hxyz.ay, hxyz.az, ps);
      this.(points := ps, hxyz := Binning(hxyz.ax, hxyz.ay, hxyz.az, ps))
    }

    /** The state after `set_bins`: the same points binned on new axes. */
    function Rebinned(ax: Axis, ay: Axis, az: Axis): (s: BunchState)
      requires ax.Valid() && ay.Valid() && az.Valid()
      ensures s.Binned() && s.hxyz.Total() == |points|
      ensures s.hxyz.ax == ax && s.hxyz.ay == ay && s.hxyz.az == az
      ensures s.points == points && s.vel == vel && s.dir == dir && s.markerColor == markerColor
    {
      BinningTotal(ax, ay, az, points);
      this.(hxyz := Binning(ax, ay, az, points))
    }
  }

  /** Two moves of a bunch add their time steps. */
  lemma MovedTwice(s: BunchState, a: real, b: real, c: real)
    requires s.hxyz.Valid() && c == a + b
    ensures s.Moved(a).Moved(b) == s.Moved(c)
  {
    MoveTwice(s.points, s.vel, s.dir, a, b, c);
  }

  /** Moving a bunch back by the time it was moved restores its state, provided its
      histogram was the binning of its points to begin with. */
  lemma MovedBack(s: BunchState, a: real)
    requires s.Binned()
    ensures s.Moved(a).Moved(-a) == s
  {
    MoveBack(s.points, s.vel, s.dir, a);
  }

  /** Binning again on the axes a bunch already has changes nothing for a binned bunch. */
  lemma RebinnedSame(s: BunchState)
    requires s.Binned()
    ensures s.Rebinned(s.hxyz.ax, s.hxyz.ay, s.hxyz.az) == s
  {
  }

  class Bunch {
    /** Particle positions; the only position state of the bunch. */
    var points: seq<Vec3>
    /** Particle distribution in x, y and z. */
    var hxyz: Hist3
    /** Speed in mm/ns. */
    var vel: real
    /** Direction of flight, documented as a unit vector. */
    var dir: Vec3
    /** Marker colour of the xz graph. */
    var markerColor: int

    predicate Valid()
      reads this
    {
      hxyz.Valid()
    }

    /** The bunch's fields as a value. */
    function State(): BunchState
      reads this
    {
      BunchState(points, hxyz, vel, dir, markerColor)
    }

    /** `hxyz` is the binning of the current points on its own axes. */
    predicate Binned()
      reads this
    {
      State().Binned()
    }

    /** A bunch of `npart` particles; `draw(i)` is the `i`-th sampled position. */
    constructor (npart: int, draw: nat -> Vec3)
      ensures Valid()
      ensures |points| == if npart <= 0 then 0 else npart
      ensures forall i :: 0 <= i < |points| ==> points[i] == draw(i)
      ensures hxyz == Zero3(DefaultAxis, DefaultAxis, DefaultAxis)
      ensures vel == 0.0 && dir == Origin && markerColor == Blue
    {
      points := [];
      hxyz := Zero3(DefaultAxis, DefaultAxis, DefaultAxis);
      vel := 0.0;
      dir := Origin;
      markerColor := Blue;
      new;
      var i := 0;
      while i < npart
        invariant 0 <= i && (npart <= 0 ==> i == 0) && (npart > 0 ==> i <= npart)
        invariant |points| == i
        invariant forall k :: 0 <= k < i ==> points[k] == draw(k)
        invariant hxyz == Zero3(DefaultAxis, DefaultAxis, DefaultAxis)
        invariant vel == 0.0 && dir == Origin && markerColor == Blue
      {
        points := points + [draw(i)];
        i := i + 1;
      }
    }

    /** Rotates every particle about the y axis by the angle whose cosine is `c` and
        sine is `s`; the histogram is not refilled. */
    method RotateY(c: real, s: real)
      requires c * c + s * s == 1.0
      modifies this
      ensures points == Rotated(c, s, old(points))
      ensures hxyz == old(hxyz) && vel == old(vel) && dir == old(dir) && markerColor == old(markerColor)
    {
      ghost var start := points;
      var i := 0;
      while i < |points|
        invariant 0 <= i <= |points| == |start|
        invariant forall k :: 0 <= k < i ==> points[k] == RotY(c, s, start[k])
        invariant forall k :: i <= k < |points| ==> points[k] == start[k]
        invariant hxyz == old(hxyz) && vel == old(vel) && dir == old(dir) && markerColor == old(markerColor)
      {
        points := points[i := RotY(c, s, points[i])];
        i := i + 1;
      }
    }

    /** Marker colour of the xz graph; nothing else changes. */
    method SetColor(col: int)
      modifies this
      ensures markerColor == col
      ensures points == old(points) && hxyz == old(hxyz) && vel == old(vel) && dir == old(dir)
    {
      markerColor := col;
    }

    /** Speed from energy `en` and longitudinal momentum `p` (beta = |p|/en), and the
        direction stored as given, without normalisation; callers pass a unit vector. */
    method SetKinematics(en: real, p: real, dx: real, dy: real, dz: real)
      requires en != 0.0
      requires dx * dx + dy * dy + dz * dz == 1.0
      modifies this
      ensures vel == (if p < 0.0 then -p else p) / en * Light
      ensures dir == Vec3(dx, dy, dz)
      ensures points == old(points) && hxyz == old(hxyz) && markerColor == old(markerColor)
    {
      var beta := (if p < 0.0 then -p else p) / en;
      vel := beta * Light;
      dir := Vec3(dx, dy, dz);
    }

    /** Reset of the histogram on the given axes, then one Fill per point. */
    method Refill(ax: Axis, ay: Axis, az: Axis)
      requires ax.Valid() && ay.Valid() && az.Valid()
      modifies this
      ensures hxyz == Binning(ax, ay, az, points) && Binned() && Valid()
      ensures hxyz.Total() == |points|
      ensures points == old(points) && vel == old(vel) && dir == old(dir) && markerColor == old(markerColor)
    {
      hxyz := Zero3(ax, ay, az);
      var i := 0;
      while i < |points|
        invariant 0 <= i <= |points|
        invariant hxyz == Binning(ax, ay, az, points[..i])
        invariant points == old(points) && vel == old(vel) && dir == old(dir) && markerColor == old(markerColor)
      {
        var p := points[i];
        BinningStep(ax, ay, az, points, i);
        hxyz := hxyz.Fill(p.x, p.y, p.z);
        i := i + 1;
      }
      assert points[..i] == points;
      BinningTotal(ax, ay, az, points);
    }

    /** New binning of `hxyz` and its refill from the current points. */
    method SetBins(ax: Axis, ay: Axis, az: Axis)
      requires ax.Valid() && ay.Valid() && az.Valid()
      modifies this
      ensures State() == old(State()).Rebinned(ax, ay, az) && Valid()
    {
      Refill(ax, ay, az);
    }

    /** Moves every particle by `vel*dt` along `dir`, then refills the histogram on its
        current axes. */
    method Move(dt: real)
      requires Valid()
      modifies this
      ensures State() == old(State()).Moved(dt) && Valid()
    {
      var ds := vel * dt;
      var delt := Vec3(ds * dir.x, ds * dir.y, ds * dir.z);
      assert delt == Displacement(vel, dir, dt);
      ghost var start := points;
      var i := 0;
      while i < |points|
        invariant 0 <= i <= |points| == |start|
        invariant forall k :: 0 <= k < i ==> points[k] == Plus(start[k], delt)
        invariant forall k :: i <= k < |points| ==> points[k] == start[k]
        invariant hxyz == old(hxyz) && vel == old(vel) && dir == old(dir) && markerColor == old(markerColor)
      {
        points := points[i := Plus(points[i], delt)];
        i := i + 1;
      }
      assert points == Shifted(start, delt);
      Refill(hxyz.ax, hxyz.ay, hxyz.az);
    }

    /** The bunch's own histogram; when it was last rebuilt from the current points it
        holds one count per point. */
    method GetHxyz() returns (h: Hist3)
      ensures h == hxyz
      ensures Binned() ==> h.Total() == |points|
    {
      h := hxyz;
      if Binned() {
        BinningTotal(hxyz.ax, hxyz.ay, hxyz.az, points);
      }
    }
  }
}
