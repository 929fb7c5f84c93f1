/** Point physics of the screensaver: a list of positions and a parallel list
    of speeds; every tick moves each point by its speed and reverses the speed
    component along an axis where the moved point left the window. */
module Physics {
  import opened Vectors

  /** The window is `1280 x 720`. */
  const Width: real := 1280.0
  const Height: real := 720.0

  /** The moved point lies left of or right of the window. */
  predicate OutsideX(p: Vector)
  {
    p.x > Width || p.x < 0.0
  }

  /** The moved point lies above or below the window. */
  predicate OutsideY(p: Vector)
  {
    p.y > Height || p.y < 0.0
  }

  /** The speed after the point has moved to `moved`: each component is
      negated when the moved point is outside the window along that axis. */
  function Reflect(moved: Vector, speed: Vector): (r: Vector)
    ensures r.x == speed.x || r.x == -speed.x
    ensures r.y == speed.y || r.y == -speed.y
  {
    Vector(if OutsideX(moved) then -speed.x else speed.x,
           if OutsideY(moved) then -speed.y else speed.y)
  }

  /** The positions after a tick: point `i` moves by speed `i`, for every
      point that has a speed. The position is never clamped to the window. */
  function Advanced(points: seq<Vector>, speeds: seq<Vector>): (r: seq<Vector>)
    ensures |r| == |points|
  {
    seq(|points|, i requires 0 <= i < |points| =>
      if i < |speeds| then Add(points[i], speeds[i]) else points[i])
  }

  /** The speeds after a tick: speed `i` is reflected at the moved point `i`,
      for every speed that has a point. */
  function Reflected(points: seq<Vector>, speeds: seq<Vector>): (r: seq<Vector>)
    ensures |r| == |speeds|
  {
    seq(|speeds|, i requires 0 <= i < |speeds| =>
      if i < |points| then Reflect(Add(points[i], speeds[i]), speeds[i]) else speeds[i])
  }

  /** Reflection flips the x component exactly when the moved point is
      outside horizontally, and the y component exactly when it is outside
      vertically; each axis is decided on its own, and the size of each
      component is kept. A zero component is the same either way, so each
      statement is made for a nonzero component of its own axis. */
  lemma ReflectFlipsExactly(moved: Vector, speed: Vector)
    ensures speed.x != 0.0 ==> (Reflect(moved, speed).x == -speed.x <==> OutsideX(moved))
    ensures speed.x != 0.0 ==> (Reflect(moved, speed).x == speed.x <==> !OutsideX(moved))
    ensures speed.y != 0.0 ==> (Reflect(moved, speed).y == -speed.y <==> OutsideY(moved))
    ensures speed.y != 0.0 ==> (Reflect(moved, speed).y == speed.y <==> !OutsideY(moved))
  {
  }

  /** Which component flips depends only on the coordinate along that axis. */
  lemma ReflectAxesIndependent(p: Vector, q: Vector, speed: Vector)
    ensures p.x == q.x ==> Reflect(p, speed).x == Reflect(q, speed).x
    ensures p.y == q.y ==> Reflect(p, speed).y == Reflect(q, speed).y
  {
  }

  /** A point that starts inside the window along an axis and leaves it in one
      tick gets a speed pointing back inside, and the next tick puts it back
      exactly where it started along that axis. */
  lemma BounceReturns(p: Vector, speed: Vector)
    ensures var moved := Add(p, speed);
            var next := Add(moved, Reflect(moved, speed));
            (0.0 <= p.x <= Width && OutsideX(moved) ==>
               (moved.x > Width ==> Reflect(moved, speed).x < 0.0) &&
               (moved.x < 0.0 ==> Reflect(moved, speed).x > 0.0) &&
               next.x == p.x) &&
            (0.0 <= p.y <= Height && OutsideY(moved) ==>
               (moved.y > Height ==> Reflect(moved, speed).y < 0.0) &&
               (moved.y < 0.0 ==> Reflect(moved, speed).y > 0.0) &&
               next.y == p.y)
  {
  }

  /** A point just inside the right edge moving right ends up outside the
      window: it is not pulled back, only its x speed is reversed. */
  lemma NeverClampedExample()
    ensures Advanced([Vector(1279.0, 10.0)], [Vector(5.0, 1.0)]) == [Vector(1284.0, 11.0)]
    ensures Reflected([Vector(1279.0, 10.0)], [Vector(5.0, 1.0)]) == [Vector(-5.0, 1.0)]
  {
  }

  /** `Line`: the positions and speeds of the points, updated in place. */
  class Line {
    var points: seq<Vector>
    var speeds: seq<Vector>

    /** Every point has a speed and every speed a point. */
    ghost predicate Paired()
      reads this
    {
      |points| == |speeds|
    }

    /** `Line(points, speeds)`: starts from the given lists. */
    constructor (points0: seq<Vector>, speeds0: seq<Vector>)
      ensures points == points0 && speeds == speeds0
    {
      points := points0;
      speeds := speeds0;
    }

    /** `add(point, speed)`: appends one entry to each list. */
    method Add(point: Vector, speed: Vector)
      modifies this
      ensures points == old(points) + [point]
      ensures speeds == old(speeds) + [speed]
      ensures old(Paired()) ==> Paired()
    {
      points := points + [point];
      speeds := speeds + [speed];
    }

    /** `set_points()`: moves each point by its speed and reflects the speed.
        The source writes `v[0]` and `v[1]` for a vector's coordinates; here
        they are `v.x` and `v.y`. When a point has no speed, the source fails
        with an index error at that point: `ok` is false and the points before
        it have already moved. */
    method SetPoints() returns (ok: bool)
      modifies this
      ensures ok <==> |old(points)| <= |old(speeds)|
      ensures points == Advanced(old(points), old(speeds))
      ensures speeds == Reflected(old(points), old(speeds))
      ensures old(Paired()) ==> Paired() && ok
    {
      ghost var points0, speeds0 := points, speeds;
      var i := 0;
      while i < |points|
        invariant 0 <= i <= |points| == |points0|
        invariant i <= |speeds| == |speeds0|
        invariant forall k :: 0 <= k < |points| ==>
          points[k] == if k < i then Vectors.Add(points0[k], speeds0[k]) else points0[k]
        invariant forall k :: 0 <= k < |speeds| ==>
          speeds[k] == if k < i then Reflect(Vectors.Add(points0[k], speeds0[k]), speeds0[k]) else speeds0[k]
      {
        if i >= |speeds| {
          assert points == Advanced(points0, speeds0);
          assert speeds == Reflected(points0, speeds0);
          return false;
        }
        points := points[i := Vectors.Add(points[i], speeds[i])];
        if points[i].x > Width || points[i].x < 0.0 {
          speeds := speeds[i := Vector(-speeds[i].x, speeds[i].y)];
        }
        if points[i].y > Height || points[i].y < 0.0 {
          speeds := speeds[i := Vector(speeds[i].x, -speeds[i].y)];
        }
        i := i + 1;
      }
      assert points == Advanced(points0, speeds0);
      assert speeds == Reflected(points0, speeds0);
      return true;
    }
  }
}
