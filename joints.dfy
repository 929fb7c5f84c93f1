/** `Joint`: a `Line` whose points are also the control points of a smooth
    closed curve, sampled `count` times per point. The source derives it from
    `Line`; here a `Joint` owns its `Line` and delegates to it. */
module Joints {
  import opened Vectors
  import opened Curves
  import opened Physics

  class Joint {
    /** The points and speeds, moved by the same physics as any `Line`. */
    const line: Line
    /** Samples per span, fixed at construction. */
    const count: int

    /** `Joint(count)`: no points yet. A zero `count` would make every curve
        of three points or more fail with a division by zero. */
    constructor (count: int)
      requires count != 0
      ensures this.count == count && fresh(line)
      ensures line.points == [] && line.speeds == []
    {
      this.count := count;
      line := new Line([], []);
    }

    /** `get_points(base_points)`: `count` samples of the blend of the control
        points, sample `i` at `i * (1 / count)`. */
    method GetPoints(basePoints: seq<Vector>) returns (result: seq<Vector>)
      requires count != 0 && (count < 0 || |basePoints| > 0)
      ensures result == Samples(basePoints, count)
    {
      var alpha := 1.0 / (count as real);
      result := [];
      var i := 0;
      while i < count
        invariant 0 <= i && (i <= count || i == 0)
        invariant |result| == i
        invariant forall k :: 0 <= k < i ==> result[k] == Blend(basePoints, Alpha(k, count))
      {
        assert Alpha(i, count) == (i as real) * alpha;
        result := result + [Blend(basePoints, (i as real) * alpha)];
        i := i + 1;
      }
    }

    /** `get_joint()`: nothing below three points; otherwise, for `i` from -2
        to `len(points) - 3`, the samples of the span around `points[i + 1]`,
        reading the points with Python's wrap-around for negative indices. */
    method GetJoint() returns (result: seq<Vector>)
      requires count != 0
      ensures result == JointCurve(line.points, count)
    {
      var points := line.points;
      if |points| < 3 {
        return [];
      }
      result := [];
      var i := -2;
      while i < |points| - 2
        invariant -2 <= i <= |points| - 2
        invariant result == Flatten(Blocks(points, count)[..i + 2])
      {
        var pnt := [Mid(At(points, i), At(points, i + 1)), At(points, i + 1), Mid(At(points, i + 1), At(points, i + 2))];
        var samples := GetPoints(pnt);
        ghost var done := Blocks(points, count)[..i + 3];
        assert done[..|done| - 1] == Blocks(points, count)[..i + 2];
        result := result + samples;
        i := i + 1;
      }
      assert Blocks(points, count)[..|points|] == Blocks(points, count);
    }

    /** `add(point, speed)`: appends to the line, then recomputes the curve and
        discards it. */
    method Add(point: Vector, speed: Vector)
      requires count != 0
      modifies line
      ensures line.points == old(line.points) + [point]
      ensures line.speeds == old(line.speeds) + [speed]
    {
      line.Add(point, speed);
      var _ := GetJoint();
    }

    /** `set_points()`: one physics tick of the line, then the curve is
        recomputed and discarded (not reached when the tick fails). */
    method SetPoints() returns (ok: bool)
      requires count != 0
      modifies line
      ensures ok <==> |old(line.points)| <= |old(line.speeds)|
      ensures line.points == Advanced(old(line.points), old(line.speeds))
      ensures line.speeds == Reflected(old(line.points), old(line.speeds))
    {
      ok := line.SetPoints();
      if ok {
        var _ := GetJoint();
      }
    }
  }
}
