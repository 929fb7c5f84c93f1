/** The closed-curve sampler of the screensaver: a recursive linear blend of
    control points, sampled at evenly spaced parameters, over one
    three-point span per stored point, the stored points read cyclically. */
module Curves {
  import opened Vectors

  // ---------------------------------------------------------------------------
  // Python list indexing
  // ---------------------------------------------------------------------------

  /** The position that index `i` selects in a list of length `n`, for
      `-n <= i < 2n`: an index below zero counts back from the end, as
      Python's `points[i]` does, and an index past the end wraps to the front. */
  function Wrap(n: int, i: int): (r: nat)
    requires 0 < n && -n <= i < 2 * n
    ensures r < n
  {
    if i < 0 then i + n else if i < n then i else i - n
  }

  /** Python's `points[i]` for `-len(points) <= i < len(points)`. */
  function At(ps: seq<Vector>, i: int): (r: Vector)
    requires -|ps| <= i < |ps|
    ensures 0 <= i ==> r == ps[i]
    ensures i < 0 ==> r == ps[|ps| + i]
  {
    ps[Wrap(|ps|, i)]
  }

  /** Euclidean remainder of a number already below the divisor. */
  lemma ModSmall(m: int, n: int)
    requires 0 <= m < n
    ensures m % n == m
  {
  }

  /** Euclidean remainder of a number below twice the divisor. */
  lemma ModOnce(m: int, n: int)
    requires 0 < n <= m < 2 * n
    ensures m % n == m - n
  {
    ModSmall(m - n, n);
    assert (m - n) % n == m % n;
  }

  /** Python's `points[i]` for `-n <= i < n` is `points[(i + n) % n]`. */
  lemma AtIsMod(ps: seq<Vector>, i: int)
    requires -|ps| <= i < |ps|
    ensures (i + |ps|) % |ps| == Wrap(|ps|, i)
    ensures At(ps, i) == ps[(i + |ps|) % |ps|]
  {
    if i < 0 {
      ModSmall(i + |ps|, |ps|);
    } else {
      ModOnce(i + |ps|, |ps|);
    }
  }

  /** `(a + b) * 0.5`, the midpoint used as a span's outer control point: it
      is as far from `a` as `b` is from it. */
  function Mid(a: Vector, b: Vector): (r: Vector)
    ensures Sub(r, a) == Sub(b, r)
  {
    Mul(Add(a, b), 0.5)
  }

  /** The product of two non-negative reals is non-negative. */
  lemma MulNonNeg(a: real, b: real)
    requires 0.0 <= a && 0.0 <= b
    ensures 0.0 <= a * b
  {
  }

  /** The product of two positive reals is positive. */
  lemma MulPos(a: real, b: real)
    requires 0.0 < a && 0.0 < b
    ensures 0.0 < a * b
  {
  }

  /** Multiplication distributes over addition: the real-number step of the
      quadratic expansion, one coordinate at a time. */
  lemma Distributes(a: real, b: real, c: real)
    ensures (a + b) * c == a * c + b * c
  {
  }

  /** Multiplication is associative: the other real-number step of the
      quadratic expansion. */
  lemma Associates(a: real, b: real, c: real)
    ensures (a * b) * c == a * (b * c)
  {
  }

  /** One more factor adds one more summand. */
  lemma MulSucc(m: int, c: int)
    ensures (m + 1) * c == m * c + c
  {
  }

  // ---------------------------------------------------------------------------
  // The recursive blend
  // ---------------------------------------------------------------------------

  /** `get_point(points, alpha, deg)`: the last control point up to `deg`
      weighted by `alpha`, plus the blend of the ones before it weighted by
      `1 - alpha`. */
  function GetPoint(points: seq<Vector>, alpha: real, deg: nat): Vector
    requires deg < |points|
  {
    if deg == 0 then points[0]
    else Add(Mul(points[deg], alpha), Mul(GetPoint(points, alpha, deg - 1), 1.0 - alpha))
  }

  /** `get_point(points, alpha)` with the default degree `len(points) - 1`. */
  function Blend(points: seq<Vector>, alpha: real): Vector
    requires |points| > 0
  {
    GetPoint(points, alpha, |points| - 1)
  }

  /** At degree zero the blend is the first control point, whatever `alpha` is. */
  lemma GetPointDegreeZero(points: seq<Vector>, alpha: real)
    requires |points| > 0
    ensures GetPoint(points, alpha, 0) == points[0]
    ensures |points| == 1 ==> Blend(points, alpha) == points[0]
  {
  }

  /** At `alpha = 0` the blend of any degree is the first control point. */
  lemma {:induction false} BlendAtZero(points: seq<Vector>, deg: nat)
    requires deg < |points|
    ensures GetPoint(points, 0.0, deg) == points[0]
  {
    if deg > 0 {
      BlendAtZero(points, deg - 1);
    }
  }

  /** At `alpha = 1` the blend of degree `deg` is the control point `points[deg]`. */
  lemma BlendAtOne(points: seq<Vector>, deg: nat)
    requires deg < |points|
    ensures GetPoint(points, 1.0, deg) == points[deg]
  {
  }

  /** Expanding a three-point blend along one coordinate, with `u` standing
      for `1 - a`. */
  lemma QuadraticWeights(q0: real, q1: real, q2: real, a: real, u: real)
    ensures q2 * a + (q1 * a + q0 * u) * u == (q2 * a + q1 * (a * u)) + q0 * (u * u)
  {
    Distributes(q1 * a, q0 * u, u);
    Associates(q1, a, u);
    Associates(q0, u, u);
  }

  /** Two steps of the recursion for three control points. */
  lemma BlendThree(p0: Vector, p1: Vector, p2: Vector, alpha: real)
    ensures Blend([p0, p1, p2], alpha) ==
      Add(Mul(p2, alpha), Mul(Add(Mul(p1, alpha), Mul(p0, 1.0 - alpha)), 1.0 - alpha))
  {
    var cps := [p0, p1, p2];
    assert GetPoint(cps, alpha, 0) == p0;
    assert GetPoint(cps, alpha, 1) == Add(Mul(p1, alpha), Mul(p0, 1.0 - alpha));
  }

  /** The same expansion for vectors. */
  lemma QuadraticExpand(p0: Vector, p1: Vector, p2: Vector, a: real, u: real)
    ensures Add(Mul(p2, a), Mul(Add(Mul(p1, a), Mul(p0, u)), u))
         == Add(Add(Mul(p2, a), Mul(p1, a * u)), Mul(p0, u * u))
  {
    QuadraticWeights(p0.x, p1.x, p2.x, a, u);
    QuadraticWeights(p0.y, p1.y, p2.y, a, u);
  }

  /** With three control points the blend is `alpha*p2 + alpha*(1-alpha)*p1 +
      (1-alpha)^2*p0`: the weights sum to one, but this is not the textbook
      quadratic Bezier weighting. */
  lemma QuadraticBlend(p0: Vector, p1: Vector, p2: Vector, alpha: real)
    ensures Blend([p0, p1, p2], alpha) ==
      Add(Add(Mul(p2, alpha), Mul(p1, alpha * (1.0 - alpha))), Mul(p0, (1.0 - alpha) * (1.0 - alpha)))
  {
    BlendThree(p0, p1, p2, alpha);
    QuadraticExpand(p0, p1, p2, alpha, 1.0 - alpha);
  }

  // ---------------------------------------------------------------------------
  // Sampling one span
  // ---------------------------------------------------------------------------

  /** The parameter of sample `k` out of `count`: `k * (1 / count)`. */
  function Alpha(k: int, count: int): real
    requires count != 0
  {
    (k as real) * (1.0 / (count as real))
  }

  /** The sampled parameters are `0, 1/count, ..., (count-1)/count`: they start
      at zero and stay in `[0, 1)`. */
  lemma AlphaInUnit(k: int, count: int)
    requires 0 <= k < count
    ensures Alpha(0, count) == 0.0
    ensures 0.0 <= Alpha(k, count) < 1.0
  {
    var c := count as real;
    var inv := 1.0 / c;
    assert inv * c == 1.0;
    MulNonNeg(k as real, inv);
    MulPos(c - k as real, inv);
    assert (c - k as real) * inv == c * inv - (k as real) * inv;
  }

  /** `get_points(base_points)`: `count` samples of the blend, sample `k` at
      parameter `k * (1 / count)`; none when `count` is negative. */
  function Samples(cps: seq<Vector>, count: int): (r: seq<Vector>)
    requires count != 0 && (count < 0 || |cps| > 0)
    ensures |r| == if count > 0 then count else 0
  {
    if count < 0 then []
    else seq(count, k requires 0 <= k < count => Blend(cps, Alpha(k, count)))
  }

  /** The first sample of a span is its first control point. */
  lemma SamplesStartAtFirst(cps: seq<Vector>, count: int)
    requires count > 0 && |cps| > 0
    ensures Samples(cps, count)[0] == cps[0]
  {
    BlendAtZero(cps, |cps| - 1);
  }

  // ---------------------------------------------------------------------------
  // The closed curve
  // ---------------------------------------------------------------------------

  /** The three control points built for loop index `i` of `get_joint`
      (`i` from -2 to `len(points) - 3`): the midpoint of `points[i]` and
      `points[i+1]`, `points[i+1]` itself, and the midpoint of `points[i+1]`
      and `points[i+2]`. */
  function Span(ps: seq<Vector>, i: int): seq<Vector>
    requires |ps| >= 3 && -2 <= i <= |ps| - 3
  {
    [Mid(At(ps, i), At(ps, i + 1)), At(ps, i + 1), Mid(At(ps, i + 1), At(ps, i + 2))]
  }

  /** Every index `i + d` that `get_joint` reads from `ps`, for `i` in
      `[-2, n-3]` and `d` in `{0, 1, 2}`, is a valid Python index of `ps`:
      this is why `Span`'s reads through `At` never fail, and the item read
      is the one Python's `ps[i + d]` gives. */
  lemma SpanIndicesInRange(ps: seq<Vector>, i: int, d: int)
    requires |ps| >= 3 && -2 <= i <= |ps| - 3 && 0 <= d <= 2
    ensures -|ps| <= i + d < |ps|
    ensures At(ps, i + d) == if i + d < 0 then ps[|ps| + i + d] else ps[i + d]
  {
  }

  /** The samples of the `j`-th iteration of `get_joint`, for every iteration. */
  function Blocks(ps: seq<Vector>, count: int): (r: seq<seq<Vector>>)
    requires |ps| >= 3 && count != 0
    ensures |r| == |ps|
  {
    seq(|ps|, j requires 0 <= j < |ps| => Samples(Span(ps, j - 2), count))
  }

  /** The concatenation of a list of blocks, as repeated `extend` builds it. */
  function Flatten(blocks: seq<seq<Vector>>): seq<Vector>
  {
    if blocks == [] then [] else Flatten(blocks[..|blocks| - 1]) + blocks[|blocks| - 1]
  }

  /** `get_joint()`: nothing below three points, otherwise the samples of every
      span in turn. */
  function JointCurve(ps: seq<Vector>, count: int): seq<Vector>
    requires |ps| < 3 || count != 0
  {
    if |ps| < 3 then [] else Flatten(Blocks(ps, count))
  }

  /** Blocks that all hold `c` items flatten to `|blocks| * c` items. */
  lemma {:induction false} FlattenLength(blocks: seq<seq<Vector>>, c: nat)
    requires forall i :: 0 <= i < |blocks| ==> |blocks[i]| == c
    ensures |Flatten(blocks)| == |blocks| * c
  {
    if blocks != [] {
      var front := blocks[..|blocks| - 1];
      FlattenLength(front, c);
      assert |Flatten(blocks)| == |front| * c + c;
      MulSucc(|front|, c);
    }
  }

  /** Item `k` of block `j` sits at position `j * c + k` of the flattening. */
  lemma {:induction false} FlattenAt(blocks: seq<seq<Vector>>, c: nat, j: int, k: int)
    requires forall i :: 0 <= i < |blocks| ==> |blocks[i]| == c
    requires 0 <= j < |blocks| && 0 <= k < c
    ensures j * c + k < |Flatten(blocks)|
    ensures Flatten(blocks)[j * c + k] == blocks[j][k]
  {
    var front := blocks[..|blocks| - 1];
    FlattenLength(front, c);
    FlattenLength(blocks, c);
    if j < |blocks| - 1 {
      FlattenAt(front, c, j, k);
    } else {
      assert j * c == |front| * c;
    }
  }

  /** Flattening distributes over concatenation of block lists. */
  lemma {:induction false} FlattenAppend(a: seq<seq<Vector>>, b: seq<seq<Vector>>)
    ensures Flatten(a + b) == Flatten(a) + Flatten(b)
  {
    if b != [] {
      assert (a + b)[..|a + b| - 1] == a + b[..|b| - 1];
      FlattenAppend(a, b[..|b| - 1]);
    } else {
      assert a + b == a;
    }
  }

  /** Below three points the curve is empty; otherwise it holds exactly
      `count` samples per stored point (none for a negative `count`). */
  lemma JointLength(ps: seq<Vector>, count: int)
    requires |ps| < 3 || count != 0
    ensures |ps| < 3 ==> JointCurve(ps, count) == []
    ensures |ps| >= 3 ==> |JointCurve(ps, count)| == |ps| * (if count > 0 then count else 0)
  {
    if |ps| >= 3 {
      FlattenLength(Blocks(ps, count), if count > 0 then count else 0);
    }
  }

  /** Sample `k` of iteration `j` is the blend of that iteration's span at
      `k * (1 / count)`; its first sample is the midpoint of the two stored
      points before the span's middle one. */
  lemma JointSampleAt(ps: seq<Vector>, count: int, j: int, k: int)
    requires |ps| >= 3 && count > 0 && 0 <= j < |ps| && 0 <= k < count
    ensures j * count + k < |JointCurve(ps, count)|
    ensures JointCurve(ps, count)[j * count + k] == Blend(Span(ps, j - 2), Alpha(k, count))
    ensures k == 0 ==> JointCurve(ps, count)[j * count] == Mid(At(ps, j - 2), At(ps, j - 1))
  {
    FlattenAt(Blocks(ps, count), count, j, k);
    if k == 0 {
      SamplesStartAtFirst(Span(ps, j - 2), count);
    }
  }

  /** The middle control point of iteration `j` is stored point `j - 1`,
      cyclically: iteration 0 takes the last point, and each stored point
      `t` is the middle of exactly one iteration. */
  lemma SpanMiddles(ps: seq<Vector>, j: int, t: int)
    requires |ps| >= 3 && 0 <= j < |ps| && 0 <= t < |ps|
    ensures Span(ps, j - 2)[1] == ps[if j == 0 then |ps| - 1 else j - 1]
    ensures Wrap(|ps|, j - 1) == t <==> j == Wrap(|ps|, t + 1)
  {
  }

  // ---------------------------------------------------------------------------
  // Rotation
  // ---------------------------------------------------------------------------

  /** `s[m:] + s[:m]`: the list started at position `m`. */
  function Rot<T>(s: seq<T>, m: int): (r: seq<T>)
    requires 0 <= m <= |s|
    ensures |r| == |s|
  {
    s[m..] + s[..m]
  }

  /** Position `t` of a rotated list is position `t + m` of the original, wrapped. */
  lemma RotAt<T>(s: seq<T>, m: int, t: int)
    requires 0 <= m < |s| && 0 <= t < |s|
    ensures Rot(s, m)[t] == s[Wrap(|s|, t + m)]
  {
  }

  /** Reading the rotated points at `x` reads the original points at `x + r`
      (wrapped into Python's index range). */
  lemma AtRotate(ps: seq<Vector>, r: int, x: int, y: int)
    requires 0 <= r < |ps|
    requires -|ps| <= x < |ps| && -|ps| <= y < |ps|
    requires y == x + r || y == x + r - |ps|
    ensures At(Rot(ps, r), x) == At(ps, y)
  {
    RotAt(ps, r, Wrap(|ps|, x));
  }

  /** Span `j` of the rotated points is span `j + r` (wrapped) of the original. */
  lemma SpanRotate(ps: seq<Vector>, r: int, j: int)
    requires |ps| >= 3 && 0 <= r < |ps| && 0 <= j < |ps|
    ensures Span(Rot(ps, r), j - 2) == Span(ps, Wrap(|ps|, j + r) - 2)
  {
    var b: int := Wrap(|ps|, j + r);
    AtRotate(ps, r, j - 2, b - 2);
    AtRotate(ps, r, j - 1, b - 1);
    AtRotate(ps, r, j, b);
  }

  /** Rotating the stored points by `r` rotates the list of spans by `r`. */
  lemma BlocksRotate(ps: seq<Vector>, count: int, r: int)
    requires |ps| >= 3 && count != 0 && 0 <= r < |ps|
    ensures Blocks(Rot(ps, r), count) == Rot(Blocks(ps, count), r)
  {
    var rotated, original := Blocks(Rot(ps, r), count), Rot(Blocks(ps, count), r);
    forall j | 0 <= j < |ps|
      ensures rotated[j] == original[j]
    {
      RotAt(Blocks(ps, count), r, j);
      SpanRotate(ps, r, j);
    }
  }

  /** Rotating a list of equally long blocks by `r` blocks rotates its
      flattening by `r * c` items. */
  lemma FlattenRotate(blocks: seq<seq<Vector>>, c: nat, r: int)
    requires forall i :: 0 <= i < |blocks| ==> |blocks[i]| == c
    requires 0 <= r <= |blocks|
    ensures r * c <= |Flatten(blocks)|
    ensures Flatten(Rot(blocks, r)) == Rot(Flatten(blocks), r * c)
  {
    var front, back := blocks[..r], blocks[r..];
    assert front + back == blocks;
    FlattenAppend(front, back);
    FlattenAppend(back, front);
    FlattenLength(front, c);
  }

  /** Rotating the stored points by `r` positions rotates the curve by
      `r * count` samples: the closed curve has no distinguished start. */
  lemma JointRotate(ps: seq<Vector>, count: int, r: int)
    requires |ps| >= 3 && count > 0 && 0 <= r < |ps|
    ensures r * count <= |JointCurve(ps, count)|
    ensures JointCurve(Rot(ps, r), count) == Rot(JointCurve(ps, count), r * count)
  {
    BlocksRotate(ps, count, r);
    FlattenRotate(Blocks(ps, count), count, r);
  }

  // ---------------------------------------------------------------------------
  // The curve stays within the points' bounding rectangle
  // ---------------------------------------------------------------------------

  /** `v` lies in the axis-aligned rectangle with corners `lo` and `hi`. */
  predicate InRect(v: Vector, lo: Vector, hi: Vector)
  {
    lo.x <= v.x <= hi.x && lo.y <= v.y <= hi.y
  }

  /** A weighted sum `p * a + q * (1 - a)` with `0 <= a <= 1` stays in any
      rectangle holding `p` and `q`. */
  lemma BlendStepInRect(p: Vector, q: Vector, a: real, lo: Vector, hi: Vector)
    requires InRect(p, lo, hi) && InRect(q, lo, hi) && 0.0 <= a <= 1.0
    ensures InRect(Add(Mul(p, a), Mul(q, 1.0 - a)), lo, hi)
  {
    MulNonNeg(p.x - lo.x, a);
    MulNonNeg(q.x - lo.x, 1.0 - a);
    MulNonNeg(hi.x - p.x, a);
    MulNonNeg(hi.x - q.x, 1.0 - a);
    MulNonNeg(p.y - lo.y, a);
    MulNonNeg(q.y - lo.y, 1.0 - a);
    MulNonNeg(hi.y - p.y, a);
    MulNonNeg(hi.y - q.y, 1.0 - a);
  }

  /** For `0 <= alpha <= 1` the blend stays in every rectangle that holds the
      control points. */
  lemma {:induction false} GetPointInRect(points: seq<Vector>, alpha: real, deg: nat, lo: Vector, hi: Vector)
    requires deg < |points| && 0.0 <= alpha <= 1.0
    requires forall i :: 0 <= i < |points| ==> InRect(points[i], lo, hi)
    ensures InRect(GetPoint(points, alpha, deg), lo, hi)
  {
    if deg > 0 {
      GetPointInRect(points, alpha, deg - 1, lo, hi);
      BlendStepInRect(points[deg], GetPoint(points, alpha, deg - 1), alpha, lo, hi);
    }
  }

  /** Every item of the flattening comes from some block. */
  lemma {:induction false} FlattenInRect(blocks: seq<seq<Vector>>, lo: Vector, hi: Vector)
    requires forall j, k :: 0 <= j < |blocks| && 0 <= k < |blocks[j]| ==> InRect(blocks[j][k], lo, hi)
    ensures forall t :: 0 <= t < |Flatten(blocks)| ==> InRect(Flatten(blocks)[t], lo, hi)
  {
    if blocks != [] {
      FlattenInRect(blocks[..|blocks| - 1], lo, hi);
    }
  }

  /** When every stored point lies in a rectangle, so does every sample of the
      closed curve. */
  lemma JointInRect(ps: seq<Vector>, count: int, lo: Vector, hi: Vector)
    requires |ps| < 3 || count != 0
    requires forall i :: 0 <= i < |ps| ==> InRect(ps[i], lo, hi)
    ensures forall t :: 0 <= t < |JointCurve(ps, count)| ==> InRect(JointCurve(ps, count)[t], lo, hi)
  {
    if |ps| >= 3 {
      var blocks := Blocks(ps, count);
      forall j, k | 0 <= j < |blocks| && 0 <= k < |blocks[j]|
        ensures InRect(blocks[j][k], lo, hi)
      {
        var span := Span(ps, j - 2);
        var a, b, m := At(ps, j - 2), At(ps, j - 1), At(ps, j);
        BlendStepInRect(a, b, 0.5, lo, hi);
        BlendStepInRect(b, m, 0.5, lo, hi);
        assert forall i :: 0 <= i < 3 ==> InRect(span[i], lo, hi);
        AlphaInUnit(k, count);
        GetPointInRect(span, Alpha(k, count), 2, lo, hi);
      }
      FlattenInRect(blocks, lo, hi);
    }
  }

  /** A worked example: the control points `(0,0), (10,0), (10,10)` blend at
      `alpha = 0.25` to `(4.375, 2.5)`, where the textbook quadratic Bezier
      curve would pass through `(4.375, 0.625)`. */
  lemma QuarterBlendExample(p0: Vector, p1: Vector, p2: Vector)
    requires p0 == Vector(0.0, 0.0) && p1 == Vector(10.0, 0.0) && p2 == Vector(10.0, 10.0)
    ensures Blend([p0, p1, p2], 0.25) == Vector(4.375, 2.5)
  {
    QuadraticBlend(p0, p1, p2, 0.25);
  }
}
