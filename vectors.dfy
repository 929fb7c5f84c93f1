/** Two-dimensional vectors: the screensaver's positions and speeds.
    Coordinates are exact reals; every operation returns a fresh value. */
module Vectors {

  datatype Vector = Vector(x: real, y: real)

  /** `a + b`, component-wise. The ensures gives each coordinate back by
      subtraction, for callers that reason one coordinate at a time; the laws
      of `+` are `SubUndoesAdd` and `AddCommutes`. */
  function Add(a: Vector, b: Vector): (r: Vector)
    ensures r.x - b.x == a.x && r.y - b.y == a.y
  {
    Vector(a.x + b.x, a.y + b.y)
  }

  /** `a - b`, component-wise. */
  function Sub(a: Vector, b: Vector): (r: Vector)
    ensures Add(r, b) == a
  {
    Vector(a.x - b.x, a.y - b.y)
  }

  /** `v * k`: scaling by a scalar on the right. */
  function Mul(v: Vector, k: real): (r: Vector)
    ensures k == 1.0 ==> r == v
    ensures k == 0.0 ==> r == Vector(0.0, 0.0)
  {
    Vector(v.x * k, v.y * k)
  }

  /** `k * v`: scaling by a scalar on the left, which delegates to `v * k`.
      The ensures gives the coordinates with the factor on the left, for
      callers that reason one coordinate at a time; the laws of scaling are
      `MulDistributes` and `MulUnitAndZero`. */
  function RMul(k: real, v: Vector): (r: Vector)
    ensures r.x == k * v.x && r.y == k * v.y
  {
    Mul(v, k)
  }

  /** Subtracting what was added gives back the original vector. */
  lemma SubUndoesAdd(a: Vector, b: Vector)
    ensures Sub(Add(a, b), b) == a
    ensures Add(Sub(a, b), b) == a
  {
  }

  /** Addition does not depend on the order of its operands. */
  lemma AddCommutes(a: Vector, b: Vector)
    ensures Add(a, b) == Add(b, a)
  {
  }

  /** Scaling distributes over addition, and scaling twice multiplies the
      factors: the algebra of `__mul__` and `__rmul__` that the curve code
      relies on when it weights control points. The curve proofs work on
      the coordinates directly. */
  lemma MulDistributes(a: Vector, b: Vector, k: real, l: real)
    ensures Mul(Add(a, b), k) == Add(Mul(a, k), Mul(b, k))
    ensures RMul(k, RMul(l, a)) == RMul(k * l, a)
  {
  }

  /** Scaling by one is the identity, from either side; scaling by zero gives
      the zero vector. These are the weights of a blend at `alpha = 0` and
      `alpha = 1`. */
  lemma MulUnitAndZero(v: Vector)
    ensures Mul(v, 1.0) == v && RMul(1.0, v) == v
    ensures Mul(v, 0.0) == Vector(0.0, 0.0)
  {
  }
}
