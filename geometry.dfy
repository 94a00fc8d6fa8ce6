/**
 * Coordinate vectors and transforms of the resampler.
 *
 * A coordinate is a 3-vector in voxel or world units ordered
 * (slice, row, column).  A transform is either linear (an affine map
 * x |-> M x + t) or general (an arbitrary point map).  Concatenating two
 * transforms stays linear only when both inputs are linear; this is the
 * only fact about the transform library that the slice resampler relies on.
 */
module Geometry {

  datatype Vec3 = Vec3(s: real, r: real, c: real)

  // VECTOR_ADD
  function Add(a: Vec3, b: Vec3): Vec3 {
    Vec3(a.s + b.s, a.r + b.r, a.c + b.c)
  }

  // VECTOR_DIFF
  function Sub(a: Vec3, b: Vec3): Vec3 {
    Vec3(a.s - b.s, a.r - b.r, a.c - b.c)
  }

  // VECTOR_SCALAR_MULT
  function Mul(a: Vec3, k: real): Vec3 {
    Vec3(a.s * k, a.r * k, a.c * k)
  }

  function Dot(a: Vec3, b: Vec3): real {
    a.s * b.s + a.r * b.r + a.c * b.c
  }

  /** A 3x3 matrix given by its rows. */
  datatype Mat3 = Mat3(x: Vec3, y: Vec3, z: Vec3)

  function Apply(m: Mat3, v: Vec3): Vec3 {
    Vec3(Dot(m.x, v), Dot(m.y, v), Dot(m.z, v))
  }

  function Column(m: Mat3, k: nat): Vec3
    requires k < 3
  {
    if k == 0 then Vec3(m.x.s, m.y.s, m.z.s)
    else if k == 1 then Vec3(m.x.r, m.y.r, m.z.r)
    else Vec3(m.x.c, m.y.c, m.z.c)
  }

  /** The matrix product a * b. */
  function MatMul(a: Mat3, b: Mat3): Mat3 {
    Mat3(Vec3(Dot(a.x, Column(b, 0)), Dot(a.x, Column(b, 1)), Dot(a.x, Column(b, 2))),
         Vec3(Dot(a.y, Column(b, 0)), Dot(a.y, Column(b, 1)), Dot(a.y, Column(b, 2))),
         Vec3(Dot(a.z, Column(b, 0)), Dot(a.z, Column(b, 1)), Dot(a.z, Column(b, 2))))
  }

  datatype Transform =
    | Linear(m: Mat3, t: Vec3)
    | General(f: Vec3 -> Vec3)

  /** Point evaluation (DO_TRANSFORM). */
  function Eval(tr: Transform, p: Vec3): Vec3 {
    match tr
    case Linear(m, t) => Add(Apply(m, p), t)
    case General(f) => f(p)
  }

  /**
   * concat_general_transforms(first, second): apply first, then second.
   * Two linear transforms concatenate in closed form; anything else
   * becomes a general transform that evaluates the two in turn.
   */
  function Concat(first: Transform, second: Transform): (r: Transform)
    ensures r.Linear? <==> first.Linear? && second.Linear?
  {
    if first.Linear? && second.Linear? then
      Linear(MatMul(second.m, first.m), Add(Apply(second.m, first.t), second.t))
    else
      General(p => Eval(second, Eval(first, p)))
  }

  lemma ApplyMatMul(a: Mat3, b: Mat3, v: Vec3)
    ensures Apply(MatMul(a, b), v) == Apply(a, Apply(b, v))
  {
  }

  lemma ApplyAdd(m: Mat3, u: Vec3, v: Vec3)
    ensures Apply(m, Add(u, v)) == Add(Apply(m, u), Apply(m, v))
  {
  }

  /** Evaluating a concatenation is evaluating its parts in order. */
  lemma ConcatEval(first: Transform, second: Transform, p: Vec3)
    ensures Eval(Concat(first, second), p) == Eval(second, Eval(first, p))
  {
    if first.Linear? && second.Linear? {
      var m1, t1, m2, t2 := first.m, first.t, second.m, second.t;
      calc {
        Eval(Concat(first, second), p);
        Add(Apply(MatMul(m2, m1), p), Add(Apply(m2, t1), t2));
        { ApplyMatMul(m2, m1, p); }
        Add(Apply(m2, Apply(m1, p)), Add(Apply(m2, t1), t2));
        { ApplyAdd(m2, Apply(m1, p), t1); }
        Add(Apply(m2, Add(Apply(m1, p), t1)), t2);
        Eval(second, Eval(first, p));
      }
    }
  }

  /**
   * The linear fast path of get_slice: the images of the slice origin and
   * of the unit row and column points, with the image of the origin
   * subtracted from the latter two, step to every pixel exactly.  The
   * translation part cancels in the two differences.
   */
  lemma {:induction false} SteppedCoordinate(tr: Transform, sliceNum: real, irow: real, icol: real)
    requires tr.Linear?
    ensures
      var zero := Eval(tr, Vec3(0.0, 0.0, 0.0));
      var row := Sub(Eval(tr, Vec3(0.0, 1.0, 0.0)), zero);
      var column := Sub(Eval(tr, Vec3(0.0, 0.0, 1.0)), zero);
      var start := Eval(tr, Vec3(sliceNum, 0.0, 0.0));
      Add(Add(Mul(row, irow), start), Mul(column, icol)) == Eval(tr, Vec3(sliceNum, irow, icol))
  {
  }
}
