/** Symbolic model transforms. The page keeps each transform as a 4 x 4
    matrix built by helpers it does not define; here a transform is the
    constructor that built it. Rotations are stored in turns (fractions of a
    full circle, 2 * pi radians), and only transforms free of rotation are
    given a meaning on points, since a rotation's meaning needs sine and
    cosine. */
module Transforms {

  datatype Point = Point(x: real, y: real, z: real)

  datatype Transform =
    | Identity
    | RotX(turns: real)
    | RotY(turns: real)
    | Translate(tx: real, ty: real, tz: real)
    | Scale(sx: real, sy: real, sz: real)

  /** A transform whose action on points is exact arithmetic: anything but
      a rotation by a nonzero angle. */
  predicate Evaluable(t: Transform) {
    (t.RotX? || t.RotY?) ==> t.turns == 0.0
  }

  /** The transform applied to a point (matrix times column vector). */
  function Apply(t: Transform, p: Point): Point
    requires Evaluable(t)
  {
    match t
    case Translate(tx, ty, tz) => Point(p.x + tx, p.y + ty, p.z + tz)
    case Scale(sx, sy, sz) => Point(sx * p.x, sy * p.y, sz * p.z)
    case _ => p
  }

  /** The product ts[0] * ts[1] * ... * ts[n - 1] applied to a point: the
      last factor acts first. */
  function ApplyAll(ts: seq<Transform>, p: Point): Point
    requires forall k :: 0 <= k < |ts| ==> Evaluable(ts[k])
    decreases |ts|
  {
    if ts == [] then p else Apply(ts[0], ApplyAll(ts[1..], p))
  }

  /** Multiplying matrices is composing their actions: the product of
      a + b acts as b first, then a. */
  lemma {:induction false} ApplyAllAppend(a: seq<Transform>, b: seq<Transform>, p: Point)
    requires forall k :: 0 <= k < |a| ==> Evaluable(a[k])
    requires forall k :: 0 <= k < |b| ==> Evaluable(b[k])
    ensures forall k :: 0 <= k < |a + b| ==> Evaluable((a + b)[k])
    ensures ApplyAll(a + b, p) == ApplyAll(a, ApplyAll(b, p))
    decreases |a|
  {
    if a == [] {
      assert a + b == b;
    } else {
      assert (a + b)[0] == a[0];
      assert (a + b)[1..] == a[1..] + b;
      ApplyAllAppend(a[1..], b, p);
    }
  }

  /** A product of five factors, spelled out. */
  lemma ApplyFive(ts: seq<Transform>, p: Point)
    requires |ts| == 5 && forall k :: 0 <= k < 5 ==> Evaluable(ts[k])
    ensures ApplyAll(ts, p) == Apply(ts[0], Apply(ts[1], Apply(ts[2], Apply(ts[3], Apply(ts[4], p)))))
  {
    assert ts[4..][1..] == [];
    assert ApplyAll(ts[4..], p) == Apply(ts[4], p);
    assert ts[3..][1..] == ts[4..];
    assert ApplyAll(ts[3..], p) == Apply(ts[3], ApplyAll(ts[4..], p));
    assert ts[2..][1..] == ts[3..];
    assert ApplyAll(ts[2..], p) == Apply(ts[2], ApplyAll(ts[3..], p));
    assert ts[1..][1..] == ts[2..];
    assert ApplyAll(ts[1..], p) == Apply(ts[1], ApplyAll(ts[2..], p));
  }

  /** Identity factors can be dropped from a product. */
  lemma IdentityIsNeutral(ts: seq<Transform>, p: Point)
    requires forall k :: 0 <= k < |ts| ==> Evaluable(ts[k])
    ensures ApplyAll([Identity] + ts, p) == ApplyAll(ts, p)
    ensures ApplyAll(ts + [Identity], p) == ApplyAll(ts, p)
  {
    assert ([Identity] + ts)[1..] == ts;
    ApplyAllAppend(ts, [Identity], p);
  }
}
