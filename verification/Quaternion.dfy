/** Vectors and quaternions over the reals, as src/mathlib/mathlib_base.cpp computes with them. */
module Quaternion {
  datatype Vector = Vector(x: real, y: real, z: real)

  datatype Quat = Quat(x: real, y: real, z: real, w: real)

  // A product by name, so that proofs can hide it and reason by linearity.
  function Mul(a: real, b: real): real {
    a * b
  }

  function Plus(u: Vector, v: Vector): Vector {
    Vector(u.x + v.x, u.y + v.y, u.z + v.z)
  }

  function Minus(v: Vector): Vector {
    Vector(-v.x, -v.y, -v.z)
  }

  function Scale(k: real, v: Vector): Vector {
    Vector(Mul(k, v.x), Mul(k, v.y), Mul(k, v.z))
  }

  function Cross(u: Vector, v: Vector): Vector {
    Vector(Mul(u.y, v.z) - Mul(u.z, v.y), Mul(u.z, v.x) - Mul(u.x, v.z), Mul(u.x, v.y) - Mul(u.y, v.x))
  }

  function Imaginary(q: Quat): Vector {
    Vector(q.x, q.y, q.z)
  }

  function Negate(q: Quat): Quat {
    Quat(-q.x, -q.y, -q.z, -q.w)
  }

  function DotProduct(p: Quat, q: Quat): real {
    Mul(p.x, q.x) + Mul(p.y, q.y) + Mul(p.z, q.z) + Mul(p.w, q.w)
  }

  predicate Unit(q: Quat) {
    DotProduct(q, q) == 1.0
  }

  // QuaternionAlign
  function Align(p: Quat, q: Quat): Quat {
    var d := Quat(p.x - q.x, p.y - q.y, p.z - q.z, p.w - q.w);
    var s := Quat(p.x + q.x, p.y + q.y, p.z + q.z, p.w + q.w);
    if DotProduct(d, d) > DotProduct(s, s) then Negate(q) else q
  }

  // The product QuaternionMult forms once q is aligned
  function Product(p: Quat, q: Quat): Quat {
    Quat(Mul(p.x, q.w) + Mul(p.y, q.z) - Mul(p.z, q.y) + Mul(p.w, q.x),
         -Mul(p.x, q.z) + Mul(p.y, q.w) + Mul(p.z, q.x) + Mul(p.w, q.y),
         Mul(p.x, q.y) - Mul(p.y, q.x) + Mul(p.z, q.w) + Mul(p.w, q.z),
         -Mul(p.x, q.x) - Mul(p.y, q.y) - Mul(p.z, q.z) + Mul(p.w, q.w))
  }

  // QuaternionMult
  function Mult(p: Quat, q: Quat): Quat {
    Product(p, Align(p, q))
  }

  function Conjugate(p: Quat): Quat {
    Quat(-p.x, -p.y, -p.z, p.w)
  }

  // QuaternionInvert
  function Invert(p: Quat): Quat {
    var q := Conjugate(p);
    var magnitudeSqr := DotProduct(p, p);
    if magnitudeSqr != 0.0 then
      var inv := 1.0 / magnitudeSqr;
      Quat(Mul(q.x, inv), Mul(q.y, inv), Mul(q.z, inv), Mul(q.w, inv))
    else q
  }

  // QuaternionMultiply: v rotated by q
  function Rotate(q: Quat, v: Vector): Vector {
    var t := Scale(2.0, Cross(Imaginary(q), v));
    Plus(Plus(v, Scale(q.w, t)), Cross(Imaginary(q), t))
  }

  predicate SameUpToSign(p: Quat, q: Quat) {
    p == q || p == Negate(q)
  }

  // Identities over scalars

  lemma MulOne(a: real)
    ensures Mul(a, 1.0) == a && Mul(1.0, a) == a
  {
  }

  lemma MulMinus(a: real, b: real)
    ensures Mul(-a, b) == -Mul(a, b) && Mul(a, -b) == -Mul(a, b)
  {
  }

  lemma MulPlus(k: real, a: real, b: real)
    ensures Mul(k, a + b) == Mul(k, a) + Mul(k, b)
  {
  }

  lemma MulTwice(a: real, b: real)
    ensures Mul(a, Mul(2.0, b)) == 2.0 * Mul(a, b) && Mul(2.0, b) == 2.0 * b
  {
  }

  lemma MulSum4(a: real, b: real, c: real, d: real, q: real)
    ensures Mul(a, q) + Mul(b, q) + Mul(c, q) + Mul(d, q) == Mul(a + b + c + d, q)
  {
  }

  // The product with p on the left is adjoint to the product with its conjugate: with r = p q and
  // g = conj(p) t, t . r = q . g.
  lemma Adjoint(
    px: real, py: real, pz: real, pw: real, qx: real, qy: real, qz: real, qw: real,
    rx: real, ry: real, rz: real, rw: real, tx: real, ty: real, tz: real, tw: real,
    gx: real, gy: real, gz: real, gw: real)
    requires rx == Mul(px, qw) + Mul(py, qz) - Mul(pz, qy) + Mul(pw, qx)
    requires ry == -Mul(px, qz) + Mul(py, qw) + Mul(pz, qx) + Mul(pw, qy)
    requires rz == Mul(px, qy) - Mul(py, qx) + Mul(pz, qw) + Mul(pw, qz)
    requires rw == -Mul(px, qx) - Mul(py, qy) - Mul(pz, qz) + Mul(pw, qw)
    requires gx == -Mul(px, tw) - Mul(py, tz) + Mul(pz, ty) + Mul(pw, tx)
    requires gy == Mul(px, tz) - Mul(py, tw) - Mul(pz, tx) + Mul(pw, ty)
    requires gz == -Mul(px, ty) + Mul(py, tx) - Mul(pz, tw) + Mul(pw, tz)
    requires gw == Mul(px, tx) + Mul(py, ty) + Mul(pz, tz) + Mul(pw, tw)
    ensures Mul(tx, rx) + Mul(ty, ry) + Mul(tz, rz) + Mul(tw, rw)
            == Mul(qx, gx) + Mul(qy, gy) + Mul(qz, gz) + Mul(qw, gw)
  {
    hide Mul;
    Expand(tx, Mul(px, qw), Mul(py, qz), Mul(pw, qx), Mul(pz, qy), rx);
    Expand(ty, Mul(py, qw), Mul(pz, qx), Mul(pw, qy), Mul(px, qz), ry);
    Expand(tz, Mul(px, qy), Mul(pz, qw), Mul(pw, qz), Mul(py, qx), rz);
    Expand(tw, -Mul(px, qx), -Mul(py, qy), Mul(pw, qw), Mul(pz, qz), rw);
    Expand(qx, Mul(pz, ty), Mul(pw, tx), -Mul(px, tw), Mul(py, tz), gx);
    Expand(qy, Mul(px, tz), Mul(pw, ty), -Mul(py, tw), Mul(pz, tx), gy);
    Expand(qz, Mul(py, tx), Mul(pw, tz), -Mul(px, ty), Mul(pz, tw), gz);
    Expand(qw, Mul(px, tx), Mul(py, ty), Mul(pw, tw), 0.0, gw - Mul(pz, tz));
    Expand(qw, gw - Mul(pz, tz), Mul(pz, tz), 0.0, 0.0, gw);
    MulMinus(tw, Mul(px, qx));
    MulMinus(tw, Mul(py, qy));
    MulMinus(qx, Mul(px, tw));
    MulMinus(qy, Mul(py, tw));
    MulMinus(qz, Mul(px, ty));
    MulMinus(qw, 0.0);
    forall t, p, q ensures Mul(t, Mul(p, q)) == Mul(q, Mul(p, t)) {
      MulSwap(t, p, q);
    }
  }

  lemma Expand(k: real, a: real, b: real, c: real, d: real, s: real)
    requires s == a + b + c - d
    ensures Mul(k, s) == Mul(k, a) + Mul(k, b) + Mul(k, c) - Mul(k, d)
  {
  }

  lemma MulSwap(t: real, p: real, q: real)
    ensures Mul(t, Mul(p, q)) == Mul(q, Mul(p, t))
  {
  }

  // r stands for the product p q.
  lemma ConjugateTimesX(
    px: real, py: real, pz: real, pw: real, qx: real, qy: real, qz: real, qw: real,
    rx: real, ry: real, rz: real, rw: real)
    requires rx == Mul(px, qw) + Mul(py, qz) - Mul(pz, qy) + Mul(pw, qx)
    requires ry == -Mul(px, qz) + Mul(py, qw) + Mul(pz, qx) + Mul(pw, qy)
    requires rz == Mul(px, qy) - Mul(py, qx) + Mul(pz, qw) + Mul(pw, qz)
    requires rw == -Mul(px, qx) - Mul(py, qy) - Mul(pz, qz) + Mul(pw, qw)
    ensures -Mul(px, rw) - Mul(py, rz) + Mul(pz, ry) + Mul(pw, rx)
            == Mul(Mul(px, px), qx) + Mul(Mul(py, py), qx) + Mul(Mul(pz, pz), qx) + Mul(Mul(pw, pw), qx)
  {
  }

  lemma ConjugateTimesW(
    px: real, py: real, pz: real, pw: real, qx: real, qy: real, qz: real, qw: real,
    rx: real, ry: real, rz: real, rw: real)
    requires rx == Mul(px, qw) + Mul(py, qz) - Mul(pz, qy) + Mul(pw, qx)
    requires ry == -Mul(px, qz) + Mul(py, qw) + Mul(pz, qx) + Mul(pw, qy)
    requires rz == Mul(px, qy) - Mul(py, qx) + Mul(pz, qw) + Mul(pw, qz)
    requires rw == -Mul(px, qx) - Mul(py, qy) - Mul(pz, qz) + Mul(pw, qw)
    ensures Mul(px, rx) + Mul(py, ry) + Mul(pz, rz) + Mul(pw, rw)
            == Mul(Mul(px, px), qw) + Mul(Mul(py, py), qw) + Mul(Mul(pz, pz), qw) + Mul(Mul(pw, pw), qw)
  {
  }

  // Unit quaternions

  lemma InvertUnit(p: Quat)
    requires Unit(p)
    ensures Invert(p) == Conjugate(p)
  {
  }

  lemma NegateUnit(p: Quat)
    ensures DotProduct(Negate(p), Negate(p)) == DotProduct(p, p)
    ensures DotProduct(Conjugate(p), Conjugate(p)) == DotProduct(p, p)
  {
  }

  lemma TimesUnit(p: Quat, k: real)
    requires Unit(p)
    ensures Mul(Mul(p.x, p.x), k) + Mul(Mul(p.y, p.y), k) + Mul(Mul(p.z, p.z), k) + Mul(Mul(p.w, p.w), k) == k
  {
    hide Mul;
    MulSum4(Mul(p.x, p.x), Mul(p.y, p.y), Mul(p.z, p.z), Mul(p.w, p.w), k);
    MulOne(k);
  }

  lemma ConjugateCancels(p: Quat, q: Quat)
    requires Unit(p)
    ensures Product(Conjugate(p), Product(p, q)) == q
  {
    hide Mul;
    var r := Product(p, q);
    TimesUnit(p, q.x);
    TimesUnit(p, q.y);
    TimesUnit(p, q.z);
    TimesUnit(p, q.w);
    ConjugateTimesX(p.x, p.y, p.z, p.w, q.x, q.y, q.z, q.w, r.x, r.y, r.z, r.w);
    ConjugateTimesX(p.y, p.z, p.x, p.w, q.y, q.z, q.x, q.w, r.y, r.z, r.x, r.w);
    ConjugateTimesX(p.z, p.x, p.y, p.w, q.z, q.x, q.y, q.w, r.z, r.x, r.y, r.w);
    ConjugateTimesW(p.x, p.y, p.z, p.w, q.x, q.y, q.z, q.w, r.x, r.y, r.z, r.w);
    forall a, b ensures Mul(-a, b) == -Mul(a, b) {
      MulMinus(a, b);
    }
  }

  lemma ProductUnit(p: Quat, q: Quat)
    requires Unit(p) && Unit(q)
    ensures Unit(Product(p, q))
  {
    var r := Product(p, q);
    ConjugateCancels(p, q);
    hide Mul;
    forall a, b ensures Mul(-a, b) == -Mul(a, b) {
      MulMinus(a, b);
    }
    Adjoint(p.x, p.y, p.z, p.w, q.x, q.y, q.z, q.w, r.x, r.y, r.z, r.w, r.x, r.y, r.z, r.w, q.x, q.y, q.z, q.w);
  }

  lemma ProductNegate(p: Quat, q: Quat)
    ensures Product(p, Negate(q)) == Negate(Product(p, q))
  {
    hide Mul;
    forall a, b ensures Mul(a, -b) == -Mul(a, b) {
      MulMinus(a, b);
    }
  }

  // Rotation

  lemma CrossPlus(u: Vector, a: Vector, b: Vector)
    ensures Cross(u, Plus(a, b)) == Plus(Cross(u, a), Cross(u, b))
  {
    hide Mul;
    forall k, x, y ensures Mul(k, x + y) == Mul(k, x) + Mul(k, y) {
      MulPlus(k, x, y);
    }
  }

  lemma ScalePlus(k: real, a: Vector, b: Vector)
    ensures Scale(k, Plus(a, b)) == Plus(Scale(k, a), Scale(k, b))
  {
    hide Mul;
    MulPlus(k, a.x, b.x);
    MulPlus(k, a.y, b.y);
    MulPlus(k, a.z, b.z);
  }

  lemma RotatePlus(q: Quat, u: Vector, v: Vector)
    ensures Rotate(q, Plus(u, v)) == Plus(Rotate(q, u), Rotate(q, v))
  {
    hide Cross, Scale;
    var i := Imaginary(q);
    var a, b := Cross(i, u), Cross(i, v);
    CrossPlus(i, u, v);
    ScalePlus(2.0, a, b);
    ScalePlus(q.w, Scale(2.0, a), Scale(2.0, b));
    CrossPlus(i, Scale(2.0, a), Scale(2.0, b));
  }

  ghost predicate IsSum(r: Vector, v: Vector, w: real, c: Vector, d: Vector) {
    && r.x == v.x + 2.0 * Mul(w, c.x) + 2.0 * d.x
    && r.y == v.y + 2.0 * Mul(w, c.y) + 2.0 * d.y
    && r.z == v.z + 2.0 * Mul(w, c.z) + 2.0 * d.z
  }

  // With c = u x v and d = u x c, u being the imaginary part of q, v is rotated to v + 2wc + 2d.
  lemma RotateAsSum(q: Quat, v: Vector)
    ensures var c := Cross(Imaginary(q), v);
            IsSum(Rotate(q, v), v, q.w, c, Cross(Imaginary(q), c))
  {
    hide Mul;
    forall a, b ensures Mul(a, Mul(2.0, b)) == 2.0 * Mul(a, b) {
      MulTwice(a, b);
    }
  }

  // One component of u x (u x (u x v)) = -(u . u) (u x v)
  lemma TripleComponent(ux: real, uy: real, uz: real, vx: real, vy: real, vz: real,
                        cx: real, cy: real, cz: real, dy: real, dz: real)
    requires cx == Mul(uy, vz) - Mul(uz, vy) && cy == Mul(uz, vx) - Mul(ux, vz) && cz == Mul(ux, vy) - Mul(uy, vx)
    requires dy == Mul(uz, cx) - Mul(ux, cz) && dz == Mul(ux, cy) - Mul(uy, cx)
    ensures Mul(uy, dz) - Mul(uz, dy) == -(Mul(Mul(ux, ux), cx) + Mul(Mul(uy, uy), cx) + Mul(Mul(uz, uz), cx))
  {
  }

  lemma TripleCross(u: Vector, v: Vector, s: real)
    requires s == Mul(u.x, u.x) + Mul(u.y, u.y) + Mul(u.z, u.z)
    ensures var c := Cross(u, v);
            var t := Cross(u, Cross(u, c));
            t.x == -Mul(s, c.x) && t.y == -Mul(s, c.y) && t.z == -Mul(s, c.z)
  {
    hide Mul;
    var c := Cross(u, v);
    var d := Cross(u, c);
    TripleComponent(u.x, u.y, u.z, v.x, v.y, v.z, c.x, c.y, c.z, d.y, d.z);
    TripleComponent(u.y, u.z, u.x, v.y, v.z, v.x, c.y, c.z, c.x, d.z, d.x);
    TripleComponent(u.z, u.x, u.y, v.z, v.x, v.y, c.z, c.x, c.y, d.x, d.y);
    forall k ensures Mul(Mul(u.x, u.x), k) + Mul(Mul(u.y, u.y), k) + Mul(Mul(u.z, u.z), k) == Mul(s, k) {
      MulSum4(Mul(u.x, u.x), Mul(u.y, u.y), Mul(u.z, u.z), 0.0, k);
      MulMinus(0.0, k);
    }
  }

  // One component of u x (v + 2wc + 2d) = u x v + 2w (u x c) + 2 (u x d)
  lemma CrossOfSum(a: real, b: real, w: real, v1: real, v2: real, c1: real, c2: real, d1: real, d2: real,
                   r1: real, r2: real, vx: real, cx: real, dx: real)
    requires r1 == v1 + 2.0 * Mul(w, c1) + 2.0 * d1 && r2 == v2 + 2.0 * Mul(w, c2) + 2.0 * d2
    requires vx == Mul(a, v2) - Mul(b, v1) && cx == Mul(a, c2) - Mul(b, c1) && dx == Mul(a, d2) - Mul(b, d1)
    ensures Mul(a, r2) - Mul(b, r1) == vx + 2.0 * Mul(w, cx) + 2.0 * dx
  {
  }

  lemma CrossOfIsSum(u: Vector, r: Vector, v: Vector, w: real, c: Vector, d: Vector)
    requires IsSum(r, v, w, c, d)
    ensures IsSum(Cross(u, r), Cross(u, v), w, Cross(u, c), Cross(u, d))
  {
    hide Mul;
    var vv, cc, dd := Cross(u, v), Cross(u, c), Cross(u, d);
    CrossOfSum(u.y, u.z, w, v.y, v.z, c.y, c.z, d.y, d.z, r.y, r.z, vv.x, cc.x, dd.x);
    CrossOfSum(u.z, u.x, w, v.z, v.x, c.z, c.x, d.z, d.x, r.z, r.x, vv.y, cc.y, dd.y);
    CrossOfSum(u.x, u.y, w, v.x, v.y, c.x, c.y, d.x, d.y, r.x, r.y, vv.z, cc.z, dd.z);
  }

  lemma CrossMinus(u: Vector, a: Vector)
    ensures Cross(Minus(u), a) == Minus(Cross(u, a)) && Cross(u, Minus(a)) == Minus(Cross(u, a))
  {
    hide Mul;
    forall a, b ensures Mul(-a, b) == -Mul(a, b) && Mul(a, -b) == -Mul(a, b) {
      MulMinus(a, b);
    }
  }

  lemma RotateBackAsSum(q: Quat, r: Vector)
    ensures var u := Imaginary(q);
            var e := Cross(u, r);
            IsSum(Rotate(Conjugate(q), r), r, q.w, Minus(e), Cross(u, e))
  {
    hide Cross, Rotate, Mul;
    var u := Imaginary(q);
    var e := Cross(u, r);
    assert Imaginary(Conjugate(q)) == Minus(u);
    RotateAsSum(Conjugate(q), r);
    CrossMinus(u, r);
    CrossMinus(u, Minus(e));
    CrossMinus(u, e);
    assert Minus(Minus(Cross(u, e))) == Cross(u, e);
  }

  // Turning back cancels every multiple of c and d.
  lemma Cancels(v: real, c: real, d: real, w: real, s: real, t: real, t': real, r: real, e: real, f: real)
    requires Mul(w, w) + s == 1.0
    requires t == -Mul(s, c) && t' == -Mul(s, d)
    requires r == v + 2.0 * Mul(w, c) + 2.0 * d
    requires e == c + 2.0 * Mul(w, d) + 2.0 * t
    requires f == d + 2.0 * Mul(w, t) + 2.0 * t'
    ensures r + 2.0 * Mul(w, -e) + 2.0 * f == v
  {
    assert s == 1.0 - w * w;
  }

  // Rotating by a unit quaternion and then by its conjugate gives the vector back.
  lemma RotateBack(q: Quat, v: Vector)
    requires Unit(q)
    ensures Rotate(Conjugate(q), Rotate(q, v)) == v
  {
    hide Cross, Rotate, Mul;
    var u := Imaginary(q);
    var s := Mul(u.x, u.x) + Mul(u.y, u.y) + Mul(u.z, u.z);
    var c := Cross(u, v);
    var d := Cross(u, c);
    var t := Cross(u, d);
    var r := Rotate(q, v);
    var e := Cross(u, r);
    var f := Cross(u, e);
    RotateAsSum(q, v);
    TripleCross(u, v, s);
    TripleCross(u, c, s);
    CrossOfIsSum(u, r, v, q.w, c, d);
    CrossOfIsSum(u, e, c, q.w, d, t);
    RotateBackAsSum(q, r);
    Cancels(v.x, c.x, d.x, q.w, s, t.x, Cross(u, t).x, r.x, e.x, f.x);
    Cancels(v.y, c.y, d.y, q.w, s, t.y, Cross(u, t).y, r.y, e.y, f.y);
    Cancels(v.z, c.z, d.z, q.w, s, t.z, Cross(u, t).z, r.z, e.z, f.z);
  }

  // A quaternion and its negative rotate alike.
  lemma RotateNegate(q: Quat, v: Vector)
    ensures Rotate(Negate(q), v) == Rotate(q, v)
  {
    hide Cross, Mul, Scale;
    var u := Imaginary(q);
    var c := Cross(u, v);
    assert Imaginary(Negate(q)) == Minus(u);
    CrossMinus(u, v);
    ScaleMinus(2.0, c);
    ScaleMinus(q.w, Scale(2.0, c));
    CrossMinus(u, Minus(Scale(2.0, c)));
    CrossMinus(u, Scale(2.0, c));
    assert Minus(Minus(Cross(u, Scale(2.0, c)))) == Cross(u, Scale(2.0, c));
  }

  lemma ScaleMinus(k: real, a: Vector)
    ensures Scale(k, Minus(a)) == Minus(Scale(k, a)) && Scale(-k, Minus(a)) == Scale(k, a)
  {
    hide Mul;
    forall a, b ensures Mul(-a, b) == -Mul(a, b) && Mul(a, -b) == -Mul(a, b) {
      MulMinus(a, b);
    }
  }

  lemma ProductNegateLeft(p: Quat, q: Quat)
    ensures Product(Negate(p), q) == Negate(Product(p, q))
  {
    hide Mul;
    forall a, b ensures Mul(-a, b) == -Mul(a, b) {
      MulMinus(a, b);
    }
  }

  lemma ConjugateTwice(q: Quat)
    ensures Conjugate(Conjugate(q)) == q
  {
  }

  // Rotating back and then by the quaternion gives the vector back, too.
  lemma RotateForth(q: Quat, v: Vector)
    requires Unit(q)
    ensures Rotate(q, Rotate(Conjugate(q), v)) == v
  {
    NegateUnit(q);
    ConjugateTwice(q);
    RotateBack(Conjugate(q), v);
  }

  lemma RotateZero(q: Quat)
    ensures Rotate(q, Vector(0.0, 0.0, 0.0)) == Vector(0.0, 0.0, 0.0)
  {
    hide Mul;
    forall a ensures Mul(a, 0.0) == 0.0 {
      MulMinus(a, 0.0);
    }
  }

  lemma RotateMinus(q: Quat, v: Vector)
    ensures Rotate(q, Minus(v)) == Minus(Rotate(q, v))
  {
    hide Rotate;
    RotatePlus(q, v, Minus(v));
    RotateZero(q);
    assert Plus(v, Minus(v)) == Vector(0.0, 0.0, 0.0);
  }
}
