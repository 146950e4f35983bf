/** What the products of src/mathlib/mathlib_base.cpp are: quaternions, and the rotations they stand for. */
module Rotation {
  import opened Quaternion

  const ONE := Quat(0.0, 0.0, 0.0, 1.0)
  const I := Quat(1.0, 0.0, 0.0, 0.0)
  const J := Quat(0.0, 1.0, 0.0, 0.0)
  const K := Quat(0.0, 0.0, 1.0, 0.0)

  lemma MulZeroOne(a: real)
    ensures Mul(a, 0.0) == 0.0 && Mul(0.0, a) == 0.0 && Mul(a, 1.0) == a && Mul(1.0, a) == a
  {
  }

  // One product of the units, component by component
  lemma ProductOf(p: Quat, q: Quat, r: Quat)
    requires r.x == p.x * q.w + p.y * q.z - p.z * q.y + p.w * q.x
    requires r.y == -(p.x * q.z) + p.y * q.w + p.z * q.x + p.w * q.y
    requires r.z == p.x * q.y - p.y * q.x + p.z * q.w + p.w * q.z
    requires r.w == -(p.x * q.x) - p.y * q.y - p.z * q.z + p.w * q.w
    ensures Product(p, q) == r
  {
  }

  // Hamilton's relations, which fix the handedness.
  lemma UnitProducts()
    ensures Product(I, J) == K && Product(J, K) == I && Product(K, I) == J
    ensures Product(I, I) == Product(J, J) == Product(K, K) == Negate(ONE)
  {
    hide Product, Mul;
    ProductOf(I, J, K);
    ProductOf(J, K, I);
    ProductOf(K, I, J);
    ProductOf(I, I, Negate(ONE));
    ProductOf(J, J, Negate(ONE));
    ProductOf(K, K, Negate(ONE));
  }

  lemma OneIsNeutral(q: Quat)
    ensures Product(ONE, q) == q && Product(q, ONE) == q
  {
    hide Mul;
    forall a ensures Mul(a, 0.0) == 0.0 && Mul(0.0, a) == 0.0 && Mul(a, 1.0) == a && Mul(1.0, a) == a {
      MulZeroOne(a);
    }
  }

  // Associativity

  // One component of (p q) r = p (q r), s standing for p q and t for q r
  lemma AssociatesX(
    px: real, py: real, pz: real, pw: real, qx: real, qy: real, qz: real, qw: real,
    rx: real, ry: real, rz: real, rw: real,
    sx: real, sy: real, sz: real, sw: real, tx: real, ty: real, tz: real, tw: real)
    requires sx == Mul(px, qw) + Mul(py, qz) - Mul(pz, qy) + Mul(pw, qx)
    requires sy == -Mul(px, qz) + Mul(py, qw) + Mul(pz, qx) + Mul(pw, qy)
    requires sz == Mul(px, qy) - Mul(py, qx) + Mul(pz, qw) + Mul(pw, qz)
    requires sw == -Mul(px, qx) - Mul(py, qy) - Mul(pz, qz) + Mul(pw, qw)
    requires tx == Mul(qx, rw) + Mul(qy, rz) - Mul(qz, ry) + Mul(qw, rx)
    requires ty == -Mul(qx, rz) + Mul(qy, rw) + Mul(qz, rx) + Mul(qw, ry)
    requires tz == Mul(qx, ry) - Mul(qy, rx) + Mul(qz, rw) + Mul(qw, rz)
    requires tw == -Mul(qx, rx) - Mul(qy, ry) - Mul(qz, rz) + Mul(qw, rw)
    ensures Mul(sx, rw) + Mul(sy, rz) - Mul(sz, ry) + Mul(sw, rx)
            == Mul(px, tw) + Mul(py, tz) - Mul(pz, ty) + Mul(pw, tx)
  {
  }

  lemma AssociatesW(
    px: real, py: real, pz: real, pw: real, qx: real, qy: real, qz: real, qw: real,
    rx: real, ry: real, rz: real, rw: real,
    sx: real, sy: real, sz: real, sw: real, tx: real, ty: real, tz: real, tw: real)
    requires sx == Mul(px, qw) + Mul(py, qz) - Mul(pz, qy) + Mul(pw, qx)
    requires sy == -Mul(px, qz) + Mul(py, qw) + Mul(pz, qx) + Mul(pw, qy)
    requires sz == Mul(px, qy) - Mul(py, qx) + Mul(pz, qw) + Mul(pw, qz)
    requires sw == -Mul(px, qx) - Mul(py, qy) - Mul(pz, qz) + Mul(pw, qw)
    requires tx == Mul(qx, rw) + Mul(qy, rz) - Mul(qz, ry) + Mul(qw, rx)
    requires ty == -Mul(qx, rz) + Mul(qy, rw) + Mul(qz, rx) + Mul(qw, ry)
    requires tz == Mul(qx, ry) - Mul(qy, rx) + Mul(qz, rw) + Mul(qw, rz)
    requires tw == -Mul(qx, rx) - Mul(qy, ry) - Mul(qz, rz) + Mul(qw, rw)
    ensures -Mul(sx, rx) - Mul(sy, ry) - Mul(sz, rz) + Mul(sw, rw)
            == -Mul(px, tx) - Mul(py, ty) - Mul(pz, tz) + Mul(pw, tw)
  {
  }

  lemma ProductAssociates(p: Quat, q: Quat, r: Quat)
    ensures Product(Product(p, q), r) == Product(p, Product(q, r))
  {
    hide Mul;
    var s, t := Product(p, q), Product(q, r);
    AssociatesX(p.x, p.y, p.z, p.w, q.x, q.y, q.z, q.w, r.x, r.y, r.z, r.w, s.x, s.y, s.z, s.w, t.x, t.y, t.z, t.w);
    AssociatesX(p.y, p.z, p.x, p.w, q.y, q.z, q.x, q.w, r.y, r.z, r.x, r.w, s.y, s.z, s.x, s.w, t.y, t.z, t.x, t.w);
    AssociatesX(p.z, p.x, p.y, p.w, q.z, q.x, q.y, q.w, r.z, r.x, r.y, r.w, s.z, s.x, s.y, s.w, t.z, t.x, t.y, t.w);
    AssociatesW(p.x, p.y, p.z, p.w, q.x, q.y, q.z, q.w, r.x, r.y, r.z, r.w, s.x, s.y, s.z, s.w, t.x, t.y, t.z, t.w);
  }

  lemma Flip(a: real, b: real)
    ensures Mul(-a, b) == -Mul(b, a) && Mul(a, -b) == -Mul(b, a) && Mul(-a, -b) == Mul(b, a) && Mul(a, b) == Mul(b, a)
  {
  }

  lemma ConjugateOfProduct(p: Quat, q: Quat)
    ensures Conjugate(Product(p, q)) == Product(Conjugate(q), Conjugate(p))
  {
    hide Mul;
    Flip(q.x, p.x);
    Flip(q.x, p.y);
    Flip(q.x, p.z);
    Flip(q.x, p.w);
    Flip(q.y, p.x);
    Flip(q.y, p.y);
    Flip(q.y, p.z);
    Flip(q.y, p.w);
    Flip(q.z, p.x);
    Flip(q.z, p.y);
    Flip(q.z, p.z);
    Flip(q.z, p.w);
    Flip(q.w, p.x);
    Flip(q.w, p.y);
    Flip(q.w, p.z);
    Flip(q.w, p.w);
  }

  // A vector as a quaternion without a real part
  function Pure(v: Vector): Quat {
    Quat(v.x, v.y, v.z, 0.0)
  }

  // One component of u x (u x v) = (u . v) u - (u . u) v
  lemma DoubleCrossX(ux: real, uy: real, uz: real, vx: real, vy: real, vz: real, cy: real, cz: real, e: real, s: real)
    requires cy == Mul(uz, vx) - Mul(ux, vz) && cz == Mul(ux, vy) - Mul(uy, vx)
    requires e == Mul(ux, vx) + Mul(uy, vy) + Mul(uz, vz) && s == Mul(ux, ux) + Mul(uy, uy) + Mul(uz, uz)
    ensures Mul(uy, cz) - Mul(uz, cy) == Mul(e, ux) - Mul(s, vx)
  {
  }

  // One component of (w v + c, -e) (-u, w), with c = u x v, d = u x c and e = u . v
  lemma SandwichX(w: real, uy: real, uz: real, vx: real, vy: real, vz: real, cx: real, cy: real, cz: real, dx: real,
                  f: real, s: real)
    requires cx == Mul(uy, vz) - Mul(uz, vy) && dx == Mul(uy, cz) - Mul(uz, cy)
    requires dx == f - Mul(s, vx) && Mul(w, w) + s == 1.0
    ensures Mul(cx + Mul(w, vx), w) - Mul(cy + Mul(w, vy), uz) + Mul(cz + Mul(w, vz), uy) + f
            == vx + 2.0 * Mul(w, cx) + 2.0 * dx
  {
    hide Mul;
    ExpandTwo(cx, w, vx, w);
    ExpandTwo(cy, w, vy, uz);
    ExpandTwo(cz, w, vz, uy);
    ExpandMinus(w, uy, vz, uz, vy, cx);
    SumToOne(w, s, vx);
    Flip(w, cx);
    Flip(uz, cy);
    Flip(uy, cz);
  }

  lemma ExpandTwo(a: real, w: real, b: real, k: real)
    ensures Mul(a + Mul(w, b), k) == Mul(a, k) + Mul(w, Mul(k, b))
  {
  }

  lemma ExpandMinus(w: real, a: real, b: real, c: real, d: real, s: real)
    requires s == Mul(a, b) - Mul(c, d)
    ensures Mul(w, s) == Mul(w, Mul(a, b)) - Mul(w, Mul(c, d))
  {
  }

  lemma SumToOne(w: real, s: real, v: real)
    requires Mul(w, w) + s == 1.0
    ensures Mul(w, Mul(w, v)) + Mul(s, v) == v
  {
    assert s == 1.0 - w * w;
  }

  // u . (u x v) = 0
  lemma Perpendicular(ux: real, uy: real, uz: real, vx: real, vy: real, vz: real)
    ensures Mul(ux, Mul(uy, vz) - Mul(uz, vy)) + Mul(uy, Mul(uz, vx) - Mul(ux, vz)) + Mul(uz, Mul(ux, vy) - Mul(uy, vx))
            == 0.0
  {
  }

  lemma RealPart(q: Quat, v: Vector)
    ensures var u := Imaginary(q);
            var m := Product(q, Pure(v));
            && m.x == Cross(u, v).x + Mul(q.w, v.x)
            && m.y == Cross(u, v).y + Mul(q.w, v.y)
            && m.z == Cross(u, v).z + Mul(q.w, v.z)
            && m.w == -(Mul(u.x, v.x) + Mul(u.y, v.y) + Mul(u.z, v.z))
  {
    hide Mul;
    MulZeroOne(q.x);
    MulZeroOne(q.y);
    MulZeroOne(q.z);
    MulZeroOne(q.w);
  }

  // q (v, 0) q* is (Rotate(q, v), 0).
  lemma RotateIsSandwich(q: Quat, v: Vector)
    requires Unit(q)
    ensures Product(Product(q, Pure(v)), Conjugate(q)) == Pure(Rotate(q, v))
  {
    hide Mul, Cross, Rotate, Product;
    var u := Imaginary(q);
    var c := Cross(u, v);
    var d := Cross(u, c);
    var e := Mul(u.x, v.x) + Mul(u.y, v.y) + Mul(u.z, v.z);
    var s := Mul(u.x, u.x) + Mul(u.y, u.y) + Mul(u.z, u.z);
    var m := Product(q, Pure(v));
    RealPart(q, v);
    RotateAsSum(q, v);
    SandwichVector(q, v, c, d, e, s);
    TimesConjugate(m, q);
    ScalarPart(q, v, c, m);
    MulMinus(e, q.x);
    MulMinus(e, q.y);
    MulMinus(e, q.z);
  }

  lemma SandwichVector(q: Quat, v: Vector, c: Vector, d: Vector, e: real, s: real)
    requires Unit(q) && c == Cross(Imaginary(q), v) && d == Cross(Imaginary(q), c)
    requires e == Mul(q.x, v.x) + Mul(q.y, v.y) + Mul(q.z, v.z)
    requires s == Mul(q.x, q.x) + Mul(q.y, q.y) + Mul(q.z, q.z)
    ensures Mul(c.x + Mul(q.w, v.x), q.w) - Mul(c.y + Mul(q.w, v.y), q.z) + Mul(c.z + Mul(q.w, v.z), q.y) + Mul(e, q.x)
         == v.x + 2.0 * Mul(q.w, c.x) + 2.0 * d.x
    ensures Mul(c.y + Mul(q.w, v.y), q.w) - Mul(c.z + Mul(q.w, v.z), q.x) + Mul(c.x + Mul(q.w, v.x), q.z) + Mul(e, q.y)
         == v.y + 2.0 * Mul(q.w, c.y) + 2.0 * d.y
    ensures Mul(c.z + Mul(q.w, v.z), q.w) - Mul(c.x + Mul(q.w, v.x), q.y) + Mul(c.y + Mul(q.w, v.y), q.x) + Mul(e, q.z)
         == v.z + 2.0 * Mul(q.w, c.z) + 2.0 * d.z
  {
    hide Mul;
    DoubleCrossX(q.x, q.y, q.z, v.x, v.y, v.z, c.y, c.z, e, s);
    DoubleCrossX(q.y, q.z, q.x, v.y, v.z, v.x, c.z, c.x, e, s);
    DoubleCrossX(q.z, q.x, q.y, v.z, v.x, v.y, c.x, c.y, e, s);
    SandwichX(q.w, q.y, q.z, v.x, v.y, v.z, c.x, c.y, c.z, d.x, Mul(e, q.x), s);
    SandwichX(q.w, q.z, q.x, v.y, v.z, v.x, c.y, c.z, c.x, d.y, Mul(e, q.y), s);
    SandwichX(q.w, q.x, q.y, v.z, v.x, v.y, c.z, c.x, c.y, d.z, Mul(e, q.z), s);
  }

  lemma TimesConjugate(m: Quat, q: Quat)
    ensures var r := Product(m, Conjugate(q));
            && r.x == Mul(m.x, q.w) - Mul(m.y, q.z) + Mul(m.z, q.y) - Mul(m.w, q.x)
            && r.y == Mul(m.y, q.w) - Mul(m.z, q.x) + Mul(m.x, q.z) - Mul(m.w, q.y)
            && r.z == Mul(m.z, q.w) - Mul(m.x, q.y) + Mul(m.y, q.x) - Mul(m.w, q.z)
            && r.w == Mul(m.x, q.x) + Mul(m.y, q.y) + Mul(m.z, q.z) + Mul(m.w, q.w)
  {
    hide Mul;
    forall a, b ensures Mul(a, -b) == -Mul(a, b) {
      MulMinus(a, b);
    }
  }

  // (w v + c) . u - e w = c . u = 0
  lemma ScalarPart(q: Quat, v: Vector, c: Vector, m: Quat)
    requires c == Cross(Imaginary(q), v)
    requires m.x == c.x + Mul(q.w, v.x) && m.y == c.y + Mul(q.w, v.y) && m.z == c.z + Mul(q.w, v.z)
    requires m.w == -(Mul(q.x, v.x) + Mul(q.y, v.y) + Mul(q.z, v.z))
    ensures Mul(m.x, q.x) + Mul(m.y, q.y) + Mul(m.z, q.z) + Mul(m.w, q.w) == 0.0
  {
    Perpendicular(q.x, q.y, q.z, v.x, v.y, v.z);
    ScalarSum(q.x, q.y, q.z, q.w, v.x, v.y, v.z, c.x, c.y, c.z);
  }

  lemma ScalarSum(ux: real, uy: real, uz: real, w: real, vx: real, vy: real, vz: real, cx: real, cy: real, cz: real)
    requires Mul(ux, cx) + Mul(uy, cy) + Mul(uz, cz) == 0.0
    ensures Mul(cx + Mul(w, vx), ux) + Mul(cy + Mul(w, vy), uy) + Mul(cz + Mul(w, vz), uz)
            + Mul(-(Mul(ux, vx) + Mul(uy, vy) + Mul(uz, vz)), w) == 0.0
  {
  }

  // Rotating by a product is rotating by its right factor and then by its left one.
  lemma RotateProduct(p: Quat, q: Quat, v: Vector)
    requires Unit(p) && Unit(q)
    ensures Rotate(Product(p, q), v) == Rotate(p, Rotate(q, v))
  {
    hide Product, Rotate, DotProduct, Conjugate;
    var pq := Product(p, q);
    ProductUnit(p, q);
    RotateIsSandwich(pq, v);
    ConjugateOfProduct(p, q);
    ProductAssociates(p, q, Pure(v));
    ProductAssociates(Product(p, Product(q, Pure(v))), Conjugate(q), Conjugate(p));
    ProductAssociates(p, Product(q, Pure(v)), Conjugate(q));
    RotateIsSandwich(q, v);
    RotateIsSandwich(p, Rotate(q, v));
  }

  // Aligning turns the second quaternion, if at all, to the side of the first: their angle is at most a right one.
  lemma AlignIsNearer(p: Quat, q: Quat)
    ensures SameUpToSign(Align(p, q), q)
    ensures DotProduct(p, Align(p, q)) >= 0.0
    ensures DotProduct(p, q) >= 0.0 ==> Align(p, q) == q
  {
    var d := Quat(p.x - q.x, p.y - q.y, p.z - q.z, p.w - q.w);
    var s := Quat(p.x + q.x, p.y + q.y, p.z + q.z, p.w + q.w);
    assert DotProduct(s, s) - DotProduct(d, d) == 4.0 * DotProduct(p, q);
    assert DotProduct(p, Negate(q)) == -DotProduct(p, q);
  }
}
