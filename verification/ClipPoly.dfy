/** ClipPolyToPlane and ClipPolyToPlane_Precise of src/mathlib/mathlib_base.cpp over the reals. */
module ClipPoly {
  import opened Quaternion

  datatype Side = FRONT | BACK | ON

  datatype Plane = Plane(normal: Vector, dist: real, epsilon: real)

  function Dot(u: Vector, v: Vector): real {
    Mul(u.x, v.x) + Mul(u.y, v.y) + Mul(u.z, v.z)
  }

  // Signed distance, for a unit normal
  function Distance(p: Plane, v: Vector): real {
    Dot(v, p.normal) - p.dist
  }

  function SideOf(p: Plane, v: Vector): Side {
    var d := Distance(p, v);
    if d > p.epsilon then FRONT else if d < -p.epsilon then BACK else ON
  }

  function Next(verts: seq<Vector>, i: nat): Vector
    requires i < |verts|
  {
    verts[(i + 1) % |verts|]
  }

  // The edge from vertex i goes straight from one side to the other.
  predicate Crosses(p: Plane, verts: seq<Vector>, i: nat)
    requires i < |verts|
  {
    var s, t := SideOf(p, verts[i]), SideOf(p, Next(verts, i));
    s != ON && t != ON && s != t
  }

  function Lerp(p1: real, p2: real, t: real): real {
    p1 + Mul(t, p2 - p1)
  }

  function Fraction(d1: real, d2: real): real
    requires d1 != d2
  {
    d1 / (d1 - d2)
  }

  function Point(p1: Vector, p2: Vector, t: real): Vector {
    Vector(Lerp(p1.x, p2.x, t), Lerp(p1.y, p2.y, t), Lerp(p1.z, p2.z, t))
  }

  // The distance is minus the constant at the origin and rises along each axis with that component of the normal,
  // so along a unit normal by the length of the way.
  lemma DistanceRises(p: Plane, v: Vector, way: real)
    ensures Distance(p, Vector(0.0, 0.0, 0.0)) == -p.dist
    ensures Distance(p, v.(x := v.x + way)) == Distance(p, v) + p.normal.x * way
    ensures Distance(p, v.(y := v.y + way)) == Distance(p, v) + p.normal.y * way
    ensures Distance(p, v.(z := v.z + way)) == Distance(p, v) + p.normal.z * way
  {
  }

  lemma AlongNormal(p: Plane, v: Vector, way: real)
    requires UnitNormal(p.normal)
    ensures Distance(p, Plus(v, Scale(way, p.normal))) == Distance(p, v) + way
  {
    hide Mul;
    var n := p.normal;
    AlongAxis(v.x, way, n.x);
    AlongAxis(v.y, way, n.y);
    AlongAxis(v.z, way, n.z);
    MulSum3(way, Mul(n.x, n.x), Mul(n.y, n.y), Mul(n.z, n.z));
  }

  lemma AlongAxis(v: real, way: real, n: real)
    ensures Mul(v + Mul(way, n), n) == Mul(v, n) + Mul(way, Mul(n, n))
  {
  }

  lemma MulSum3(way: real, a: real, b: real, c: real)
    requires a + b + c == 1.0
    ensures Mul(way, a) + Mul(way, b) + Mul(way, c) == way
  {
    assert c == 1.0 - a - b;
  }

  // The ends of an edge, and the ways between
  lemma PointEnds(a: Vector, b: Vector, s: real, t: real)
    ensures Point(a, b, 0.0) == a && Point(a, b, 1.0) == b
    ensures Point(a, b, s) == Point(a, b, t) ==> s == t || a == b
  {
    assert Mul(1.0, b.x - a.x) == b.x - a.x && Mul(1.0, b.y - a.y) == b.y - a.y && Mul(1.0, b.z - a.z) == b.z - a.z;
  }

  lemma CrossingDistances(p: Plane, verts: seq<Vector>, i: nat)
    requires i < |verts| && Crosses(p, verts, i)
    ensures var d1, d2 := Distance(p, verts[i]), Distance(p, Next(verts, i));
            d1 != d2 && (p.epsilon >= 0.0 ==> d1 > 0.0 > d2 || d2 > 0.0 > d1)
  {
    hide Distance;
  }

  function Split(p: Plane, verts: seq<Vector>, i: nat): Vector
    requires i < |verts| && Crosses(p, verts, i)
  {
    CrossingDistances(p, verts, i);
    Point(verts[i], Next(verts, i), Fraction(Distance(p, verts[i]), Distance(p, Next(verts, i))))
  }

  // How the split point is stored: as computed, or with the plane constant written over the
  // components along an axis of the normal, to avoid round off.
  datatype Rounding = Plain | Snapped

  function SnapComponent(normal: real, dist: real, lerp: real): real {
    if normal == 1.0 then dist else if normal == -1.0 then -dist else lerp
  }

  function Snap(p: Plane, v: Vector): Vector {
    Vector(SnapComponent(p.normal.x, p.dist, v.x), SnapComponent(p.normal.y, p.dist, v.y),
           SnapComponent(p.normal.z, p.dist, v.z))
  }

  function Stored(p: Plane, v: Vector, r: Rounding): Vector {
    if r == Snapped then Snap(p, v) else v
  }

  // What vertex i and the edge after it contribute: the vertex unless it is behind the plane, then
  // the point where the edge crosses.
  function Emit(p: Plane, verts: seq<Vector>, i: nat, r: Rounding): seq<Vector>
    requires i < |verts|
  {
    (if SideOf(p, verts[i]) == BACK then [] else [verts[i]])
    + if Crosses(p, verts, i) then [Stored(p, Split(p, verts, i), r)] else []
  }

  function EmitFirst(p: Plane, verts: seq<Vector>, n: nat, r: Rounding): seq<Vector>
    requires n <= |verts|
  {
    if n == 0 then [] else EmitFirst(p, verts, n - 1, r) + Emit(p, verts, n - 1, r)
  }

  function Count(p: Plane, verts: seq<Vector>, s: Side): nat {
    if verts == [] then 0
    else Count(p, verts[..|verts| - 1], s) + if SideOf(p, verts[|verts| - 1]) == s then 1 else 0
  }

  function Crossings(p: Plane, verts: seq<Vector>, n: nat): nat
    requires n <= |verts|
  {
    if n == 0 then 0 else Crossings(p, verts, n - 1) + if Crosses(p, verts, n - 1) then 1 else 0
  }

  // The clipped polygon.
  function Clip(p: Plane, verts: seq<Vector>, r: Rounding): seq<Vector>
  {
    if Count(p, verts, FRONT) == 0 then []
    else if Count(p, verts, BACK) == 0 then verts
    else EmitFirst(p, verts, |verts|, r)
  }

  // The split point lies on the plane and strictly inside the edge it cuts.

  lemma FractionSolves(d1: real, d2: real)
    requires d1 != d2
    ensures d1 > 0.0 > d2 || d2 > 0.0 > d1 ==> 0.0 < Fraction(d1, d2) < 1.0
    ensures d1 + Mul(Fraction(d1, d2), d2 - d1) == 0.0
  {
  }

  lemma LerpTimes(a: real, b: real, t: real, n: real)
    ensures Mul(Lerp(a, b, t), n) == Mul(a, n) + Mul(t, Mul(b, n) - Mul(a, n))
  {
  }

  lemma MulMinusSum(t: real, a: real, b: real, c: real)
    ensures Mul(t, a + b + c) == Mul(t, a) + Mul(t, b) + Mul(t, c)
  {
  }

  lemma DistanceOfPoint(p: Plane, p1: Vector, p2: Vector, t: real)
    ensures Distance(p, Point(p1, p2, t))
            == Distance(p, p1) + Mul(t, Distance(p, p2) - Distance(p, p1))
  {
    hide Mul, Lerp;
    var n := p.normal;
    LerpTimes(p1.x, p2.x, t, n.x);
    LerpTimes(p1.y, p2.y, t, n.y);
    LerpTimes(p1.z, p2.z, t, n.z);
    var x := Mul(p2.x, n.x) - Mul(p1.x, n.x);
    var y := Mul(p2.y, n.y) - Mul(p1.y, n.y);
    var z := Mul(p2.z, n.z) - Mul(p1.z, n.z);
    MulMinusSum(t, x, y, z);
    assert Distance(p, p2) - Distance(p, p1) == x + y + z;
  }

  lemma SplitOnPlane(p: Plane, verts: seq<Vector>, i: nat)
    requires i < |verts| && Crosses(p, verts, i)
    ensures Distance(p, Split(p, verts, i)) == 0.0
    ensures p.epsilon >= 0.0 ==>
              exists t :: 0.0 < t < 1.0 && Split(p, verts, i) == Point(verts[i], Next(verts, i), t)
  {
    CrossingDistances(p, verts, i);
    var d1, d2 := Distance(p, verts[i]), Distance(p, Next(verts, i));
    FractionSolves(d1, d2);
    DistanceOfPoint(p, verts[i], Next(verts, i), Fraction(d1, d2));
    hide Distance, Point, Fraction, Mul, SideOf, Crosses;
    assert p.epsilon >= 0.0 ==> 0.0 < Fraction(d1, d2) < 1.0;
  }

  // A vertex of the input, or a point inside one of its edges; never behind the plane.
  ghost predicate Genuine(p: Plane, verts: seq<Vector>, v: Vector) {
    && Distance(p, v) >= -p.epsilon
    && (v in verts
        || (Distance(p, v) == 0.0
            && exists i, t | 0 <= i < |verts| && 0.0 < t < 1.0 :: v == Point(verts[i], Next(verts, i), t)))
  }

  lemma {:induction false} EmittedGenuine(p: Plane, verts: seq<Vector>, n: nat)
    requires n <= |verts| && p.epsilon >= 0.0
    ensures forall v | v in EmitFirst(p, verts, n, Plain) :: Genuine(p, verts, v)
  {
    if n > 0 {
      EmittedGenuine(p, verts, n - 1);
      hide Distance, Point, Split;
      if Crosses(p, verts, n - 1) {
        SplitOnPlane(p, verts, n - 1);
      }
      assert verts[n - 1] in verts;
    }
  }

  lemma {:induction false} CountNone(p: Plane, verts: seq<Vector>, s: Side)
    requires Count(p, verts, s) == 0
    ensures forall i | 0 <= i < |verts| :: SideOf(p, verts[i]) != s
  {
    if verts != [] {
      CountNone(p, verts[..|verts| - 1], s);
    }
  }

  // Sizes

  lemma {:induction false} CountsAddUp(p: Plane, verts: seq<Vector>)
    ensures Count(p, verts, FRONT) + Count(p, verts, BACK) + Count(p, verts, ON) == |verts|
  {
    if verts != [] {
      CountsAddUp(p, verts[..|verts| - 1]);
    }
  }

  lemma {:induction false} EmittedSize(p: Plane, verts: seq<Vector>, n: nat, r: Rounding)
    requires n <= |verts|
    ensures |EmitFirst(p, verts, n, r)|
            == Count(p, verts[..n], FRONT) + Count(p, verts[..n], ON) + Crossings(p, verts, n)
  {
    if n > 0 {
      EmittedSize(p, verts, n - 1, r);
      assert verts[..n][..n - 1] == verts[..n - 1];
      hide SideOf, Split;
    }
  }

  // The output has one vertex for each input vertex not behind the plane and one for each crossing;
  // an outline that crosses the plane twice (a convex polygon) gains at most one vertex.
  lemma ClippedSize(p: Plane, verts: seq<Vector>, r: Rounding)
    requires Count(p, verts, FRONT) > 0 && Count(p, verts, BACK) > 0
    ensures |Clip(p, verts, r)|
            == Count(p, verts, FRONT) + Count(p, verts, ON) + Crossings(p, verts, |verts|)
    ensures Crossings(p, verts, |verts|) <= 2 ==> |Clip(p, verts, r)| <= |verts| + 1
  {
    EmittedSize(p, verts, |verts|, r);
    CountsAddUp(p, verts);
    assert verts[..|verts|] == verts;
  }

  // Snapping

  predicate UnitNormal(n: Vector) {
    Dot(n, n) == 1.0
  }

  predicate NonAxial(n: Vector) {
    && n.x != 1.0 && n.x != -1.0 && n.y != 1.0 && n.y != -1.0 && n.z != 1.0 && n.z != -1.0
  }

  lemma PositiveProduct(a: real, b: real)
    requires a > 0.0 && b > 0.0
    ensures Mul(a, b) > 0.0
  {
  }

  lemma SquarePositive(a: real)
    requires a != 0.0
    ensures Mul(a, a) > 0.0
  {
    hide Mul;
    if a > 0.0 {
      PositiveProduct(a, a);
    } else {
      PositiveProduct(-a, -a);
      MulMinus(a, -a);
      MulMinus(a, a);
    }
  }

  lemma MulAxis(v: real)
    ensures Mul(v, 1.0) == v && Mul(v, -1.0) == -v && Mul(v, 0.0) == 0.0
  {
  }

  // A unit normal with a component 1 or -1 has no other, and that component of a point on the plane
  // is the plane constant or its negative.
  lemma SnapAxis(a: real, b: real, c: real, va: real, vb: real, vc: real, dist: real)
    requires Mul(a, a) + Mul(b, b) + Mul(c, c) == 1.0 && (a == 1.0 || a == -1.0)
    requires Mul(va, a) + Mul(vb, b) + Mul(vc, c) - dist == 0.0
    ensures b == 0.0 && c == 0.0 && SnapComponent(a, dist, va) == va
  {
    hide Mul;
    MulAxis(a);
    MulAxis(0.0);
    if b != 0.0 {
      SquarePositive(b);
    }
    if c != 0.0 {
      SquarePositive(c);
    }
    MulAxis(va);
    MulAxis(vb);
    MulAxis(vc);
  }

  lemma SnapComponents(n: Vector, dist: real, v: Vector)
    requires NonAxial(n) || (UnitNormal(n) && Dot(v, n) - dist == 0.0)
    ensures SnapComponent(n.x, dist, v.x) == v.x
    ensures SnapComponent(n.y, dist, v.y) == v.y
    ensures SnapComponent(n.z, dist, v.z) == v.z
  {
    if !NonAxial(n) {
      hide Mul;
      if n.x == 1.0 || n.x == -1.0 {
        SnapAxis(n.x, n.y, n.z, v.x, v.y, v.z, dist);
      } else if n.y == 1.0 || n.y == -1.0 {
        SnapAxis(n.y, n.x, n.z, v.y, v.x, v.z, dist);
      } else {
        SnapAxis(n.z, n.x, n.y, v.z, v.x, v.y, dist);
      }
    }
  }

  // On the plane of a unit normal the constant is what is there already.
  lemma SnapChangesNothing(p: Plane, v: Vector)
    requires (UnitNormal(p.normal) && Distance(p, v) == 0.0) || NonAxial(p.normal)
    ensures Snap(p, v) == v
  {
    SnapComponents(p.normal, p.dist, v);
    hide Mul, SnapComponent, Dot;
  }

  lemma {:induction false} SnappedEmits(p: Plane, verts: seq<Vector>, n: nat)
    requires n <= |verts| && (UnitNormal(p.normal) || NonAxial(p.normal))
    ensures EmitFirst(p, verts, n, Snapped) == EmitFirst(p, verts, n, Plain)
  {
    if n > 0 {
      SnappedEmits(p, verts, n - 1);
      if Crosses(p, verts, n - 1) {
        SplitOnPlane(p, verts, n - 1);
        SnapChangesNothing(p, Split(p, verts, n - 1));
      }
      hide Snap, Split, Crosses;
    }
  }

  // For a unit normal, or one without a component 1 or -1, the two functions clip alike.
  lemma SnappedIsPlain(p: Plane, verts: seq<Vector>)
    requires (UnitNormal(p.normal) || NonAxial(p.normal))
    ensures Clip(p, verts, Snapped) == Clip(p, verts, Plain)
  {
    SnappedEmits(p, verts, |verts|);
  }

  // Every vertex either function puts out is a vertex of the input or lies on the plane inside an
  // edge of it, and none is behind the plane.
  lemma ClippedInFront(p: Plane, verts: seq<Vector>, r: Rounding)
    requires p.epsilon >= 0.0 && (r == Plain || UnitNormal(p.normal) || NonAxial(p.normal))
    ensures forall v | v in Clip(p, verts, r) :: Genuine(p, verts, v)
  {
    if r == Snapped {
      SnappedIsPlain(p, verts);
    }
    EmittedGenuine(p, verts, |verts|);
    if Count(p, verts, BACK) == 0 {
      CountNone(p, verts, BACK);
      hide Distance;
      forall v | v in verts ensures Genuine(p, verts, v) {
        var i :| 0 <= i < |verts| && verts[i] == v;
        assert SideOf(p, verts[i]) != BACK;
      }
    }
  }

  lemma {:induction false} CountZeroIff(p: Plane, verts: seq<Vector>, s: Side)
    ensures Count(p, verts, s) == 0 <==> forall v | v in verts :: SideOf(p, v) != s
  {
    if verts != [] {
      var before := verts[..|verts| - 1];
      CountZeroIff(p, before, s);
      hide SideOf;
      assert verts == before + [verts[|verts| - 1]];
    }
  }

  lemma {:induction false} KeepsVertex(p: Plane, verts: seq<Vector>, i: nat, n: nat, r: Rounding)
    requires i < n <= |verts| && SideOf(p, verts[i]) != BACK
    ensures verts[i] in EmitFirst(p, verts, n, r)
  {
    hide SideOf, Crosses, Split;
    if i < n - 1 {
      KeepsVertex(p, verts, i, n - 1, r);
    }
  }

  // A place on the outline: a vertex, or a way along the edge behind it
  datatype Place = Place(vertex: nat, way: real)

  predicate Earlier(a: Place, b: Place) {
    a.vertex < b.vertex || (a.vertex == b.vertex && a.way < b.way)
  }

  ghost predicate StandsAt(verts: seq<Vector>, v: Vector, at: Place) {
    && at.vertex < |verts| && 0.0 <= at.way < 1.0
    && v == if at.way == 0.0 then verts[at.vertex] else Point(verts[at.vertex], Next(verts, at.vertex), at.way)
  }

  ghost predicate OnOutline(verts: seq<Vector>, polygon: seq<Vector>, places: seq<Place>) {
    && |places| == |polygon|
    && (forall k | 0 <= k < |places| :: StandsAt(verts, polygon[k], places[k]))
    && (forall k, l | 0 <= k < l < |places| :: Earlier(places[k], places[l]))
  }

  lemma EmitOnOutline(p: Plane, verts: seq<Vector>, i: nat) returns (places: seq<Place>)
    requires i < |verts| && p.epsilon >= 0.0
    ensures OnOutline(verts, Emit(p, verts, i, Plain), places)
    ensures forall k | 0 <= k < |places| :: places[k].vertex == i
  {
    places := if SideOf(p, verts[i]) == BACK then [] else [Place(i, 0.0)];
    if Crosses(p, verts, i) {
      var t := Fraction(Distance(p, verts[i]), Distance(p, Next(verts, i)));
      CrossingDistances(p, verts, i);
      FractionSolves(Distance(p, verts[i]), Distance(p, Next(verts, i)));
      places := places + [Place(i, t)];
      hide Distance, Fraction, Point;
      assert Split(p, verts, i) == Point(verts[i], Next(verts, i), t);
    }
  }

  // What is put out runs once along the outline, in its direction.
  lemma {:induction false} EmittedInOrder(p: Plane, verts: seq<Vector>, n: nat) returns (places: seq<Place>)
    requires n <= |verts| && p.epsilon >= 0.0
    ensures OnOutline(verts, EmitFirst(p, verts, n, Plain), places)
    ensures forall k | 0 <= k < |places| :: places[k].vertex < n
  {
    if n == 0 {
      places := [];
    } else {
      hide Emit, StandsAt;
      var before := EmittedInOrder(p, verts, n - 1);
      var more := EmitOnOutline(p, verts, n - 1);
      places := before + more;
    }
  }

  lemma ClippedInOrder(p: Plane, verts: seq<Vector>, r: Rounding) returns (places: seq<Place>)
    requires p.epsilon >= 0.0 && (r == Plain || UnitNormal(p.normal) || NonAxial(p.normal))
    ensures OnOutline(verts, Clip(p, verts, r), places)
  {
    if r == Snapped {
      SnappedIsPlain(p, verts);
    }
    if Count(p, verts, FRONT) == 0 {
      places := [];
    } else if Count(p, verts, BACK) == 0 {
      places := seq(|verts|, i requires 0 <= i < |verts| => Place(i, 0.0));
    } else {
      places := EmittedInOrder(p, verts, |verts|);
    }
  }

  // What is clipped stays as it is when it is clipped again.
  lemma ClipTwice(p: Plane, verts: seq<Vector>, r: Rounding)
    requires p.epsilon >= 0.0 && (r == Plain || UnitNormal(p.normal) || NonAxial(p.normal))
    ensures Clip(p, Clip(p, verts, r), r) == Clip(p, verts, r)
  {
    var clipped := Clip(p, verts, r);
    if Count(p, verts, FRONT) != 0 && Count(p, verts, BACK) != 0 {
      ClippedInFront(p, verts, r);
      CountZeroIff(p, verts, FRONT);
      CountZeroIff(p, clipped, FRONT);
      CountZeroIff(p, clipped, BACK);
      hide Distance, Count, UnitNormal, NonAxial, EmitFirst;
      var v :| v in verts && SideOf(p, v) == FRONT;
      var i :| 0 <= i < |verts| && verts[i] == v;
      KeepsVertex(p, verts, i, |verts|, r);
    }
  }

  // In place

  // Sides and distances of every vertex and of the one after it
  ghost predicate Classified(p: Plane, verts: seq<Vector>, dists: seq<real>, sides: seq<Side>) {
    && |dists| == |sides| == |verts| + 1
    && forall j | 0 <= j < |verts| ::
         && dists[j] == Distance(p, verts[j]) && sides[j] == SideOf(p, verts[j])
         && dists[j + 1] == Distance(p, Next(verts, j)) && sides[j + 1] == SideOf(p, Next(verts, j))
  }

  lemma NextIs(verts: seq<Vector>, j: nat)
    requires j < |verts|
    ensures Next(verts, j) == if j + 1 < |verts| then verts[j + 1] else verts[0]
  {
  }

  function SideCode(s: Side): nat {
    match s
    case FRONT => 0
    case BACK => 1
    case ON => 2
  }

  lemma CountStep(p: Plane, verts: seq<Vector>, i: nat, side: Side)
    requires i < |verts|
    ensures Count(p, verts[..i + 1], side) == Count(p, verts[..i], side) + if SideOf(p, verts[i]) == side then 1 else 0
  {
    hide SideOf;
    assert verts[..i + 1][..i] == verts[..i];
  }

  method Classify(p: Plane, verts: seq<Vector>) returns (dists: array<real>, sides: array<Side>, counts: array<nat>)
    ensures fresh(dists) && fresh(sides) && Classified(p, verts, dists[..], sides[..])
    ensures counts.Length == 3
    ensures counts[0] == Count(p, verts, FRONT) && counts[1] == Count(p, verts, BACK)
  {
    assert Count(p, [], FRONT) == Count(p, [], BACK) == 0;
    hide Distance, Count;
    dists := new real[|verts| + 1];
    sides := new Side[|verts| + 1];
    counts := new nat[3](_ => 0);
    var i := 0;
    while i < |verts|
      invariant i <= |verts|
      invariant forall j | 0 <= j < i :: dists[j] == Distance(p, verts[j]) && sides[j] == SideOf(p, verts[j])
      invariant counts[0] == Count(p, verts[..i], FRONT)
      invariant counts[1] == Count(p, verts[..i], BACK)
    {
      CountStep(p, verts, i, FRONT);
      CountStep(p, verts, i, BACK);
      var dot := Distance(p, verts[i]);
      dists[i] := dot;
      if dot > p.epsilon {
        sides[i] := FRONT;
      } else if dot < -p.epsilon {
        sides[i] := BACK;
      } else {
        sides[i] := ON;
      }
      counts[SideCode(sides[i])] := counts[SideCode(sides[i])] + 1;
      i := i + 1;
    }
    sides[i] := sides[0];
    dists[i] := dists[0];
    assert verts[..|verts|] == verts;
    hide SideOf, Classified;
    WrapClassified(p, verts, dists[..], sides[..]);
  }

  // The entry after the last is the first again.
  lemma WrapClassified(p: Plane, verts: seq<Vector>, dists: seq<real>, sides: seq<Side>)
    requires |dists| == |sides| == |verts| + 1
    requires forall j | 0 <= j < |verts| :: dists[j] == Distance(p, verts[j]) && sides[j] == SideOf(p, verts[j])
    requires dists[|verts|] == dists[0] && sides[|verts|] == sides[0]
    ensures Classified(p, verts, dists, sides)
  {
    hide SideOf, Distance, Next;
    forall j | 0 <= j < |verts|
      ensures dists[j + 1] == Distance(p, Next(verts, j)) && sides[j + 1] == SideOf(p, Next(verts, j))
    {
      NextIs(verts, j);
    }
  }

  lemma {:induction false} EmitsGrow(p: Plane, verts: seq<Vector>, m: nat, n: nat, r: Rounding)
    requires m <= n <= |verts|
    ensures |EmitFirst(p, verts, m, r)| <= |EmitFirst(p, verts, n, r)|
    decreases n
  {
    if m < n {
      EmitsGrow(p, verts, m, n - 1, r);
    }
  }

  lemma EmitStep(p: Plane, verts: seq<Vector>, i: nat, r: Rounding)
    requires i < |verts|
    ensures EmitFirst(p, verts, i + 1, r) == EmitFirst(p, verts, i, r) + Emit(p, verts, i, r)
  {
  }

  // The generated split point: p1 + dot * (p2 - p1), snapped
  method SplitPoint(p: Plane, ghost verts: seq<Vector>, ghost i: nat, p1: Vector, p2: Vector, d1: real, d2: real)
    returns (mid: Vector)
    requires i < |verts| && Crosses(p, verts, i)
    requires p1 == verts[i] && p2 == Next(verts, i) && d1 == Distance(p, p1) && d2 == Distance(p, p2)
    ensures mid == Snap(p, Split(p, verts, i))
  {
    hide Distance;
    CrossingDistances(p, verts, i);
    var dot := d1 / (d1 - d2);
    mid := Vector(
      if p.normal.x == 1.0 then p.dist else if p.normal.x == -1.0 then -p.dist else p1.x + Mul(dot, p2.x - p1.x),
      if p.normal.y == 1.0 then p.dist else if p.normal.y == -1.0 then -p.dist else p1.y + Mul(dot, p2.y - p1.y),
      if p.normal.z == 1.0 then p.dist else if p.normal.z == -1.0 then -p.dist else p1.z + Mul(dot, p2.z - p1.z));
  }

  method CopyVerts(inVerts: array<Vector>, outVerts: array<Vector>)
    requires inVerts != outVerts && inVerts.Length <= outVerts.Length
    modifies outVerts
    ensures outVerts[..inVerts.Length] == inVerts[..]
  {
    for i := 0 to inVerts.Length
      invariant outVerts[..i] == inVerts[..i]
    {
      outVerts[i] := inVerts[i];
    }
    assert inVerts[..inVerts.Length] == inVerts[..];
  }

  lemma ClipEmits(p: Plane, verts: seq<Vector>, r: Rounding)
    requires Count(p, verts, FRONT) > 0 && Count(p, verts, BACK) > 0
    ensures Clip(p, verts, r) == EmitFirst(p, verts, |verts|, r)
  {
  }

  method ClipPolyToPlane(inVerts: array<Vector>, outVerts: array<Vector>, p: Plane) returns (outCount: nat)
    requires inVerts != outVerts
    requires outVerts.Length >= |Clip(p, inVerts[..], Snapped)|
    modifies outVerts
    ensures outCount <= outVerts.Length && outVerts[..outCount] == Clip(p, old(inVerts[..]), Snapped)
  {
    ghost var verts := inVerts[..];
    var vertCount := inVerts.Length;
    var dists, sides, counts := Classify(p, inVerts[..]);
    if counts[0] == 0 {
      return 0;
    }
    if counts[1] == 0 {
      CopyVerts(inVerts, outVerts);
      return vertCount;
    }
    ClipEmits(p, verts, Snapped);
    hide Clip, Count, EmitFirst;
    outCount := EmitAll(inVerts, outVerts, p, dists, sides);
  }

  method EmitAll(inVerts: array<Vector>, outVerts: array<Vector>, p: Plane, dists: array<real>, sides: array<Side>)
    returns (outCount: nat)
    requires inVerts != outVerts && Classified(p, inVerts[..], dists[..], sides[..])
    requires outVerts.Length >= |EmitFirst(p, inVerts[..], inVerts.Length, Snapped)|
    modifies outVerts
    ensures outCount <= outVerts.Length
    ensures outVerts[..outCount] == EmitFirst(p, old(inVerts[..]), inVerts.Length, Snapped)
  {
    ghost var verts := inVerts[..];
    outCount := 0;
    assert outVerts[..0] == EmitFirst(p, verts, 0, Snapped);
    hide Emit, Classified, EmitFirst, SideOf, Distance, Next;
    var i := 0;
    while i < inVerts.Length
      invariant i <= inVerts.Length && inVerts[..] == verts && Classified(p, verts, dists[..], sides[..])
      invariant outCount <= outVerts.Length && outVerts[..outCount] == EmitFirst(p, verts, i, Snapped)
    {
      assert outVerts.Length >= |EmitFirst(p, verts, i, Snapped) + Emit(p, verts, i, Snapped)| by {
        EmitsGrow(p, verts, i + 1, |verts|, Snapped);
        EmitStep(p, verts, i, Snapped);
      }
      outCount := EmitVertex(inVerts, outVerts, p, dists, sides, i, outCount);
      EmitStep(p, verts, i, Snapped);
      i := i + 1;
    }
  }

  // The body of the loop: vertex i and the edge after it.
  method EmitVertex(inVerts: array<Vector>, outVerts: array<Vector>, p: Plane, dists: array<real>, sides: array<Side>,
                    i: nat, count: nat) returns (outCount: nat)
    requires i < inVerts.Length && inVerts != outVerts
    requires Classified(p, inVerts[..], dists[..], sides[..])
    requires count + |Emit(p, inVerts[..], i, Snapped)| <= outVerts.Length
    modifies outVerts
    ensures outCount == count + |Emit(p, inVerts[..], i, Snapped)|
    ensures outVerts[..outCount] == old(outVerts[..count]) + Emit(p, inVerts[..], i, Snapped)
  {
    hide Distance, Split, Snap, SideOf;
    ghost var verts := inVerts[..];
    assert sides[..][i] == SideOf(p, verts[i]) && sides[..][i + 1] == SideOf(p, Next(verts, i));
    assert dists[..][i] == Distance(p, verts[i]) && dists[..][i + 1] == Distance(p, Next(verts, i));
    outCount := count;
    var p1 := inVerts[i];
    if sides[i] == ON {
      outVerts[outCount] := p1;
      outCount := outCount + 1;
      return;
    }
    if sides[i] == FRONT {
      outVerts[outCount] := p1;
      outCount := outCount + 1;
    }
    if sides[i + 1] == ON || sides[i + 1] == sides[i] {
      return;
    }
    var p2 := inVerts[(i + 1) % inVerts.Length];
    var mid := SplitPoint(p, verts, i, p1, p2, dists[i], dists[i + 1]);
    outVerts[outCount] := mid;
    outCount := outCount + 1;
  }

  // ClipPolyToPlane_Precise: vertices are triples in a flat array, and nothing is snapped.

  function Flat(verts: seq<Vector>): (r: seq<real>)
    ensures |r| == 3 * |verts|
  {
    if verts == [] then []
    else
      var v := verts[|verts| - 1];
      Flat(verts[..|verts| - 1]) + [v.x, v.y, v.z]
  }

  function Unflat(a: seq<real>): (r: seq<Vector>)
    requires |a| % 3 == 0
    ensures |r| == |a| / 3
  {
    seq(|a| / 3, i requires 0 <= i < |a| / 3 => Vector(a[3 * i], a[3 * i + 1], a[3 * i + 2]))
  }

  lemma FlatSnoc(verts: seq<Vector>, v: Vector)
    ensures Flat(verts + [v]) == Flat(verts) + [v.x, v.y, v.z]
  {
    assert (verts + [v])[..|verts|] == verts;
  }

  lemma {:induction false} FlatAt(verts: seq<Vector>, i: nat)
    requires i < |verts|
    ensures Flat(verts)[3 * i] == verts[i].x && Flat(verts)[3 * i + 1] == verts[i].y
            && Flat(verts)[3 * i + 2] == verts[i].z
  {
    if i < |verts| - 1 {
      FlatAt(verts[..|verts| - 1], i);
    }
  }

  // Flat and Unflat are inverses, so equal flat results are equal polygons.
  lemma FlatUnflat(a: seq<real>)
    requires |a| % 3 == 0
    ensures Flat(Unflat(a)) == a
  {
    forall k | 0 <= k < |a| ensures Flat(Unflat(a))[k] == a[k] {
      FlatAt(Unflat(a), k / 3);
    }
  }

  method PutVertex(outVerts: array<real>, count: nat, v: Vector, ghost before: seq<Vector>) returns (outCount: nat)
    requires 3 * count + 3 <= outVerts.Length && outVerts[..3 * count] == Flat(before)
    modifies outVerts
    ensures outCount == count + 1 && outVerts[..3 * outCount] == Flat(before + [v])
  {
    outVerts[count * 3 + 0] := v.x;
    outVerts[count * 3 + 1] := v.y;
    outVerts[count * 3 + 2] := v.z;
    outCount := count + 1;
    FlatSnoc(before, v);
    assert outVerts[..3 * outCount] == outVerts[..3 * count] + [v.x, v.y, v.z];
  }

  method GetVertex(inVerts: array<real>, k: nat, ghost verts: seq<Vector>) returns (v: Vector)
    requires inVerts.Length == 3 * |verts| && inVerts[..] == Flat(verts) && k < |verts|
    ensures v == verts[k]
  {
    FlatAt(verts, k);
    v := Vector(inVerts[k * 3 + 0], inVerts[k * 3 + 1], inVerts[k * 3 + 2]);
    assert inVerts[..][3 * k] == verts[k].x && inVerts[..][3 * k + 1] == verts[k].y
        && inVerts[..][3 * k + 2] == verts[k].z;
  }

  method EmitVertexPrecise(inVerts: array<real>, outVerts: array<real>, p: Plane, dists: array<real>,
                           sides: array<Side>, i: nat, count: nat, vertCount: nat, ghost verts: seq<Vector>,
                           ghost before: seq<Vector>)
    returns (outCount: nat)
    requires |verts| == vertCount && inVerts.Length == 3 * vertCount && inVerts[..] == Flat(verts)
    requires i < vertCount && inVerts != outVerts && outVerts != dists
    requires Classified(p, verts, dists[..], sides[..])
    requires 3 * (count + |Emit(p, verts, i, Plain)|) <= outVerts.Length
    requires |before| == count && outVerts[..3 * count] == Flat(before)
    modifies outVerts
    ensures outCount == count + |Emit(p, verts, i, Plain)|
    ensures outVerts[..3 * outCount] == Flat(before + Emit(p, verts, i, Plain))
  {
    hide Distance, SideOf, Flat;
    assert sides[..][i] == SideOf(p, verts[i]) && sides[..][i + 1] == SideOf(p, Next(verts, i));
    assert dists[..][i] == Distance(p, verts[i]) && dists[..][i + 1] == Distance(p, Next(verts, i));
    var p1 := GetVertex(inVerts, i, verts);
    outCount := count;
    if sides[i] == ON {
      outCount := PutVertex(outVerts, outCount, p1, before);
      assert before + [p1] == before + Emit(p, verts, i, Plain);
      return;
    }
    ghost var here := before;
    if sides[i] == FRONT {
      outCount := PutVertex(outVerts, outCount, p1, before);
      here := before + [p1];
    }
    if sides[i + 1] == ON || sides[i + 1] == sides[i] {
      assert here == before + Emit(p, verts, i, Plain);
      return;
    }
    var p2 := GetVertex(inVerts, (i + 1) % vertCount, verts);
    CrossingDistances(p, verts, i);
    var dot := dists[i] / (dists[i] - dists[i + 1]);
    var mid := Vector(p1.x + Mul(dot, p2.x - p1.x), p1.y + Mul(dot, p2.y - p1.y), p1.z + Mul(dot, p2.z - p1.z));
    outCount := PutVertex(outVerts, outCount, mid, here);
    assert here + [mid] == before + Emit(p, verts, i, Plain);
  }

  method ClipPolyToPlanePrecise(inVerts: array<real>, outVerts: array<real>, p: Plane) returns (outCount: nat)
    requires inVerts.Length % 3 == 0 && inVerts != outVerts
    requires outVerts.Length >= 3 * |Clip(p, Unflat(inVerts[..]), Plain)|
    modifies outVerts
    ensures 3 * outCount <= outVerts.Length
    ensures outVerts[..3 * outCount] == Flat(Clip(p, Unflat(old(inVerts[..])), Plain))
  {
    ghost var verts := Unflat(inVerts[..]);
    var vertCount := inVerts.Length / 3;
    var dists, sides, counts := Classify(p, Unflat(inVerts[..]));
    if counts[0] == 0 {
      assert outVerts[..0] == Flat([]);
      return 0;
    }
    FlatUnflat(inVerts[..]);
    if counts[1] == 0 {
      for i := 0 to vertCount * 3
        invariant outVerts[..i] == inVerts[..i] && inVerts[..] == old(inVerts[..])
      {
        outVerts[i] := inVerts[i];
      }
      assert inVerts[..vertCount * 3] == inVerts[..];
      return vertCount;
    }
    ClipEmits(p, verts, Plain);
    hide Clip, Count, EmitFirst, Flat;
    outCount := EmitAllPrecise(inVerts, outVerts, p, dists, sides, vertCount, verts);
  }

  method EmitAllPrecise(inVerts: array<real>, outVerts: array<real>, p: Plane, dists: array<real>, sides: array<Side>,
                        vertCount: nat, ghost verts: seq<Vector>)
    returns (outCount: nat)
    requires |verts| == vertCount && inVerts.Length == 3 * vertCount && inVerts[..] == Flat(verts)
    requires inVerts != outVerts && outVerts != dists
    requires Classified(p, verts, dists[..], sides[..])
    requires outVerts.Length >= 3 * |EmitFirst(p, verts, vertCount, Plain)|
    modifies outVerts
    ensures 3 * outCount <= outVerts.Length
    ensures outVerts[..3 * outCount] == Flat(EmitFirst(p, verts, vertCount, Plain))
  {
    outCount := 0;
    assert outVerts[..0] == Flat([]) && EmitFirst(p, verts, 0, Plain) == [];
    hide Emit, Classified, Flat, EmitFirst;
    var i := 0;
    while i < vertCount
      invariant i <= vertCount && inVerts[..] == Flat(verts)
      invariant Classified(p, verts, dists[..], sides[..])
      invariant outCount == |EmitFirst(p, verts, i, Plain)| && 3 * outCount <= outVerts.Length
      invariant outVerts[..3 * outCount] == Flat(EmitFirst(p, verts, i, Plain))
    {
      EmitsGrow(p, verts, i + 1, vertCount, Plain);
      EmitStep(p, verts, i, Plain);
      outCount := EmitVertexPrecise(inVerts, outVerts, p, dists, sides, i, outCount, vertCount, verts,
                                    EmitFirst(p, verts, i, Plain));
      i := i + 1;
    }
  }
}
