/** src/mathlib/transform.cpp over the reals: bone hierarchies between parent space and world space. */
module Transforms {
  import opened Quaternion
  import opened Rotation

  datatype Transform = Transform(position: Vector, orientation: Quat)

  // ConcatTransforms
  function Concat(in1: Transform, in2: Transform): Transform {
    Transform(Plus(Rotate(in1.orientation, in2.position), in1.position), Mult(in1.orientation, in2.orientation))
  }

  // TransformInvert
  function TransformInvert(t: Transform): Transform {
    var q := Invert(t.orientation);
    Transform(Minus(Rotate(q, t.position)), q)
  }

  // Equal positions, and orientations that rotate alike.
  ghost predicate SameTransform(s: Transform, t: Transform) {
    s.position == t.position && SameUpToSign(s.orientation, t.orientation)
  }

  lemma MultUpToSign(p: Quat, q: Quat)
    ensures SameUpToSign(Mult(p, q), Product(p, q))
  {
    hide Product, DotProduct;
    ProductNegate(p, q);
  }

  lemma MultUnit(p: Quat, q: Quat)
    requires Unit(p) && Unit(q)
    ensures Unit(Mult(p, q))
  {
    hide Product, DotProduct;
    NegateUnit(q);
    ProductUnit(p, Align(p, q));
  }

  lemma ConcatInverts(p: Quat, q: Quat)
    requires Unit(p)
    ensures SameUpToSign(Mult(Conjugate(p), Mult(p, q)), q)
  {
    hide Product, DotProduct, Mult, Conjugate;
    MultUpToSign(p, q);
    MultUpToSign(Conjugate(p), Mult(p, q));
    ConjugateCancels(p, q);
    ProductNegate(Conjugate(p), Product(p, q));
    NegateTwice(q);
  }

  lemma NegateTwice(q: Quat)
    ensures Negate(Negate(q)) == q
  {
  }

  lemma PlusMinus(u: Vector, v: Vector)
    ensures Plus(Plus(u, v), Minus(v)) == u
  {
  }

  // Concatenating with the inverse of a unit transform undoes concatenating with it.
  lemma ConcatInverse(world: Transform, local: Transform)
    requires Unit(world.orientation)
    ensures SameTransform(Concat(TransformInvert(world), Concat(world, local)), local)
  {
    hide Rotate, Mult, DotProduct, Plus, Minus;
    var q := world.orientation;
    InvertUnit(q);
    ConcatInverts(q, local.orientation);
    RotateBack(q, local.position);
    RotatePlus(Conjugate(q), Rotate(q, local.position), world.position);
    PlusMinus(local.position, Rotate(Conjugate(q), world.position));
  }

  // What a transform does to a point: it turns it and moves it.
  function Apply(t: Transform, v: Vector): Vector {
    Plus(Rotate(t.orientation, v), t.position)
  }

  lemma RotateMult(p: Quat, q: Quat, v: Vector)
    requires Unit(p) && Unit(q)
    ensures Rotate(Mult(p, q), v) == Rotate(p, Rotate(q, v))
  {
    hide Product, Rotate, DotProduct, Align;
    NegateUnit(q);
    AlignIsNearer(p, q);
    RotateProduct(p, Align(p, q), v);
    RotateNegate(q, v);
  }

  // Concatenating is composing: the second transform acts first.
  lemma ConcatComposes(s: Transform, t: Transform, v: Vector)
    requires Unit(s.orientation) && Unit(t.orientation)
    ensures Apply(Concat(s, t), v) == Apply(s, Apply(t, v))
  {
    hide Rotate, Mult, DotProduct;
    RotateMult(s.orientation, t.orientation, v);
    RotatePlus(s.orientation, Rotate(t.orientation, v), t.position);
  }

  // The inverse undoes what a transform does to a point, either way round.
  lemma InvertUndoes(t: Transform, v: Vector)
    requires Unit(t.orientation)
    ensures Apply(TransformInvert(t), Apply(t, v)) == v && Apply(t, Apply(TransformInvert(t), v)) == v
  {
    var q := t.orientation;
    InvertUnit(q);
    hide Rotate, DotProduct, Invert, Conjugate;
    var c := Conjugate(q);
    RotatePlus(c, Rotate(q, v), t.position);
    RotateBack(q, v);
    RotatePlus(q, Rotate(c, v), Minus(Rotate(c, t.position)));
    RotateMinus(q, Rotate(c, t.position));
    RotateForth(q, v);
    RotateForth(q, t.position);
  }

  lemma ConcatAssociates(s: Transform, t: Transform, u: Transform)
    requires Unit(s.orientation) && Unit(t.orientation) && Unit(u.orientation)
    ensures SameTransform(Concat(Concat(s, t), u), Concat(s, Concat(t, u)))
  {
    hide Rotate, Mult, DotProduct, Product;
    var p, q, r := s.orientation, t.orientation, u.orientation;
    ConcatComposes(s, t, u.position);
    MultAssociates(p, q, r);
  }

  lemma MultAssociates(p: Quat, q: Quat, r: Quat)
    ensures SameUpToSign(Mult(Mult(p, q), r), Mult(p, Mult(q, r)))
  {
    hide Product, DotProduct, Mult;
    MultUpToSign(p, q);
    MultUpToSign(Mult(p, q), r);
    MultUpToSign(q, r);
    MultUpToSign(p, Mult(q, r));
    ProductAssociates(p, q, r);
    ProductNegateLeft(Product(p, q), r);
    ProductNegate(p, Product(q, r));
    NegateTwice(Product(p, Product(q, r)));
  }

  // The first `roots` bones have no parent; every other bone's parent comes before it.
  predicate IsHierarchy(roots: nat, parents: seq<int>) {
    roots <= |parents| && forall i | roots <= i < |parents| :: 0 <= parents[i] < i
  }

  // Where bone i is in world space.
  function World(roots: nat, parents: seq<int>, local: seq<Transform>, i: nat): Transform
    requires IsHierarchy(roots, parents) && |local| == |parents| && i < |parents|
  {
    if i < roots then local[i] else Concat(World(roots, parents, local, parents[i]), local[i])
  }

  // Where a point given relative to bone i is in the world: carried up from parent to parent.
  function Place(roots: nat, parents: seq<int>, local: seq<Transform>, i: nat, v: Vector): Vector
    requires IsHierarchy(roots, parents) && |local| == |parents| && i < |parents|
  {
    if i < roots then Apply(local[i], v)
    else Place(roots, parents, local, parents[i], Apply(local[i], v))
  }

  lemma {:induction false} WorldPlaces(roots: nat, parents: seq<int>, local: seq<Transform>, i: nat, v: Vector)
    requires IsHierarchy(roots, parents) && |local| == |parents| && i < |parents|
    requires forall j | 0 <= j < |local| :: Unit(local[j].orientation)
    ensures Apply(World(roots, parents, local, i), v) == Place(roots, parents, local, i, v)
  {
    if i >= roots {
      hide Unit, Apply, Concat;
      WorldUnit(roots, parents, local, parents[i]);
      ConcatComposes(World(roots, parents, local, parents[i]), local[i], v);
      WorldPlaces(roots, parents, local, parents[i], Apply(local[i], v));
    }
  }

  method TransformToWorldSpace(roots: nat, parents: seq<int>, transforms: array<Transform>)
    requires IsHierarchy(roots, parents) && transforms.Length == |parents|
    modifies transforms
    ensures forall i | 0 <= i < |parents| :: transforms[i] == World(roots, parents, old(transforms[..]), i)
    ensures (forall i | 0 <= i < |parents| :: Unit(old(transforms[i]).orientation)) ==>
              forall i, v | 0 <= i < |parents| ::
                Apply(transforms[i], v) == Place(roots, parents, old(transforms[..]), i, v)
  {
    hide Concat, Unit, Apply;
    for i := roots to |parents|
      invariant forall j | 0 <= j < i :: transforms[j] == World(roots, parents, old(transforms[..]), j)
      invariant forall j | i <= j < |parents| :: transforms[j] == old(transforms[j])
    {
      transforms[i] := Concat(transforms[parents[i]], transforms[i]);
    }
    ghost var local := old(transforms[..]);
    if forall i | 0 <= i < |parents| :: Unit(local[i].orientation) {
      forall i, v | 0 <= i < |parents| ensures Apply(transforms[i], v) == Place(roots, parents, local, i, v) {
        WorldPlaces(roots, parents, local, i, v);
      }
    }
  }

  // Bones are taken last to first, so the parent of every bone still to come is in world space; its
  // inverse is computed once, at the first child that needs it.
  method TransformToParentSpace(roots: nat, parents: seq<int>, transforms: array<Transform>)
    requires IsHierarchy(roots, parents) && transforms.Length == |parents|
    modifies transforms
    ensures forall i | 0 <= i < roots :: transforms[i] == old(transforms[i])
    ensures forall i | roots <= i < |parents| ::
              transforms[i] == Concat(TransformInvert(old(transforms[..])[parents[i]]), old(transforms[i]))
  {
    hide Concat, TransformInvert;
    var computed := new bool[|parents|](_ => false);
    var worldToParent := new Transform[|parents|](_ => Transform(Vector(0.0, 0.0, 0.0), Quat(0.0, 0.0, 0.0, 1.0)));
    var b := |parents|;
    while b > roots
      invariant roots <= b <= |parents|
      invariant forall i | 0 <= i < b :: transforms[i] == old(transforms[i])
      invariant forall i | b <= i < |parents| ::
                  transforms[i] == Concat(TransformInvert(old(transforms[..])[parents[i]]), old(transforms[i]))
      invariant forall i | 0 <= i < |parents| && computed[i] ::
                  worldToParent[i] == TransformInvert(old(transforms[..])[i])
    {
      b := b - 1;
      var parent := parents[b];
      if !computed[parent] {
        worldToParent[parent] := TransformInvert(transforms[parent]);
        computed[parent] := true;
      }
      transforms[b] := Concat(worldToParent[parent], transforms[b]);
    }
  }

  lemma {:induction false} WorldUnit(roots: nat, parents: seq<int>, local: seq<Transform>, i: nat)
    requires IsHierarchy(roots, parents) && |local| == |parents| && i < |parents|
    requires forall j | 0 <= j < |local| :: Unit(local[j].orientation)
    ensures Unit(World(roots, parents, local, i).orientation)
  {
    if i >= roots {
      hide Unit, Mult;
      WorldUnit(roots, parents, local, parents[i]);
      MultUnit(World(roots, parents, local, parents[i]).orientation, local[i].orientation);
    }
  }

  // To world space and back: every position is what it was, every orientation is what it was or its
  // negative (the same rotation), and the roots have not moved.
  method RoundTrip(roots: nat, parents: seq<int>, transforms: array<Transform>)
    requires IsHierarchy(roots, parents) && transforms.Length == |parents|
    requires forall i | 0 <= i < |parents| :: Unit(transforms[i].orientation)
    modifies transforms
    ensures forall i | 0 <= i < |parents| :: SameTransform(transforms[i], old(transforms[i]))
    ensures forall i | 0 <= i < roots :: transforms[i] == old(transforms[i])
    ensures forall i, v | 0 <= i < |parents| ::
              Rotate(transforms[i].orientation, v) == Rotate(old(transforms[i]).orientation, v)
  {
    hide Concat, TransformInvert, Unit, Rotate;
    ghost var local := transforms[..];
    TransformToWorldSpace(roots, parents, transforms);
    ghost var world := transforms[..];
    TransformToParentSpace(roots, parents, transforms);
    forall i | 0 <= i < |parents| ensures SameTransform(transforms[i], local[i]) {
      if i >= roots {
        WorldUnit(roots, parents, local, parents[i]);
        ConcatInverse(world[parents[i]], local[i]);
      }
    }
    forall i, v | 0 <= i < |parents|
      ensures Rotate(transforms[i].orientation, v) == Rotate(local[i].orientation, v)
    {
      RotateNegate(local[i].orientation, v);
    }
  }

  // The same, on values: undoing the world transform of a bone with its parent's gives the bone back.
  lemma ParentSpaceUndoesWorldSpace(roots: nat, parents: seq<int>, local: seq<Transform>, i: nat)
    requires IsHierarchy(roots, parents) && |local| == |parents| && roots <= i < |parents|
    requires forall j | 0 <= j < |local| :: Unit(local[j].orientation)
    ensures SameTransform(Concat(TransformInvert(World(roots, parents, local, parents[i])),
                                 World(roots, parents, local, i)), local[i])
  {
    hide Concat, TransformInvert, Unit;
    WorldUnit(roots, parents, local, parents[i]);
    ConcatInverse(World(roots, parents, local, parents[i]), local[i]);
  }

  // The other way round: to parent space and back to world space

  // A rebuilt parent that rotates like the one a bone was taken out of puts the bone back.
  lemma ConcatRestores(again: Transform, parent: Transform, bone: Transform)
    requires Unit(parent.orientation) && SameTransform(again, parent)
    ensures SameTransform(Concat(again, Concat(TransformInvert(parent), bone)), bone)
  {
    var q := parent.orientation;
    var local := Concat(TransformInvert(parent), bone);
    InvertUnit(q);
    hide Rotate, Mult, DotProduct, Plus, Minus, Invert, Conjugate;
    OrientationRestored(again.orientation, q, bone.orientation);
    RotateNegate(q, local.position);
    PositionRestored(q, parent.position, bone.position);
  }

  lemma OrientationRestored(p: Quat, q: Quat, r: Quat)
    requires Unit(q) && SameUpToSign(p, q)
    ensures SameUpToSign(Mult(p, Mult(Conjugate(q), r)), r)
  {
    hide Product, DotProduct, Mult, Conjugate;
    var c := Conjugate(q);
    NegateUnit(q);
    ConjugateTwice(q);
    MultUpToSign(c, r);
    MultUpToSign(p, Mult(c, r));
    ConjugateCancels(c, r);
    ProductNegate(p, Product(c, r));
    ProductNegateLeft(q, Product(c, r));
    NegateTwice(r);
  }

  lemma PositionRestored(q: Quat, parent: Vector, bone: Vector)
    requires Unit(q)
    ensures Plus(Rotate(q, Plus(Rotate(Conjugate(q), bone), Minus(Rotate(Conjugate(q), parent)))), parent) == bone
  {
    hide Rotate, Conjugate, DotProduct;
    var c := Conjugate(q);
    RotatePlus(q, Rotate(c, bone), Minus(Rotate(c, parent)));
    RotateMinus(q, Rotate(c, parent));
    RotateForth(q, bone);
    RotateForth(q, parent);
  }

  lemma {:induction false} WorldRestored(roots: nat, parents: seq<int>, world: seq<Transform>, local: seq<Transform>,
                                         i: nat)
    requires IsHierarchy(roots, parents) && |local| == |world| == |parents| && i < |parents|
    requires forall j | 0 <= j < |world| :: Unit(world[j].orientation)
    requires forall j | 0 <= j < roots :: local[j] == world[j]
    requires forall j | roots <= j < |parents| :: local[j] == Concat(TransformInvert(world[parents[j]]), world[j])
    ensures SameTransform(World(roots, parents, local, i), world[i])
  {
    if i >= roots {
      hide Concat, TransformInvert, Unit;
      WorldRestored(roots, parents, world, local, parents[i]);
      ConcatRestores(World(roots, parents, local, parents[i]), world[parents[i]], world[i]);
    }
  }

  // For any bones in world space with unit orientations: positions and rotations come back, and the roots
  // have not moved.
  method RoundTripBack(roots: nat, parents: seq<int>, transforms: array<Transform>)
    requires IsHierarchy(roots, parents) && transforms.Length == |parents|
    requires forall i | 0 <= i < |parents| :: Unit(transforms[i].orientation)
    modifies transforms
    ensures forall i | 0 <= i < |parents| :: SameTransform(transforms[i], old(transforms[i]))
    ensures forall i | 0 <= i < roots :: transforms[i] == old(transforms[i])
    ensures forall i, v | 0 <= i < |parents| ::
              Rotate(transforms[i].orientation, v) == Rotate(old(transforms[i]).orientation, v)
  {
    hide Concat, TransformInvert, Unit, Rotate;
    ghost var world := transforms[..];
    TransformToParentSpace(roots, parents, transforms);
    ghost var local := transforms[..];
    TransformToWorldSpace(roots, parents, transforms);
    forall i | 0 <= i < |parents| ensures SameTransform(transforms[i], world[i]) {
      WorldRestored(roots, parents, world, local, i);
    }
    forall i, v | 0 <= i < |parents|
      ensures Rotate(transforms[i].orientation, v) == Rotate(world[i].orientation, v)
    {
      RotateNegate(world[i].orientation, v);
    }
  }
}
