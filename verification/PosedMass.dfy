/** Posing a body by its skeleton: every world transform is a proper motion, so the mass
    properties of what it carries follow. */
module PosedMass {
  import opened Common
  import opened RealProduct
  import opened TriangleTest
  import opened ClosedMesh
  import opened MassProps
  import opened Matrix
  import opened Rotations
  import opened LinearMaps
  import opened MassRotation
  import opened Skeleton
  import Chains = SkeletonTheorems

  /** Signed volumes are kept. */
  ghost predicate KeepsVolume(m: Mat4) {
    forall a, b, c :: Triple3(Spin(m, a), Spin(m, b), Spin(m, c)) == Triple3(a, b, c)
  }

  lemma KeepsVolumeIff(m: Mat4)
    ensures KeepsVolume(m) <==> Determinant(m) == 1.0
  {
    if KeepsVolume(m) { UnitVolume(m); }
    if Determinant(m) == 1.0 {
      forall a, b, c ensures Triple3(Spin(m, a), Spin(m, b), Spin(m, c)) == Triple3(a, b, c) {
        TripleOfImages(m, a, b, c);
        MulOfOne(Triple3(a, b, c));
      }
    }
  }

  lemma UnitVolume(m: Mat4)
    requires KeepsVolume(m)
    ensures Determinant(m) == 1.0
  {
    var x, y, z := UnitVectors();
    ColumnsAreImages(m, x, y, z);
    UnitTriple(x, y, z);
    assert Triple3(Spin(m, x), Spin(m, y), Spin(m, z)) == Triple3(x, y, z);
  }

  /** A rigid motion that does not mirror. */
  ghost predicate Proper(m: Mat4) { Rigid(m) && KeepsVolume(m) }

  lemma ProperTimes(a: Mat4, b: Mat4)
    requires Proper(a) && Proper(b)
    ensures Proper(Times(a, b))
  {
    RigidTimes(a, b);
    DeterminantOfTimes(a, b);
    KeepsVolumeIff(a);
    KeepsVolumeIff(b);
    KeepsVolumeIff(Times(a, b));
    MulOfOne(1.0);
  }

  lemma IsProperIf(m: Mat4)
    requires Rigid(m) && Determinant(m) == 1.0
    ensures Proper(m)
  {
    KeepsVolumeIff(m);
  }

  lemma TurnsAreProper(m: Mat4, s: real, c: real)
    requires Square(s) + Square(c) == 1.0 && (m == RotX(s, c) || m == RotY(s, c) || m == RotZ(s, c))
    ensures Proper(m)
  {
    if m == RotX(s, c) {
      RotXIsRigid(s, c);
      DeterminantX(m, s, c);
    } else if m == RotY(s, c) {
      RotYIsRigid(s, c);
      DeterminantY(m, s, c);
    } else {
      RotZIsRigid(s, c);
      DeterminantZ(m, s, c);
    }
    IsProperIf(m);
  }

  lemma TranslationIsProper(m: Mat4, p: Vec)
    requires m == Translation(p)
    ensures Proper(m)
  {
    TranslationIsRigid(p);
    DeterminantOfUnits(m, p);
    IsProperIf(m);
  }

  lemma IdentityIsProper()
    ensures Proper(Identity())
  {
    var p := Vec(0.0, 0.0, 0.0);
    assert Identity() == Translation(p);
    TranslationIsProper(Identity(), p);
  }

  lemma TrsIsProper(g: Trig, pos: Vec, rot: Vec)
    requires Lawful(g)
    ensures Proper(Trs(g, pos, rot))
  {
    var x, y, z := RotX(g.sin(rot.x), g.cos(rot.x)), RotY(g.sin(rot.y), g.cos(rot.y)), RotZ(g.sin(rot.z), g.cos(rot.z));
    TurnsAreProper(x, g.sin(rot.x), g.cos(rot.x));
    TurnsAreProper(y, g.sin(rot.y), g.cos(rot.y));
    TurnsAreProper(z, g.sin(rot.z), g.cos(rot.z));
    TranslationIsProper(Translation(pos), pos);
    ProperTimes(x, z);
    ProperTimes(y, Times(x, z));
    ProperTimes(Translation(pos), Times(y, Times(x, z)));
  }

  lemma AxisAngleIsProper(g: Trig, axis: Vec, angle: real)
    requires Lawful(g)
    ensures Proper(AxisAngle(g, axis, angle))
  {
    SquareSign(axis.x);
    SquareSign(axis.y);
    SquareSign(axis.z);
    var len := g.root(Norm2(axis));
    if len < Eps {
      IdentityIsProper();
    } else {
      var k := Vec(axis.x / len, axis.y / len, axis.z / len);
      UnitLength(axis, len, k);
      RodriguesIsProper(k, g.sin(angle), g.cos(angle), 1.0 - g.cos(angle));
    }
  }

  lemma RodriguesIsProper(k: Vec, s: real, c: real, t: real)
    requires Norm2(k) == 1.0 && Square(s) + Square(c) == 1.0 && t == 1.0 - c
    ensures Proper(Rodrigues(k, s, c, t))
  {
    RodriguesIsRigid(k, s, c, t);
    RodriguesDeterminant(k, s, c, t);
    IsProperIf(Rodrigues(k, s, c, t));
  }

  lemma BodyOffsetIsProper(g: Trig, x: real, z: real, heading: real)
    requires Lawful(g)
    ensures Proper(BodyOffset(g, x, z, heading))
  {
    BodyOffsetIsRigid(g, x, z, heading);
    BodyOffsetDeterminant(BodyOffset(g, x, z, heading), RotY(g.sin(heading), g.cos(heading)), g.sin(heading),
      g.cos(heading));
    IsProperIf(BodyOffset(g, x, z, heading));
  }

  lemma BodyOffsetDeterminant(m: Mat4, r: Mat4, s: real, c: real)
    requires r == RotY(s, c) && Square(s) + Square(c) == 1.0 && m[..12] == r[..12]
    ensures Determinant(m) == 1.0
  {
    DeterminantY(r, s, c);
    forall i: nat | i < 12 ensures m[i] == r[i] { assert m[..12][i] == r[..12][i]; }
  }

  // ---------------------------------------------------------------- along a chain

  /** A property of every motion a skeleton is posed with, kept by products. */
  ghost predicate Shared<M(!new)>(t: Transforms<M>, ok: M -> bool) {
    && Multiplies(t.mul, ok) && ok(t.one)
    && (forall pos, rot :: ok(t.trs(pos, rot)))
    && forall axis, angle :: ok(t.turn(axis, angle))
  }

  ghost predicate Multiplies<M(!new)>(mul: (M, M) -> M, ok: M -> bool) {
    forall a, b :: ok(a) && ok(b) ==> ok(mul(a, b))
  }

  ghost predicate RigHas<M>(rig: Rig<M>, ok: M -> bool) { ok(rig.root) && forall n :: ok(rig.local(n)) }

  lemma {:induction false} ChainHas<M(!new)>(rig: Rig<M>, ok: M -> bool, path: seq<Node>)
    requires RigHas(rig, ok) && Multiplies(rig.mul, ok) && path != []
    ensures ok(Chains.Product(rig, path))
    decreases |path|
  {
    if |path| > 1 { ChainHas(rig, ok, path[1..]); }
  }

  /** What every motion has, every world transform has. */
  lemma WorldsHave<M(!new)>(rig: Rig<M>, ok: M -> bool, skeleton: seq<Node>, name: string)
    requires
      RigHas(rig, ok) && Multiplies(rig.mul, ok) && Worlds(rig, skeleton).Ok? && name in Worlds(rig, skeleton).value
    ensures ok(Worlds(rig, skeleton).value[name])
  {
    Chains.OutcomeOf(rig, skeleton);
    var (w, kept) := Settle(rig, map[], skeleton);
    var path: seq<Node> :| Chains.IsChain(skeleton, path) && path[0].name == name && w[name] == Chains.Product(rig,
      path);
    ChainHas(rig, ok, path);
  }

  lemma JointRigHas<M(!new)>(t: Transforms<M>, ok: M -> bool, angles: map<string, real>, offset: Option<M>)
    requires Shared(t, ok) && (offset.Some? ==> ok(offset.value))
    ensures RigHas(JointRig(t, angles, offset), ok)
  {
    forall n ensures ok(JointLocal(t, angles, n)) {
      var local := t.trs(n.pos, n.rot);
      assert ok(local);
      if n.name in angles {
        var axis, angle := if n.axis.Some? then n.axis.value else Vec(0.0, 1.0, 0.0), angles[n.name];
        assert ok(t.turn(axis, angle));
      }
    }
  }

  lemma PosedRigHas<M(!new)>(t: Transforms<M>, ok: M -> bool, poses: map<string, (Vec, Vec)>)
    requires Shared(t, ok)
    ensures RigHas(PosedRig(t, poses), ok)
  {
  }

  // ---------------------------------------------------------------- proper motions

  ghost function IsProper(): Mat4 -> bool { (m: Mat4) => Proper(m) }

  lemma ProperMultiplies(g: Trig)
    ensures Multiplies(Matrices(g).mul, IsProper())
  {
    forall a, b | IsProper()(a) && IsProper()(b) ensures IsProper()(Times(a, b)) { ProperTimes(a, b); }
  }

  lemma ProperIsShared(g: Trig)
    requires Lawful(g)
    ensures Shared(Matrices(g), IsProper())
  {
    ProperMultiplies(g);
    IdentityIsProper();
    forall pos, rot ensures IsProper()(Matrices(g).trs(pos, rot)) { TrsIsProper(g, pos, rot); }
    forall axis, angle ensures IsProper()(Matrices(g).turn(axis, angle)) { AxisAngleIsProper(g, axis, angle); }
  }

  // ---------------------------------------------------------------- the carried mesh

  /** The volume of a mesh is kept; unless it is negligible the centre of mass goes through the
      transform and the inertia tensor turns with it. */
  ghost predicate Follows(m: Mat4, faces: seq<Tri>) {
    var before, after := PropertiesOf(faces), PropertiesOf(MapAll(faces, WorldMap(m)));
    && after.volume == before.volume
    && (Abs(before.volume) > Negligible ==>
          && after.com == TransformPoint(m, before.com)
          && forall u, w :: Inertia(after, Spin(m, u), Spin(m, w)) == Inertia(before, u, w))
  }

  lemma ProperCarries(m: Mat4, faces: seq<Tri>)
    requires Proper(m) && Closed(faces)
    ensures Follows(m, faces)
  {
    var before, after := PropertiesOf(faces), PropertiesOf(MapAll(faces, WorldMap(m)));
    MassPropertiesCarried(faces, m);
    KeepsVolumeIff(m);
    MulOfOne(before.volume);
    if Abs(before.volume) > Negligible {
      forall u, w ensures Inertia(after, Spin(m, u), Spin(m, w)) == Inertia(before, u, w) {
        assert Inertia(after, Spin(m, u), Spin(m, w)) == Mul(1.0, Inertia(before, u, w));
        MulOfOne(Inertia(before, u, w));
      }
    }
  }

  lemma WorldCarries(g: Trig, rig: Rig<Mat4>, skeleton: seq<Node>, w: World<Mat4>, name: string, faces: seq<Tri>)
    requires RigHas(rig, IsProper()) && rig.mul == Matrices(g).mul
    requires Worlds(rig, skeleton) == Ok(w) && name in w && Closed(faces)
    ensures Follows(w[name], faces)
  {
    ProperMultiplies(g);
    WorldsHave(rig, IsProper(), skeleton, name);
    assert IsProper()(w[name]);
    ProperCarries(w[name], faces);
  }

  /** Whatever the joint angles and the body's offset, a closed part keeps its mass properties
      through its node's world transform. */
  lemma JointsCarryMass(g: Trig, angles: map<string, real>, offset: Option<Mat4>, skeleton: seq<Node>,
                        w: World<Mat4>, name: string, faces: seq<Tri>)
    requires Lawful(g) && (offset.Some? ==> Proper(offset.value))
    requires Worlds(JointRig(Matrices(g), angles, offset), skeleton) == Ok(w) && name in w && Closed(faces)
    ensures Follows(w[name], faces)
  {
    ProperIsShared(g);
    JointRigHas(Matrices(g), IsProper(), angles, offset);
    WorldCarries(g, JointRig(Matrices(g), angles, offset), skeleton, w, name, faces);
  }

  /** The same for all animation channels. */
  lemma PosesCarryMass(g: Trig, poses: map<string, (Vec, Vec)>, skeleton: seq<Node>,
                       w: World<Mat4>, name: string, faces: seq<Tri>)
    requires Lawful(g) && Worlds(PosedRig(Matrices(g), poses), skeleton) == Ok(w) && name in w && Closed(faces)
    ensures Follows(w[name], faces)
  {
    ProperIsShared(g);
    PosedRigHas(Matrices(g), IsProper(), poses);
    WorldCarries(g, PosedRig(Matrices(g), poses), skeleton, w, name, faces);
  }
}
