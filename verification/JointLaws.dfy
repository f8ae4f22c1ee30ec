/** What a joint angle, an animation channel and a body pose do to the points of a node, written
    on vectors. */
module JointLaws {
  import opened Common
  import opened RealProduct
  import opened TriangleTest
  import opened Matrix
  import opened Rotations
  import opened Skeleton
  import opened SkeletonTheorems
  import Lines = LinearMaps

  // ---------------------------------------------------------------- turns of a vector

  function TurnX(s: real, c: real, v: Vec): Vec { Vec(v.x, Mul(c, v.y) - Mul(s, v.z), Mul(s, v.y) + Mul(c, v.z)) }

  function TurnY(s: real, c: real, v: Vec): Vec { Vec(Mul(c, v.x) + Mul(s, v.z), v.y, Mul(c, v.z) - Mul(s, v.x)) }

  function TurnZ(s: real, c: real, v: Vec): Vec { Vec(Mul(c, v.x) - Mul(s, v.y), Mul(s, v.x) + Mul(c, v.y), v.z) }

  /** The turn about a unit axis: c v + (1 - c)(k . v) k + s (k x v). */
  function TurnAbout(k: Vec, s: real, c: real, v: Vec): Vec {
    Combined(c, v, Mul(1.0 - c, Inner(k, v)), k, s, Outer(k, v))
  }

  lemma PointOfX(s: real, c: real, v: Vec)
    ensures TransformPoint(RotX(s, c), v) == TurnX(s, c, v) && Affine(RotX(s, c))
  {
    Trivial(v);
    MulNegated(s, v.z, -s);
  }

  lemma PointOfY(s: real, c: real, v: Vec)
    ensures TransformPoint(RotY(s, c), v) == TurnY(s, c, v) && Affine(RotY(s, c))
  {
    Trivial(v);
    MulNegated(s, v.x, -s);
  }

  lemma PointOfZ(s: real, c: real, v: Vec)
    ensures TransformPoint(RotZ(s, c), v) == TurnZ(s, c, v) && Affine(RotZ(s, c))
  {
    Trivial(v);
    MulNegated(s, v.y, -s);
  }

  lemma PointOfTranslation(p: Vec, v: Vec)
    ensures TransformPoint(Translation(p), v) == Add(v, p) && Affine(Translation(p))
  {
    Trivial(v);
  }

  lemma PointOfIdentity(v: Vec)
    ensures TransformPoint(Identity(), v) == v && Affine(Identity())
  {
    Trivial(v);
  }

  // ---------------------------------------------------------------- a node's own transform

  /** Euler angles turn about z first, then x, then y. */
  function Euler(g: Trig, rot: Vec, v: Vec): Vec {
    TurnY(g.sin(rot.y), g.cos(rot.y),
      TurnX(g.sin(rot.x), g.cos(rot.x), TurnZ(g.sin(rot.z), g.cos(rot.z), v)))
  }

  lemma PointOfTrs(g: Trig, pos: Vec, rot: Vec, v: Vec)
    ensures TransformPoint(Trs(g, pos, rot), v) == Add(Euler(g, rot, v), pos) && Affine(Trs(g, pos, rot))
  {
    var x, y, z := RotX(g.sin(rot.x), g.cos(rot.x)), RotY(g.sin(rot.y), g.cos(rot.y)), RotZ(g.sin(rot.z), g.cos(rot.z));
    var v1 := TurnZ(g.sin(rot.z), g.cos(rot.z), v);
    var v2 := TurnX(g.sin(rot.x), g.cos(rot.x), v1);
    PointOfZ(g.sin(rot.z), g.cos(rot.z), v);
    PointOfX(g.sin(rot.x), g.cos(rot.x), v1);
    PointOfY(g.sin(rot.y), g.cos(rot.y), v2);
    PointOfTranslation(pos, Euler(g, rot, v));
    AffineTimes(x, z);
    AffineTimes(y, Times(x, z));
    AffineTimes(Translation(pos), Times(y, Times(x, z)));
    PointThroughTimes(x, z, v);
    PointThroughTimes(y, Times(x, z), v);
    PointThroughTimes(Translation(pos), Times(y, Times(x, z)), v);
  }

  /** A joint turns about its axis, of whatever length; one that is too short turns nothing. */
  function JointTurn(g: Trig, axis: Vec, angle: real, v: Vec): Vec {
    var len := g.root(Norm2(axis));
    if len < Eps then v
    else TurnAbout(Vec(axis.x / len, axis.y / len, axis.z / len), g.sin(angle), g.cos(angle), v)
  }

  lemma PointOfAxisAngle(g: Trig, axis: Vec, angle: real, v: Vec)
    ensures TransformPoint(AxisAngle(g, axis, angle), v) == JointTurn(g, axis, angle, v)
    ensures Affine(AxisAngle(g, axis, angle))
  {
    var len := g.root(Norm2(axis));
    if len < Eps {
      PointOfIdentity(v);
    } else {
      PointOfRodrigues(Vec(axis.x / len, axis.y / len, axis.z / len), g.sin(angle), g.cos(angle), v);
    }
  }

  lemma PointOfRodrigues(k: Vec, s: real, c: real, v: Vec)
    ensures TransformPoint(Rodrigues(k, s, c, 1.0 - c), v) == TurnAbout(k, s, c, v)
    ensures Affine(Rodrigues(k, s, c, 1.0 - c))
  {
    var m := Rodrigues(k, s, c, 1.0 - c);
    RodriguesSpin(k, s, c, 1.0 - c, v);
    PointIsSpin(m, v);
  }

  /** A body pose turns about the vertical and moves in the plane. */
  lemma PointOfBodyOffset(g: Trig, x: real, z: real, heading: real, v: Vec)
    ensures TransformPoint(BodyOffset(g, x, z, heading), v)
      == Add(TurnY(g.sin(heading), g.cos(heading), v), Vec(x, 0.0, z))
  {
    Trivial(v);
    MulNegated(g.sin(heading), v.x, -g.sin(heading));
  }

  // ---------------------------------------------------------------- points on the axis

  /** A multiple of a vector. */
  function Multiple(t: real, v: Vec): Vec { Vec(Mul(t, v.x), Mul(t, v.y), Mul(t, v.z)) }

  lemma TurnAboutKeepsAxis(k: Vec, s: real, c: real, t: real)
    requires Norm2(k) == 1.0
    ensures TurnAbout(k, s, c, Multiple(t, k)) == Multiple(t, k)
  {
    var v, d := Multiple(t, k), 1.0 - c;
    InnerWithMultiple(k, t);
    OuterWithMultiple(k, t);
    MulOfZero(s);
    TurnedCoordinate(c, d, t, k.x);
    TurnedCoordinate(c, d, t, k.y);
    TurnedCoordinate(c, d, t, k.z);
  }

  lemma TurnedCoordinate(c: real, d: real, t: real, x: real)
    requires d == 1.0 - c
    ensures Mul(c, Mul(t, x)) + Mul(Mul(d, t), x) == Mul(t, x)
  {
    MulSwap(d, t, x);
    MulSum(Mul(t, x), c, d, 1.0);
    MulOfOne(Mul(t, x));
  }

  lemma InnerWithMultiple(k: Vec, t: real)
    requires Norm2(k) == 1.0
    ensures Inner(k, Multiple(t, k)) == t
  {
    MulSwap(k.x, t, k.x);
    MulSwap(k.y, t, k.y);
    MulSwap(k.z, t, k.z);
    MulSum3(t, Square(k.x), Square(k.y), Square(k.z), 1.0);
    MulOfOne(t);
  }

  lemma OuterWithMultiple(k: Vec, t: real)
    ensures Outer(k, Multiple(t, k)) == Vec(0.0, 0.0, 0.0)
  {
    Lines.CommuteAll(k, k);
    MulSwap(k.y, t, k.z);
    MulSwap(k.z, t, k.y);
    MulSwap(k.z, t, k.x);
    MulSwap(k.x, t, k.z);
    MulSwap(k.x, t, k.y);
    MulSwap(k.y, t, k.x);
  }

  /** A multiple of the axis is a multiple of its unit vector. */
  lemma AxisMultiple(axis: Vec, len: real, k: Vec, t: real)
    requires len != 0.0 && k == Vec(axis.x / len, axis.y / len, axis.z / len)
    ensures Multiple(t, axis) == Multiple(Mul(t, len), k)
  {
    assert Mul(len, k.x) == axis.x && Mul(len, k.y) == axis.y && Mul(len, k.z) == axis.z;
    MulSwap(t, len, k.x);
    MulSwap(t, len, k.y);
    MulSwap(t, len, k.z);
  }

  /** A joint leaves every point of its axis where it is. */
  lemma JointKeepsAxis(g: Trig, axis: Vec, angle: real, t: real)
    requires Lawful(g)
    ensures JointTurn(g, axis, angle, Multiple(t, axis)) == Multiple(t, axis)
  {
    SquareSign(axis.x);
    SquareSign(axis.y);
    SquareSign(axis.z);
    var len := g.root(Norm2(axis));
    if len >= Eps {
      var k := Vec(axis.x / len, axis.y / len, axis.z / len);
      UnitLength(axis, len, k);
      AxisMultiple(axis, len, k, t);
      TurnAboutKeepsAxis(k, g.sin(angle), g.cos(angle), Mul(t, len));
    }
  }

  // ---------------------------------------------------------------- in the world

  /** The transform a node hangs from: its parent's, or the root's. */
  function Above<M>(rig: Rig<M>, w: World<M>, n: Node): M
    requires ParentWorld(rig, w, n).Some?
  {
    ParentWorld(rig, w, n).value
  }

  lemma WorldAt<M(!new)>(rig: Rig<M>, skeleton: seq<Node>, w: World<M>, path: seq<Node>)
    requires IsWorld(rig, skeleton, w) && IsChain(skeleton, path)
    ensures path[0].name in w && w[path[0].name] == Product(rig, path)
  {
  }

  lemma StepOfChain<M>(rig: Rig<M>, skeleton: seq<Node>, w: World<M>, path: seq<Node>)
    requires IsChain(skeleton, path) && path[0].name in w && w[path[0].name] == Product(rig, path)
    requires |path| > 1 ==> path[1].name in w && w[path[1].name] == Product(rig, path[1..])
    ensures ParentWorld(rig, w, path[0]).Some?
    ensures w[path[0].name] == rig.mul(Above(rig, w, path[0]), rig.local(path[0]))
  {
  }

  lemma WorldAlongChain<M(!new)>(rig: Rig<M>, skeleton: seq<Node>, w: World<M>, path: seq<Node>)
    requires IsWorld(rig, skeleton, w) && IsChain(skeleton, path)
    ensures path[0].name in w && ParentWorld(rig, w, path[0]).Some?
    ensures w[path[0].name] == rig.mul(Above(rig, w, path[0]), rig.local(path[0]))
  {
    WorldAt(rig, skeleton, w, path);
    if |path| > 1 {
      ChainTail(skeleton, path);
      WorldAt(rig, skeleton, w, path[1..]);
    }
    StepOfChain(rig, skeleton, w, path);
  }

  /** Every node's transform is its own after that of what it hangs from. */
  lemma WorldFromParent<M(!new)>(rig: Rig<M>, skeleton: seq<Node>, w: World<M>, n: Node)
    requires Agreeing(rig, skeleton) && Worlds(rig, skeleton) == Ok(w) && n in skeleton
    ensures n.name in w && ParentWorld(rig, w, n).Some? && w[n.name] == rig.mul(Above(rig, w, n), rig.local(n))
  {
    WorklistIsProduct(rig, skeleton);
    var path: seq<Node> :| IsChain(skeleton, path) && path[0] == n;
    WorldAlongChain(rig, skeleton, w, path);
  }

  /** Chains from nodes of one name are equally long. */
  lemma {:induction false} SameLength<M>(rig: Rig<M>, skeleton: seq<Node>, p: seq<Node>, q: seq<Node>)
    requires Agreeing(rig, skeleton) && IsChain(skeleton, p) && IsChain(skeleton, q) && p[0].name == q[0].name
    ensures |p| == |q|
    decreases |p|
  {
    assert p[0] in skeleton && q[0] in skeleton;
    assert p[0].parent == q[0].parent;
    if |p| > 1 { ChainTail(skeleton, p); }
    if |q| > 1 { ChainTail(skeleton, q); }
    if |p| > 1 && |q| > 1 { SameLength(rig, skeleton, p[1..], q[1..]); }
  }

  lemma {:induction false} ChainSuffix(skeleton: seq<Node>, path: seq<Node>, i: nat)
    requires IsChain(skeleton, path) && i < |path|
    ensures IsChain(skeleton, path[i..])
  {
    if i > 0 {
      ChainTail(skeleton, path);
      ChainSuffix(skeleton, path[1..], i - 1);
      assert path[1..][i - 1..] == path[i..];
    }
  }

  /** No name comes up twice on the way to a root. */
  lemma ChainNames<M>(rig: Rig<M>, skeleton: seq<Node>, path: seq<Node>, i: nat)
    requires Agreeing(rig, skeleton) && IsChain(skeleton, path) && 0 < i < |path|
    ensures path[i].name != path[0].name
  {
    if path[i].name == path[0].name {
      ChainSuffix(skeleton, path, i);
      SameLength(rig, skeleton, path, path[i..]);
    }
  }

  lemma AnglesAbove<M>(rig: Rig<M>, a: map<string, real>, b: map<string, real>, skeleton: seq<Node>, path: seq<Node>)
    requires Agreeing(rig, skeleton) && IsChain(skeleton, path) && |path| > 1
    requires a - {path[0].name} == b - {path[0].name}
    ensures SameAngles(a, b, path[1..])
  {
    forall i | 0 <= i < |path[1..]| ensures SameAngle(a, b, path[1..][i].name) {
      ChainNames(rig, skeleton, path, i + 1);
      OtherAngle(a, b, path[0].name, path[i + 1].name);
    }
  }

  /** Changing one joint's angle does not move what its node hangs from. */
  lemma AboveStays<M(!new)>(t: Transforms<M>, a: map<string, real>, b: map<string, real>, offset: Option<M>,
                            skeleton: seq<Node>, v: World<M>, w: World<M>, n: Node)
    requires Agreeing(JointRig(t, a, offset), skeleton) && Worlds(JointRig(t, a, offset), skeleton) == Ok(v)
    requires Agreeing(JointRig(t, b, offset), skeleton) && Worlds(JointRig(t, b, offset), skeleton) == Ok(w)
    requires n in skeleton && a - {n.name} == b - {n.name}
    ensures ParentWorld(JointRig(t, a, offset), v, n).Some? && ParentWorld(JointRig(t, b, offset), w, n).Some?
    ensures Above(JointRig(t, a, offset), v, n) == Above(JointRig(t, b, offset), w, n)
  {
    WorldFromParent(JointRig(t, a, offset), skeleton, v, n);
    WorldFromParent(JointRig(t, b, offset), skeleton, w, n);
    var path := ChainOf(JointRig(t, a, offset), skeleton, n);
    if |path| > 1 {
      ChainTail(skeleton, path);
      AnglesAbove(JointRig(t, a, offset), a, b, skeleton, path);
      JointsMoveOnlyBelow(t, a, b, offset, skeleton, path[1..]);
    }
  }

  lemma ChainOf<M(!new)>(rig: Rig<M>, skeleton: seq<Node>, n: Node) returns (path: seq<Node>)
    requires Agreeing(rig, skeleton) && Worlds(rig, skeleton).Ok? && n in skeleton
    ensures IsChain(skeleton, path) && path[0] == n
  {
    WorklistIsProduct(rig, skeleton);
    path :| IsChain(skeleton, path) && path[0] == n;
  }

  predicate SameAngle(a: map<string, real>, b: map<string, real>, name: string) {
    (name in a <==> name in b) && (name in a ==> a[name] == b[name])
  }

  lemma OtherAngle(a: map<string, real>, b: map<string, real>, turned: string, name: string)
    requires a - {turned} == b - {turned} && name != turned
    ensures SameAngle(a, b, name)
  {
    assert name in a <==> name in a - {turned};
    assert name in b <==> name in b - {turned};
    if name in a { assert (a - {turned})[name] == a[name] && (b - {turned})[name] == b[name]; }
  }

  /** The axis of a node's joint: the vertical unless it has one. */
  function AxisOf(n: Node): Vec { if n.axis.Some? then n.axis.value else Vec(0.0, 1.0, 0.0) }

  /** Where a joint with an angle takes a point of its node, and a joint without one. */
  function JointPoint(g: Trig, angles: map<string, real>, n: Node, v: Vec): Vec {
    if n.name in angles then JointTurn(g, AxisOf(n), angles[n.name], v) else v
  }

  lemma PointOfTurnedTrs(g: Trig, pos: Vec, rot: Vec, axis: Vec, angle: real, v: Vec)
    ensures TransformPoint(Times(Trs(g, pos, rot), AxisAngle(g, axis, angle)), v)
      == Add(Euler(g, rot, JointTurn(g, axis, angle, v)), pos)
    ensures Affine(Times(Trs(g, pos, rot), AxisAngle(g, axis, angle)))
  {
    var m, r := Trs(g, pos, rot), AxisAngle(g, axis, angle);
    PointOfAxisAngle(g, axis, angle, v);
    PointOfTrs(g, pos, rot, JointTurn(g, axis, angle, v));
    AffineTimes(m, r);
    PointThroughTimes(m, r, v);
  }

  lemma PointOfJointLocal(g: Trig, angles: map<string, real>, n: Node, v: Vec)
    ensures TransformPoint(JointLocal(Matrices(g), angles, n), v)
      == Add(Euler(g, n.rot, JointPoint(g, angles, n, v)), n.pos)
    ensures Affine(JointLocal(Matrices(g), angles, n))
  {
    if n.name in angles {
      PointOfTurnedTrs(g, n.pos, n.rot, AxisOf(n), angles[n.name], v);
    } else {
      PointOfTrs(g, n.pos, n.rot, v);
    }
  }

  /** What a joint angle does: a point of the node is turned about the joint's axis, then by the
      node's own angles, then moved to the node's place, and only then taken on by what the node
      hangs from. */
  lemma JointMovesPoint(g: Trig, angles: map<string, real>, offset: Option<Mat4>, skeleton: seq<Node>, w: World<Mat4>,
                        n: Node, v: Vec)
    requires Agreeing(JointRig(Matrices(g), angles, offset), skeleton) && n in skeleton
    requires Worlds(JointRig(Matrices(g), angles, offset), skeleton) == Ok(w)
    ensures n.name in w && ParentWorld(JointRig(Matrices(g), angles, offset), w, n).Some?
    ensures TransformPoint(w[n.name], v)
      == TransformPoint(Above(JointRig(Matrices(g), angles, offset), w, n),
           Add(Euler(g, n.rot, JointPoint(g, angles, n, v)), n.pos))
  {
    var rig := JointRig(Matrices(g), angles, offset);
    WorldFromParent(rig, skeleton, w, n);
    PointOfJointLocal(g, angles, n, v);
    PointThroughTimes(Above(rig, w, n), JointLocal(Matrices(g), angles, n), v);
  }

  /** Changing the angle of one joint leaves the node's origin and every point of its axis where
      they were. */
  lemma JointKeepsAxisInPlace(g: Trig, a: map<string, real>, b: map<string, real>, offset: Option<Mat4>,
                              skeleton: seq<Node>, v: World<Mat4>, w: World<Mat4>, n: Node, t: real)
    requires Lawful(g) && n in skeleton && a - {n.name} == b - {n.name}
    requires Agreeing(JointRig(Matrices(g), a, offset), skeleton)
    requires Agreeing(JointRig(Matrices(g), b, offset), skeleton)
    requires Worlds(JointRig(Matrices(g), a, offset), skeleton) == Ok(v)
    requires Worlds(JointRig(Matrices(g), b, offset), skeleton) == Ok(w)
    ensures n.name in v && n.name in w
    ensures TransformPoint(v[n.name], Multiple(t, AxisOf(n))) == TransformPoint(w[n.name], Multiple(t, AxisOf(n)))
  {
    var p := Multiple(t, AxisOf(n));
    JointMovesPoint(g, a, offset, skeleton, v, n, p);
    JointMovesPoint(g, b, offset, skeleton, w, n, p);
    AboveStays(Matrices(g), a, b, offset, skeleton, v, w, n);
    if n.name in a { JointKeepsAxis(g, AxisOf(n), a[n.name], t); }
    if n.name in b { JointKeepsAxis(g, AxisOf(n), b[n.name], t); }
  }

  /** What an animation channel does: it adds to the node's own angles and to its place. */
  lemma PoseMovesPoint(g: Trig, poses: map<string, (Vec, Vec)>, skeleton: seq<Node>, w: World<Mat4>, n: Node, v: Vec)
    requires Agreeing(PosedRig(Matrices(g), poses), skeleton) && n in skeleton
    requires Worlds(PosedRig(Matrices(g), poses), skeleton) == Ok(w)
    ensures n.name in w && ParentWorld(PosedRig(Matrices(g), poses), w, n).Some?
    ensures TransformPoint(w[n.name], v)
      == TransformPoint(Above(PosedRig(Matrices(g), poses), w, n),
           if n.name in poses
           then Add(Euler(g, Add(n.rot, poses[n.name].0), v), Add(n.pos, poses[n.name].1))
           else Add(Euler(g, n.rot, v), n.pos))
  {
    var rig := PosedRig(Matrices(g), poses);
    WorldFromParent(rig, skeleton, w, n);
    if n.name in poses {
      PointOfTrs(g, Add(n.pos, poses[n.name].1), Add(n.rot, poses[n.name].0), v);
    } else {
      PointOfTrs(g, n.pos, n.rot, v);
    }
    PointThroughTimes(Above(rig, w, n), PosedLocal(Matrices(g), poses, n), v);
  }

  /** The angles turn about the origin of the node. */
  lemma EulerKeepsOrigin(g: Trig, rot: Vec, o: Vec)
    requires o.x == 0.0 && o.y == 0.0 && o.z == 0.0
    ensures Euler(g, rot, o) == o
  {
    MulOfZero(g.sin(rot.x));
    MulOfZero(g.cos(rot.x));
    MulOfZero(g.sin(rot.y));
    MulOfZero(g.cos(rot.y));
    MulOfZero(g.sin(rot.z));
    MulOfZero(g.cos(rot.z));
  }

  /** So a channel puts the node's origin at its place plus the channel's offset in the frame of
      what it hangs from, whatever its rotation. */
  lemma PoseMovesOrigin(g: Trig, poses: map<string, (Vec, Vec)>, skeleton: seq<Node>, w: World<Mat4>, n: Node, o: Vec)
    requires Agreeing(PosedRig(Matrices(g), poses), skeleton) && n in skeleton && n.name in poses
    requires Worlds(PosedRig(Matrices(g), poses), skeleton) == Ok(w) && o.x == 0.0 && o.y == 0.0 && o.z == 0.0
    ensures n.name in w && ParentWorld(PosedRig(Matrices(g), poses), w, n).Some?
    ensures TransformPoint(w[n.name], o)
      == TransformPoint(Above(PosedRig(Matrices(g), poses), w, n), Add(n.pos, poses[n.name].1))
  {
    PoseMovesPoint(g, poses, skeleton, w, n, o);
    EulerKeepsOrigin(g, Add(n.rot, poses[n.name].0), o);
  }
}
