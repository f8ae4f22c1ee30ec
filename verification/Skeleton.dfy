/** World transforms of a skeleton: the worklist and the product along the parent chain. */
module Skeleton {
  import opened Common
  import opened TriangleTest

  datatype Node = Node(name: string, parent: Option<string>, pos: Vec, rot: Vec, axis: Option<Vec>)

  /** The matrix operations, over any type of transform. */
  datatype Transforms<!M> = Transforms(one: M, mul: (M, M) -> M, trs: (Vec, Vec) -> M, turn: (Vec, real) -> M)

  /** How one traversal composes: the transform roots start from, and each node's own. */
  datatype Rig<!M> = Rig(root: M, mul: (M, M) -> M, local: Node -> M)

  type World<M> = map<string, M>

  // ---------------------------------------------------------------- the worklist

  function ParentWorld<M>(rig: Rig<M>, world: World<M>, n: Node): Option<M> {
    match n.parent
    case None => Some(rig.root)
    case Some(p) => if p in world then Some(world[p]) else None
  }

  /** One pass over the remaining nodes: resolved ones move to the world, the rest are kept. */
  function Pass<M>(rig: Rig<M>, world: World<M>, remaining: seq<Node>): (World<M>, seq<Node>)
    decreases |remaining|
  {
    if remaining == [] then (world, [])
    else
      var n := remaining[0];
      match ParentWorld(rig, world, n)
      case None => var (w, kept) := Pass(rig, world, remaining[1..]); (w, [n] + kept)
      case Some(m) => Pass(rig, world[n.name := rig.mul(m, rig.local(n))], remaining[1..])
  }

  lemma {:induction false} PassShrinks<M>(rig: Rig<M>, world: World<M>, remaining: seq<Node>)
    ensures |Pass(rig, world, remaining).1| <= |remaining|
    decreases |remaining|
  {
    if remaining != [] {
      var n := remaining[0];
      match ParentWorld(rig, world, n)
      case None => PassShrinks(rig, world, remaining[1..]);
      case Some(m) => PassShrinks(rig, world[n.name := rig.mul(m, rig.local(n))], remaining[1..]);
    }
  }

  /** Passes until nothing remains or a pass resolves nothing. */
  function Settle<M>(rig: Rig<M>, world: World<M>, remaining: seq<Node>): (World<M>, seq<Node>)
    decreases |remaining|
  {
    var (w, kept) := Pass(rig, world, remaining);
    if |kept| >= |remaining| then (w, kept) else Settle(rig, w, kept)
  }

  /** The error names a node that could not be resolved. */
  function Worlds<M>(rig: Rig<M>, skeleton: seq<Node>): Result<World<M>, string> {
    var (w, kept) := Settle(rig, map[], skeleton);
    if kept == [] then Ok(w) else Err(kept[0].name)
  }

  lemma {:induction false} PassAppend<M>(rig: Rig<M>, world: World<M>, s: seq<Node>, n: Node)
    ensures var (w, kept) := Pass(rig, world, s);
      Pass(rig, world, s + [n]) ==
        match ParentWorld(rig, w, n)
        case None => (w, kept + [n])
        case Some(m) => (w[n.name := rig.mul(m, rig.local(n))], kept)
    decreases |s|
  {
    if s == [] {
      assert s + [n] == [n] && [n][1..] == [] && [n] + [] == [n] && [] + [n] == [n];
    } else {
      assert (s + [n])[1..] == s[1..] + [n];
      match ParentWorld(rig, world, s[0])
      case None =>
        PassAppend(rig, world, s[1..], n);
        var kept := Pass(rig, world, s[1..]).1;
        assert [s[0]] + (kept + [n]) == ([s[0]] + kept) + [n];
      case Some(m) => PassAppend(rig, world[s[0].name := rig.mul(m, rig.local(s[0]))], s[1..], n);
    }
  }

  /** The nested loops: each outer round retains the nodes whose parent is still unknown. */
  method NodeWorld<M>(rig: Rig<M>, skeleton: seq<Node>) returns (r: Result<World<M>, string>)
    ensures r == Worlds(rig, skeleton)
  {
    var world: World<M> := map[];
    var remaining := skeleton;
    var progress := true;
    while remaining != [] && progress
      invariant progress ==> Settle(rig, world, remaining) == Settle(rig, map[], skeleton)
      invariant !progress ==> (world, remaining) == Settle(rig, map[], skeleton)
      decreases |remaining|, progress
    {
      progress := false;
      var kept: seq<Node> := [];
      ghost var before := world;
      for i := 0 to |remaining|
        invariant (world, kept) == Pass(rig, before, remaining[..i])
        invariant progress <==> |kept| < i
        invariant |kept| <= i
      {
        var n := remaining[i];
        assert remaining[..i + 1] == remaining[..i] + [n];
        PassAppend(rig, before, remaining[..i], n);
        match ParentWorld(rig, world, n)
        case None => kept := kept + [n];
        case Some(m) =>
          world := world[n.name := rig.mul(m, rig.local(n))];
          progress := true;
      }
      assert remaining[..|remaining|] == remaining;
      remaining := kept;
    }
    if remaining == [] { r := Ok(world); } else { r := Err(remaining[0].name); }
  }

  // ---------------------------------------------------------------- the three traversals

  function RestRig<M>(t: Transforms<M>): Rig<M> { Rig(t.one, t.mul, (n: Node) => t.trs(n.pos, n.rot)) }

  /** Joint angles turn a node about its axis, the y axis when it has none. */
  function JointLocal<M>(t: Transforms<M>, angles: map<string, real>, n: Node): M {
    var local := t.trs(n.pos, n.rot);
    if n.name in angles
    then t.mul(local, t.turn(if n.axis.Some? then n.axis.value else Vec(0.0, 1.0, 0.0), angles[n.name]))
    else local
  }

  function JointRig<M>(t: Transforms<M>, angles: map<string, real>, offset: Option<M>): Rig<M> {
    Rig(if offset.Some? then offset.value else t.one, t.mul, (n: Node) => JointLocal(t, angles, n))
  }

  /** Animation channels add to a node's rest rotation and position. */
  function PosedLocal<M>(t: Transforms<M>, poses: map<string, (Vec, Vec)>, n: Node): M {
    if n.name in poses then t.trs(Add(n.pos, poses[n.name].1), Add(n.rot, poses[n.name].0)) else t.trs(n.pos, n.rot)
  }

  function PosedRig<M>(t: Transforms<M>, poses: map<string, (Vec, Vec)>): Rig<M> {
    Rig(t.one, t.mul, (n: Node) => PosedLocal(t, poses, n))
  }

  method NodeWorldTransforms<M>(t: Transforms<M>, skeleton: seq<Node>) returns (r: Result<World<M>, string>)
    ensures r == Worlds(RestRig(t), skeleton)
  {
    r := NodeWorld(RestRig(t), skeleton);
  }

  method NodeWorldWithJoints<M>(t: Transforms<M>, skeleton: seq<Node>, angles: map<string, real>, offset: Option<M>)
    returns (r: Result<World<M>, string>)
    ensures r == Worlds(JointRig(t, angles, offset), skeleton)
  {
    r := NodeWorld(JointRig(t, angles, offset), skeleton);
  }

  method NodeWorldPosed<M>(t: Transforms<M>, skeleton: seq<Node>, poses: map<string, (Vec, Vec)>)
    returns (r: Result<World<M>, string>)
    ensures r == Worlds(PosedRig(t, poses), skeleton)
  {
    r := NodeWorld(PosedRig(t, poses), skeleton);
  }
}
