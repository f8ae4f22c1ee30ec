/** Baking a contract in full, and re-baking it from the previous result. */
module Bake {
  import opened Common
  import opened Skeleton
  import opened Contract

  datatype Mesh = Mesh(positions: seq<real>, normals: seq<real>, indices: seq<nat>)
  {
    function FaceCount(): nat { |indices| / 3 }
  }

  /** What tessellating one part gives: buffers and the counts of the polygon mesh. */
  datatype Built = Built(mesh: Mesh, verts: nat, polys: nat)

  datatype BuildError = MeshRef(assetRef: string) | Degenerate(message: string)

  type Tessellate = (Geom, Option<Pose>) -> Result<Built, BuildError>

  datatype BakedPart = BakedPart(sourcePath: SourcePath, partIndex: nat, part: Part, polyVerts: nat, polyFaces: nat,
    mesh: Mesh)

  datatype BakedModel<M> = BakedModel(parts: seq<BakedPart>, nodeWorld: World<M>, totalPolygons: nat,
    totalVertices: nat, totalFaces: nat)

  datatype BakeError =
    | UnknownNode(partIndex: nat, node: string)
    | MeshRefUnsupported(partIndex: nat, assetRef: string)
    | BadGeom(partIndex: nat, message: string)
    | SkeletonCycle(node: string)

  function AsBakeError(i: nat, e: BuildError): BakeError {
    match e
    case MeshRef(assetRef) => MeshRefUnsupported(i, assetRef)
    case Degenerate(message) => BadGeom(i, message)
  }

  // ---------------------------------------------------------------- the specification

  function BakedFrom(i: nat, path: SourcePath, part: Part, b: Built): BakedPart {
    BakedPart(path, i, part, b.verts, b.polys, b.mesh)
  }

  /** One part on its own. */
  function BakeOne<M>(tessellate: Tessellate, world: World<M>, i: nat, path: SourcePath,
                      part: Part): Result<BakedPart, BakeError> {
    if part.node !in world then Err(UnknownNode(i, part.node))
    else
      match tessellate(part.geom, part.pose)
      case Err(e) => Err(AsBakeError(i, e))
      case Ok(b) => Ok(BakedFrom(i, path, part, b))
  }

  /** The parts in order, up to the first that fails. */
  function BakeAll<M>(tessellate: Tessellate, world: World<M>, physical: Physical): Result<seq<BakedPart>, BakeError> {
    if physical == [] then Ok([])
    else
      var last := |physical| - 1;
      match BakeAll(tessellate, world, physical[..last])
      case Err(e) => Err(e)
      case Ok(parts) =>
        match BakeOne(tessellate, world, last, physical[last].0, physical[last].1)
        case Err(e) => Err(e)
        case Ok(p) => Ok(parts + [p])
  }

  datatype Totals = Totals(faces: nat, verts: nat, polys: nat)

  function TotalsOf(parts: seq<BakedPart>): Totals {
    if parts == [] then Totals(0, 0, 0) else Added(TotalsOf(parts[..|parts| - 1]), parts[|parts| - 1])
  }

  function Added(t: Totals, p: BakedPart): Totals {
    Totals(t.faces + p.mesh.FaceCount(), t.verts + p.polyVerts, t.polys + p.polyFaces)
  }

  function Assembled<M>(parts: seq<BakedPart>, world: World<M>): BakedModel<M> {
    var t := TotalsOf(parts);
    BakedModel(parts, world, t.polys, t.verts, t.faces)
  }

  /** The model of a contract. */
  function ModelOf<M>(t: Transforms<M>, tessellate: Tessellate, spec: ModelSpec): Result<BakedModel<M>, BakeError> {
    match Worlds(RestRig(t), spec.skeleton)
    case Err(node) => Err(SkeletonCycle(node))
    case Ok(world) =>
      match BakeAll(tessellate, world, PhysicalParts(spec))
      case Err(e) => Err(e)
      case Ok(parts) => Ok(Assembled(parts, world))
  }

  lemma TotalsOfPush(parts: seq<BakedPart>, p: BakedPart)
    ensures TotalsOf(parts + [p]) == Added(TotalsOf(parts), p)
  {
    assert (parts + [p])[..|parts|] == parts;
  }

  lemma BakeAllStep<M>(tessellate: Tessellate, world: World<M>, physical: Physical, i: nat)
    requires i < |physical|
    ensures BakeAll(tessellate, world, physical[..i + 1]) ==
      match BakeAll(tessellate, world, physical[..i])
      case Err(e) => Err(e)
      case Ok(parts) =>
        match BakeOne(tessellate, world, i, physical[i].0, physical[i].1)
        case Err(e) => Err(e)
        case Ok(p) => Ok(parts + [p])
  {
    assert physical[..i + 1][..i] == physical[..i];
  }

  /** An error once met is the error of the whole. */
  lemma {:induction false} ErrorPersists<M>(tessellate: Tessellate, world: World<M>, physical: Physical, i: nat)
    requires i <= |physical| && BakeAll(tessellate, world, physical[..i]).Err?
    ensures BakeAll(tessellate, world, physical) == BakeAll(tessellate, world, physical[..i])
    decreases |physical| - i
  {
    if i == |physical| {
      assert physical[..i] == physical;
    } else {
      BakeAllStep(tessellate, world, physical, i);
      ErrorPersists(tessellate, world, physical, i + 1);
    }
  }

  // ---------------------------------------------------------------- the full bake

  method FullBake<M>(t: Transforms<M>, tessellate: Tessellate, spec: ModelSpec)
    returns (r: Result<BakedModel<M>, BakeError>)
    ensures r == ModelOf(t, tessellate, spec)
  {
    var nodeWorld := NodeWorldTransforms(t, spec.skeleton);
    if nodeWorld.Err? { return Err(SkeletonCycle(nodeWorld.error)); }
    var world := nodeWorld.value;
    var physical := PhysicalPartsWithPaths(spec);
    var parts: seq<BakedPart> := [];
    var totals := Totals(0, 0, 0);
    for i := 0 to |physical|
      invariant BakeAll(tessellate, world, physical[..i]) == Ok(parts) && totals == TotalsOf(parts)
    {
      var (path, part) := physical[i];
      BakeAllStep(tessellate, world, physical, i);
      if part.node !in world {
        ErrorPersists(tessellate, world, physical, i + 1);
        return Err(UnknownNode(i, part.node));
      }
      var built := tessellate(part.geom, part.pose);
      if built.Err? {
        ErrorPersists(tessellate, world, physical, i + 1);
        return Err(AsBakeError(i, built.error));
      }
      var b := BakedFrom(i, path, part, built.value);
      TotalsOfPush(parts, b);
      parts, totals := parts + [b], Added(totals, b);
    }
    assert physical[..|physical|] == physical;
    return Ok(BakedModel(parts, world, totals.polys, totals.verts, totals.faces));
  }

  // ---------------------------------------------------------------- the incremental bake

  /** The previous bake of the part at this position, when its source, geometry and pose are
      unchanged. */
  function Reusable(physical: Physical, previous: Physical, baked: seq<BakedPart>, i: nat): Option<BakedPart>
    requires i < |physical|
  {
    if i < |previous| && previous[i].0 == physical[i].0 && previous[i].1.geom == physical[i].1.geom
      && previous[i].1.pose == physical[i].1.pose
      && i < |baked| && baked[i].sourcePath == physical[i].0
    then Some(baked[i]) else None
  }

  lemma {:induction false} BakedParts<M>(tessellate: Tessellate, world: World<M>, physical: Physical,
                                         parts: seq<BakedPart>, i: nat)
    requires BakeAll(tessellate, world, physical) == Ok(parts)
    ensures |parts| == |physical|
    ensures i < |physical| ==> BakeOne(tessellate, world, i, physical[i].0, physical[i].1) == Ok(parts[i])
    decreases |physical|
  {
    if physical != [] {
      var last := |physical| - 1;
      var prior := BakeAll(tessellate, world, physical[..last]).value;
      assert parts[..last] == prior by { BakedParts(tessellate, world, physical[..last], prior, 0); }
      BakedParts(tessellate, world, physical[..last], prior, i);
    }
  }

  /** Reusing the buffers of an unchanged part gives what tessellating it again would. */
  lemma ReuseIsExact<M>(tessellate: Tessellate, world: World<M>, physical: Physical, previous: Physical,
                        baked: seq<BakedPart>, i: nat)
    requires i < |physical| && BakeAll(tessellate, world, previous) == Ok(baked)
    ensures var r := Reusable(physical, previous, baked, i);
      r.Some? ==>
        tessellate(physical[i].1.geom, physical[i].1.pose)
        == Ok(Built(r.value.mesh, r.value.polyVerts, r.value.polyFaces))
  {
    BakedParts(tessellate, world, previous, baked, i);
  }

  /** The incremental bake gives the same model, or the same error, as a full bake, whenever
      `prev` is the full bake of `prevSpec`. */
  method BakeIncremental<M>(t: Transforms<M>, tessellate: Tessellate, spec: ModelSpec, prevSpec: ModelSpec,
                            prev: BakedModel<M>) returns (r: Result<BakedModel<M>, BakeError>)
    ensures ModelOf(t, tessellate, prevSpec) == Ok(prev) ==> r == ModelOf(t, tessellate, spec)
  {
    var nodeWorld := NodeWorldTransforms(t, spec.skeleton);
    if nodeWorld.Err? { return Err(SkeletonCycle(nodeWorld.error)); }
    var world := nodeWorld.value;
    var physical := PhysicalPartsWithPaths(spec);
    var previous := PhysicalPartsWithPaths(prevSpec);
    ghost var cached := ModelOf(t, tessellate, prevSpec) == Ok(prev);
    var parts: seq<BakedPart> := [];
    var totals := Totals(0, 0, 0);
    for i := 0 to |physical|
      invariant cached ==> BakeAll(tessellate, world, physical[..i]) == Ok(parts)
      invariant totals == TotalsOf(parts)
    {
      var (path, part) := physical[i];
      BakeAllStep(tessellate, world, physical, i);
      if part.node !in world {
        if cached { ErrorPersists(tessellate, world, physical, i + 1); }
        return Err(UnknownNode(i, part.node));
      }
      if cached {
        ReuseIsExact(tessellate, Worlds(RestRig(t), prevSpec.skeleton).value, physical, previous, prev.parts, i);
      }
      var reusable := Reusable(physical, previous, prev.parts, i);
      var built: Result<Built, BuildError>;
      match reusable {
        case Some(p) => built := Ok(Built(p.mesh, p.polyVerts, p.polyFaces));
        case None => built := tessellate(part.geom, part.pose);
      }
      if built.Err? {
        if cached { ErrorPersists(tessellate, world, physical, i + 1); }
        return Err(AsBakeError(i, built.error));
      }
      var b := BakedFrom(i, path, part, built.value);
      TotalsOfPush(parts, b);
      parts, totals := parts + [b], Added(totals, b);
    }
    assert physical[..|physical|] == physical;
    return Ok(BakedModel(parts, world, totals.polys, totals.verts, totals.faces));
  }

  // ---------------------------------------------------------------- chains of edits

  /** The last contract of a history that bakes at all. */
  function LastGood<M, E>(bake: ModelSpec -> Result<M, E>, first: ModelSpec, edits: seq<ModelSpec>): ModelSpec {
    if edits == [] then first
    else
      var last := edits[|edits| - 1];
      if bake(last).Ok? then last else LastGood(bake, first, edits[..|edits| - 1])
  }

  lemma LastGoodStep<M, E>(bake: ModelSpec -> Result<M, E>, first: ModelSpec, edits: seq<ModelSpec>, i: nat)
    requires i < |edits|
    ensures LastGood(bake, first, edits[..i + 1])
      == if bake(edits[i]).Ok? then edits[i] else LastGood(bake, first, edits[..i])
  {
    assert edits[..i + 1][..i] == edits[..i];
  }

  method Edit<M>(t: Transforms<M>, tessellate: Tessellate, ghost bake: ModelSpec -> Result<BakedModel<M>, BakeError>,
                 edit: ModelSpec, spec: ModelSpec, model: BakedModel<M>) returns (r: Result<BakedModel<M>, BakeError>)
    requires (forall s :: bake(s) == ModelOf(t, tessellate, s)) && bake(spec) == Ok(model)
    ensures r == bake(edit)
  {
    r := BakeIncremental(t, tessellate, edit, spec, model);
  }

  /** The answers a full bake would give to the edits. */
  function Answers<M, E>(bake: ModelSpec -> Result<M, E>, edits: seq<ModelSpec>): (r: seq<Result<M, E>>)
    ensures |r| == |edits| && forall i :: 0 <= i < |edits| ==> r[i] == bake(edits[i])
  {
    if edits == [] then [] else Answers(bake, edits[..|edits| - 1]) + [bake(edits[|edits| - 1])]
  }

  lemma AnswersStep<M, E>(bake: ModelSpec -> Result<M, E>, edits: seq<ModelSpec>, i: nat)
    requires i < |edits|
    ensures Answers(bake, edits[..i + 1]) == Answers(bake, edits[..i]) + [bake(edits[i])]
  {
    assert edits[..i + 1][..i] == edits[..i];
  }

  /** A session of edits, each baked from the last good model: after any number of them, some
      rejected, the model held is the full bake of the last good contract, and every edit was
      answered as a full bake would answer it. */
  method EditSession<M>(t: Transforms<M>, tessellate: Tessellate,
                        ghost bake: ModelSpec -> Result<BakedModel<M>, BakeError>,
                        first: ModelSpec, start: BakedModel<M>, edits: seq<ModelSpec>)
    returns (spec: ModelSpec, model: BakedModel<M>, results: seq<Result<BakedModel<M>, BakeError>>)
    requires (forall s :: bake(s) == ModelOf(t, tessellate, s)) && bake(first) == Ok(start)
    ensures spec == LastGood(bake, first, edits) && bake(spec) == Ok(model) && results == Answers(bake, edits)
  {
    spec, model, results := first, start, [];
    for i := 0 to |edits|
      invariant spec == LastGood(bake, first, edits[..i]) && bake(spec) == Ok(model)
      invariant results == Answers(bake, edits[..i])
    {
      LastGoodStep(bake, first, edits, i);
      AnswersStep(bake, edits, i);
      var r := Edit(t, tessellate, bake, edits[i], spec, model);
      if r.Ok? { spec, model := edits[i], r.value; }
      results := results + [r];
    }
    assert edits[..|edits|] == edits;
  }
}
