/** What a bake consists of: which parts in which order, from what, with which totals and errors. */
module BakeLaws {
  import opened Common
  import opened Skeleton
  import opened Contract
  import opened Bake

  // ---------------------------------------------------------------- the physical parts

  /** The part a path names: a base part, or an inline part of the variant its slot has equipped. */
  ghost predicate Names(spec: ModelSpec, path: SourcePath, part: Part) {
    match path
    case BasePath(i) => i < |spec.parts| && part == spec.parts[i]
    case VariantPath(s, k, i) => s < |spec.slots| && NamesIn(spec.slots[s], k, i, part)
  }

  ghost predicate NamesIn(slot: Slot, k: nat, i: nat, part: Part) {
    && Equipped(slot) == Some(k) && slot.variants[k].parts.Some?
    && i < |slot.variants[k].parts.value| && part == slot.variants[k].parts.value[i]
  }

  lemma {:induction false} SlotsPartsIff(slots: seq<Slot>, path: SourcePath, part: Part)
    ensures (path, part) in SlotsParts(slots) <==>
      path.VariantPath? && path.slot < |slots| && NamesIn(slots[path.slot], path.variant, path.part, part)
    decreases |slots|
  {
    if slots != [] {
      var init, last := slots[..|slots| - 1], |slots| - 1;
      SlotsPartsIff(init, path, part);
      SlotPartsIff(slots[last], last, path, part);
    }
  }

  lemma SlotPartsIff(slot: Slot, index: nat, path: SourcePath, part: Part)
    ensures (path, part) in SlotParts(slot, index) <==>
      path.VariantPath? && path.slot == index && NamesIn(slot, path.variant, path.part, part)
  {
    if path.VariantPath? && path.slot == index && NamesIn(slot, path.variant, path.part, part) {
      assert SlotParts(slot, index)[path.part] == (path, part);
    }
  }

  lemma BasePartsIff(parts: seq<Part>, path: SourcePath, part: Part)
    ensures (path, part) in BaseParts(parts) <==> path.BasePath? && path.part < |parts| && part == parts[path.part]
  {
    if path.BasePath? && path.part < |parts| && part == parts[path.part] {
      assert BaseParts(parts)[path.part] == (path, part);
    }
  }

  /** The physical parts are exactly the named ones. */
  lemma PhysicalIff(spec: ModelSpec, path: SourcePath, part: Part)
    ensures (path, part) in PhysicalParts(spec) <==> Names(spec, path, part)
  {
    BasePartsIff(spec.parts, path, part);
    SlotsPartsIff(spec.slots, path, part);
  }

  /** Base parts by position, then inline parts by slot and position. */
  predicate Precedes(p: SourcePath, q: SourcePath) {
    match (p, q)
    case (BasePath(i), BasePath(j)) => i < j
    case (BasePath(_), VariantPath(_, _, _)) => true
    case (VariantPath(_, _, _), BasePath(_)) => false
    case (VariantPath(s, _, i), VariantPath(t, _, j)) => s < t || (s == t && i < j)
  }

  lemma {:induction false} SlotsPartsOrdered(slots: seq<Slot>, i: nat, j: nat)
    requires i < j < |SlotsParts(slots)|
    ensures Precedes(SlotsParts(slots)[i].0, SlotsParts(slots)[j].0)
    decreases |slots|
  {
    var init := SlotsParts(slots[..|slots| - 1]);
    if j < |init| {
      SlotsPartsOrdered(slots[..|slots| - 1], i, j);
    } else if i < |init| {
      SlotPathsAreBelow(slots[..|slots| - 1], i);
    }
  }

  /** They come in that order. */
  lemma PhysicalOrdered(spec: ModelSpec, i: nat, j: nat)
    requires i < j < |PhysicalParts(spec)|
    ensures Precedes(PhysicalParts(spec)[i].0, PhysicalParts(spec)[j].0)
  {
    var base := |spec.parts|;
    if i >= base {
      SlotsPartsOrdered(spec.slots, i - base, j - base);
    } else if j >= base {
      SlotPathsAreBelow(spec.slots, j - base);
    }
  }

  // ---------------------------------------------------------------- a successful bake

  /** One baked part: its path, its position, the part itself, and what tessellating it gave. */
  ghost predicate BakedAs(tessellate: Tessellate, path: SourcePath, part: Part, i: nat, b: BakedPart) {
    && b.sourcePath == path && b.partIndex == i && b.part == part
    && tessellate(part.geom, part.pose).Ok?
    && b.mesh == tessellate(part.geom, part.pose).value.mesh
    && b.polyVerts == tessellate(part.geom, part.pose).value.verts
    && b.polyFaces == tessellate(part.geom, part.pose).value.polys
  }

  function SumOf(parts: seq<BakedPart>, f: BakedPart -> nat): nat {
    if parts == [] then 0 else SumOf(parts[..|parts| - 1], f) + f(parts[|parts| - 1])
  }

  lemma {:induction false} TotalsAreSums(parts: seq<BakedPart>)
    ensures TotalsOf(parts).verts == SumOf(parts, (b: BakedPart) => b.polyVerts)
    ensures TotalsOf(parts).polys == SumOf(parts, (b: BakedPart) => b.polyFaces)
    ensures TotalsOf(parts).faces == SumOf(parts, (b: BakedPart) => |b.mesh.indices| / 3)
    decreases |parts|
  {
    if parts != [] { TotalsAreSums(parts[..|parts| - 1]); }
  }

  /** The model of a contract that bakes: the skeleton's transforms, every physical part baked in
      its place, and as totals the polygons, vertices and triangles of all of them. */
  lemma ModelIs<M>(t: Transforms<M>, tessellate: Tessellate, spec: ModelSpec, model: BakedModel<M>)
    requires ModelOf(t, tessellate, spec) == Ok(model)
    ensures Worlds(RestRig(t), spec.skeleton) == Ok(model.nodeWorld)
    ensures |model.parts| == |PhysicalParts(spec)|
    ensures forall i :: 0 <= i < |model.parts| ==>
      && PhysicalParts(spec)[i].1.node in model.nodeWorld
      && BakedAs(tessellate, PhysicalParts(spec)[i].0, PhysicalParts(spec)[i].1, i, model.parts[i])
    ensures model.totalPolygons == SumOf(model.parts, (b: BakedPart) => b.polyFaces)
    ensures model.totalVertices == SumOf(model.parts, (b: BakedPart) => b.polyVerts)
    ensures model.totalFaces == SumOf(model.parts, (b: BakedPart) => |b.mesh.indices| / 3)
  {
    var physical := PhysicalParts(spec);
    TotalsAreSums(model.parts);
    BakedParts(tessellate, model.nodeWorld, physical, model.parts, 0);
    forall i | 0 <= i < |model.parts|
      ensures physical[i].1.node in model.nodeWorld
      ensures BakedAs(tessellate, physical[i].0, physical[i].1, i, model.parts[i])
    {
      BakedParts(tessellate, model.nodeWorld, physical, model.parts, i);
    }
  }

  // ---------------------------------------------------------------- a failed bake

  /** A part that can be baked: its node is known and its geometry tessellates. */
  predicate Bakeable<M>(tessellate: Tessellate, world: World<M>, part: Part) {
    part.node in world && tessellate(part.geom, part.pose).Ok?
  }

  /** The error of a part that cannot: an unknown node comes before anything about its geometry. */
  predicate ErrorOf<M>(tessellate: Tessellate, world: World<M>, i: nat, part: Part, e: BakeError) {
    if part.node !in world then e == UnknownNode(i, part.node)
    else
      match tessellate(part.geom, part.pose)
      case Ok(_) => false
      case Err(MeshRef(assetRef)) => e == MeshRefUnsupported(i, assetRef)
      case Err(Degenerate(message)) => e == BadGeom(i, message)
  }

  lemma {:induction false} BakeAllFails<M>(tessellate: Tessellate, world: World<M>, physical: Physical)
    ensures BakeAll(tessellate, world, physical).Ok? <==>
      forall i :: 0 <= i < |physical| ==> Bakeable(tessellate, world, physical[i].1)
    ensures BakeAll(tessellate, world, physical).Err? ==>
      exists i ::
        0 <= i < |physical| && FirstFailure(tessellate, world, physical, i, BakeAll(tessellate, world, physical).error)
    decreases |physical|
  {
    if physical != [] {
      var init, last := physical[..|physical| - 1], |physical| - 1;
      BakeAllFails(tessellate, world, init);
      if BakeAll(tessellate, world, init).Err? {
        var i :| 0 <= i < |init| && FirstFailure(tessellate, world, init, i, BakeAll(tessellate, world, init).error);
        assert FirstFailure(tessellate, world, physical, i, BakeAll(tessellate, world, physical).error);
      } else if BakeAll(tessellate, world, physical).Err? {
        assert FirstFailure(tessellate, world, physical, last, BakeAll(tessellate, world, physical).error);
      }
    }
  }

  /** The first part that cannot be baked, and its error. */
  ghost predicate FirstFailure<M>(tessellate: Tessellate, world: World<M>, physical: Physical, i: nat, e: BakeError)
    requires i < |physical|
  {
    && ErrorOf(tessellate, world, i, physical[i].1, e)
    && forall j :: 0 <= j < i ==> Bakeable(tessellate, world, physical[j].1)
  }

  /** A bake fails with the skeleton's stuck node, or with the error of the first part that cannot
      be baked. */
  lemma ModelFails<M>(t: Transforms<M>, tessellate: Tessellate, spec: ModelSpec)
    ensures Worlds(RestRig(t), spec.skeleton).Err? ==>
      ModelOf(t, tessellate, spec) == Err(SkeletonCycle(Worlds(RestRig(t), spec.skeleton).error))
    ensures Worlds(RestRig(t), spec.skeleton).Ok? ==>
      var world, physical := Worlds(RestRig(t), spec.skeleton).value, PhysicalParts(spec);
      && (ModelOf(t, tessellate, spec).Ok? <==>
            forall i :: 0 <= i < |physical| ==> Bakeable(tessellate, world, physical[i].1))
      && (ModelOf(t, tessellate, spec).Err? ==>
            exists i ::
              0 <= i < |physical| && FirstFailure(tessellate, world, physical, i, ModelOf(t, tessellate, spec).error))
  {
    if Worlds(RestRig(t), spec.skeleton).Ok? {
      BakeAllFails(tessellate, Worlds(RestRig(t), spec.skeleton).value, PhysicalParts(spec));
    }
  }

  // ---------------------------------------------------------------- reuse

  /** Against a correct previous bake, the parts reused are exactly those whose position held the
      same source, geometry and pose before; material, colour and node may change. */
  lemma ReusedIff<M>(tessellate: Tessellate, world: World<M>, physical: Physical, previous: Physical,
                     baked: seq<BakedPart>, i: nat)
    requires i < |physical| && BakeAll(tessellate, world, previous) == Ok(baked)
    ensures Reusable(physical, previous, baked, i).Some? <==>
      && i < |previous| && previous[i].0 == physical[i].0
      && previous[i].1.geom == physical[i].1.geom && previous[i].1.pose == physical[i].1.pose
  {
    BakedParts(tessellate, world, previous, baked, i);
  }
}
