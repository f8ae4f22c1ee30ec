/** The parts of a model contract that baking and pinning read. */
module Contract {
  import opened Common
  import opened TriangleTest
  import opened Skeleton

  datatype Geom = Geom(kind: string, params: seq<real>)

  datatype Pose = Pose(pos: Vec, rot: Vec)

  datatype Part = Part(node: string, geom: Geom, pose: Option<Pose>, material: string, color: string,
    collision: string, explode: Option<Vec>)

  datatype Variant = Variant(id: string, componentRef: Option<string>, parts: Option<seq<Part>>)

  datatype Slot = Slot(id: string, equippedVariantId: Option<string>, variants: seq<Variant>)

  datatype ModelSpec = ModelSpec(skeleton: seq<Node>, parts: seq<Part>, slots: seq<Slot>,
    motors: seq<Option<string>>, lockfile: map<string, string>)

  /** The position of the first variant with an id, or the number of variants. */
  function FindVariant(variants: seq<Variant>, id: string): (k: nat)
    ensures
      k <= |variants| && (k < |variants| ==> variants[k].id == id) && forall j :: 0 <= j < k ==> variants[j].id != id
  {
    if variants == [] || variants[0].id == id then 0 else 1 + FindVariant(variants[1..], id)
  }

  /** The explicitly equipped alternative of a slot, the first when several carry the id; never
      a default: there is none exactly when no id is set or no variant carries it. */
  function Equipped(slot: Slot): (r: Option<nat>)
    ensures r.Some? ==>
        && slot.equippedVariantId.Some? && r.value < |slot.variants|
        && slot.variants[r.value].id == slot.equippedVariantId.value
    ensures r.Some? ==> forall i :: 0 <= i < r.value ==> slot.variants[i].id != slot.equippedVariantId.value
    ensures r.None? <==>
        || slot.equippedVariantId.None?
        || forall i :: 0 <= i < |slot.variants| ==> slot.variants[i].id != slot.equippedVariantId.value
  {
    match slot.equippedVariantId
    case None => None
    case Some(id) => var k := FindVariant(slot.variants, id); if k < |slot.variants| then Some(k) else None
  }

  /** Where a physical part comes from, as a JSON Pointer into the contract. */
  datatype SourcePath = BasePath(part: nat) | VariantPath(slot: nat, variant: nat, part: nat)

  type Physical = seq<(SourcePath, Part)>

  function BaseParts(parts: seq<Part>): Physical {
    seq(|parts|, i requires 0 <= i < |parts| => (BasePath(i), parts[i]))
  }

  /** The inline parts of a slot's equipped variant. */
  function SlotParts(slot: Slot, index: nat): Physical {
    match Equipped(slot)
    case None => []
    case Some(k) =>
      match slot.variants[k].parts
      case None => []
      case Some(parts) => seq(|parts|, i requires 0 <= i < |parts| => (VariantPath(index, k, i), parts[i]))
  }

  function SlotsParts(slots: seq<Slot>): Physical {
    if slots == [] then [] else SlotsParts(slots[..|slots| - 1]) + SlotParts(slots[|slots| - 1], |slots| - 1)
  }

  function PhysicalParts(spec: ModelSpec): Physical { BaseParts(spec.parts) + SlotsParts(spec.slots) }

  /** Base parts first, then the inline parts of each equipped alternative. */
  method PhysicalPartsWithPaths(spec: ModelSpec) returns (physical: Physical)
    ensures physical == PhysicalParts(spec)
  {
    physical := BaseParts(spec.parts);
    ghost var base := physical;
    for s := 0 to |spec.slots|
      invariant physical == base + SlotsParts(spec.slots[..s])
    {
      ghost var before := physical;
      var more := EquippedParts(spec.slots[s], s);
      physical := physical + more;
      OneMoreSlot(spec.slots, s, base, before, more);
    }
    assert spec.slots[..|spec.slots|] == spec.slots;
  }

  lemma OneMoreSlot(slots: seq<Slot>, s: nat, base: Physical, before: Physical, more: Physical)
    requires s < |slots| && before == base + SlotsParts(slots[..s]) && more == SlotParts(slots[s], s)
    ensures before + more == base + SlotsParts(slots[..s + 1])
  {
    assert slots[..s + 1][..s] == slots[..s];
  }

  method EquippedParts(slot: Slot, index: nat) returns (physical: Physical)
    ensures physical == SlotParts(slot, index)
  {
    physical := [];
    if slot.equippedVariantId.Some? {
      var k := FindVariant(slot.variants, slot.equippedVariantId.value);
      if k < |slot.variants| && slot.variants[k].parts.Some? {
        var parts := slot.variants[k].parts.value;
        physical := seq(|parts|, i requires 0 <= i < |parts| => (VariantPath(index, k, i), parts[i]));
      }
    }
  }

  lemma {:induction false} SlotPathsAreFresh(slots: seq<Slot>, i: nat, j: nat)
    requires i < j < |SlotsParts(slots)|
    ensures
      && SlotsParts(slots)[i].0 != SlotsParts(slots)[j].0 && SlotsParts(slots)[j].0.VariantPath?
      && SlotsParts(slots)[j].0.slot < |slots|
    decreases |slots|
  {
    var init, last := SlotsParts(slots[..|slots| - 1]), SlotParts(slots[|slots| - 1], |slots| - 1);
    if j < |init| {
      SlotPathsAreFresh(slots[..|slots| - 1], i, j);
    } else if i < |init| {
      SlotPathsAreBelow(slots[..|slots| - 1], i);
    }
  }

  lemma {:induction false} SlotPathsAreBelow(slots: seq<Slot>, i: nat)
    requires i < |SlotsParts(slots)|
    ensures SlotsParts(slots)[i].0.VariantPath? && SlotsParts(slots)[i].0.slot < |slots|
    decreases |slots|
  {
    var init := SlotsParts(slots[..|slots| - 1]);
    if i < |init| { SlotPathsAreBelow(slots[..|slots| - 1], i); }
  }

  /** Every physical part has its own source path. */
  lemma PathsAreUnique(spec: ModelSpec, i: nat, j: nat)
    requires i < j < |PhysicalParts(spec)|
    ensures PhysicalParts(spec)[i].0 != PhysicalParts(spec)[j].0
  {
    var base := |spec.parts|;
    if i >= base {
      SlotPathsAreFresh(spec.slots, i - base, j - base);
    } else if j >= base {
      SlotPathsAreBelow(spec.slots, j - base);
    }
  }
}
