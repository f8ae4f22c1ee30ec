/** What the migration does to single fields, kinds, slots and markers. */
module MigrationLaws {
  import opened Common
  import opened Json
  import opened Migration
  import opened MigrationDocument
  import opened MigrationReport

  // ---------------------------------------------------------------- kinds

  /** The two renamed kinds; every other kind, and every kind that is not text, stays. */
  lemma KindsAre(m: Members)
    ensures "kind" in m && m["kind"] == Str("parametric_generator") ==>
      FixKind(m) == m["kind" := Str("parametric-generator")]
    ensures "kind" in m && m["kind"] == Str("llm_generation") ==> FixKind(m) == m["kind" := Str("llm-generation")]
    ensures "kind" !in m || (m["kind"] != Str("parametric_generator") && m["kind"] != Str("llm_generation")) ==>
      FixKind(m) == m
  {
    KindsDiffer();
  }

  lemma KindsDiffer()
    ensures "parametric_generator" != "parametric-generator" && "llm_generation" != "llm-generation"
  {
    assert "parametric_generator"[10] != "parametric-generator"[10];
    assert "llm_generation"[3] != "llm-generation"[3];
  }

  // ---------------------------------------------------------------- references

  /** In the shipped tables a mounted component's reference ends up under "ref", in either legacy
      spelling, and any other object's under "componentRef"; a name already in use keeps its own. */
  lemma ShippedReference(m: Members, from: string)
    requires from in m && (from == "component_ref" || (from == "componentRef" && "mount" in m))
    requires "mount" in m && from == "componentRef" ==> "component_ref" !in m
    ensures var to := if "mount" in m then "ref" else "componentRef"; var r := Renamed(Shipped(), m);
      to in r && from !in r && r[to] == if to in m then m[to] else m[from]
  {
    ShippedIsMarked();
    TableApart(Shipped(), m);
    RefNamesDiffer();
    var to := if "mount" in m then "ref" else "componentRef";
    AliasTakes(m, TableOf(Shipped(), m), if from == "componentRef" then 1 else 0, from, to);
  }

  /** An alias that no earlier one forestalls: its new name is there, with its own value or else
      the old one's, and its old name is gone. */
  lemma AliasTakes(m: Members, table: Table, i: nat, from: string, to: string)
    requires Apart(table) && i < |table| && table[i] == (from, to) && from in m
    requires forall j :: 0 <= j < i ==> table[j].0 != from && table[j].0 !in m
    ensures var r := Renames(m, table); to in r && from !in r && r[to] == if to in m then m[to] else m[from]
  {
    if to in m {
      RestNotOld(table, i);
      RenamesKeep(m, table, to);
    } else {
      RenamesMove(m, table, i);
    }
    RenamesClear(m, table, from);
  }

  lemma RefNamesDiffer()
    ensures "component_ref" != "componentRef"
  {
    assert "component_ref"[9] != "componentRef"[9];
  }

  lemma RestNotOld(table: Table, i: nat)
    requires Apart(table) && i < |table|
    ensures !IsOld(table, table[i].1)
  {
  }

  // ---------------------------------------------------------------- what is recorded

  lemma LabelMembers(sc: Schema, m: Members)
    ensures ComponentRefAliases in OwnLabels(sc, m) <==> Touches(m, RefTable(sc, m))
    ensures FieldAliases in OwnLabels(sc, m) <==> Touches(Renames(m, RefTable(sc, m)), sc.fields)
    ensures ProvenanceKinds in OwnLabels(sc, m) <==> OldKind(Renames(Renames(m, RefTable(sc, m)), sc.fields))
    ensures EquippedSingles !in OwnLabels(sc, m) && VersionMarker !in OwnLabels(sc, m)
  {
  }

  /** Some old name of the table is in use. */
  ghost predicate HasOld(table: Table, m: Members) { exists i :: 0 <= i < |table| && table[i].0 in m }

  lemma TouchesOld(table: Table, m: Members)
    requires Apart(table)
    ensures Touches(m, table) <==> HasOld(table, m)
  {
    TouchesIff(m, table);
  }

  /** Each label stands for its own kind of legacy: a reference name, a field name, a kind. */
  lemma OwnLabelsAre(sc: Schema, m: Members)
    requires Good(sc)
    ensures ComponentRefAliases in OwnLabels(sc, m) <==> HasOld(RefTable(sc, m), m)
    ensures FieldAliases in OwnLabels(sc, m) <==> HasOld(sc.fields, Renames(m, RefTable(sc, m)))
    ensures ProvenanceKinds in OwnLabels(sc, m) <==> OldKind(m)
    ensures EquippedSingles !in OwnLabels(sc, m) && VersionMarker !in OwnLabels(sc, m)
  {
    LabelMembers(sc, m);
    TablesApart(sc, m);
    TouchesOld(RefTable(sc, m), m);
    TouchesOld(sc.fields, Renames(m, RefTable(sc, m)));
    RenamesInTwo(m, RefTable(sc, m), sc.fields);
    KindStays(sc, m);
  }

  lemma TablesApart(sc: Schema, m: Members)
    requires Good(sc)
    ensures Apart(RefTable(sc, m)) && Apart(sc.fields)
  {
    TableApart(sc, m);
    PartsApart(RefTable(sc, m), sc.fields);
  }

  lemma PartsApart(a: Table, b: Table)
    requires Apart(a + b)
    ensures Apart(a) && Apart(b)
  {
    forall i, j | 0 <= i < |a| && 0 <= j < |a| ensures a[i].1 != a[j].0 {
      assert (a + b)[i] == a[i] && (a + b)[j] == a[j];
    }
    forall i, j | 0 <= i < |b| && 0 <= j < |b| ensures b[i].1 != b[j].0 {
      assert (a + b)[|a| + i] == b[i] && (a + b)[|a| + j] == b[j];
    }
  }

  lemma KindStays(sc: Schema, m: Members)
    requires Good(sc)
    ensures OldKind(Renamed(sc, m)) <==> OldKind(m)
  {
    TableApart(sc, m);
    ReservedStays(sc, m, "kind");
    if "kind" in m {
      NotOld(sc, m, "kind");
      RenamesKeep(m, TableOf(sc, m), "kind");
    }
  }

  // ---------------------------------------------------------------- slots

  /** A slot that names its choice keeps it; one without a choice and with a single variant that
      has a textual id takes that id; every other slot stays as it is. */
  lemma SlotIs(slot: Json)
    ensures !slot.Obj? || "equippedVariantId" in slot.members ==> EquipSlot(slot) == slot
    ensures slot.Obj? && "equippedVariantId" !in slot.members ==>
      var vs :=
        if "variants" in slot.members && slot.members["variants"].Arr? then slot.members["variants"].items else [];
      EquipSlot(slot) ==
        if |vs| == 1 && vs[0].Obj? && "id" in vs[0].members && vs[0].members["id"].Str?
        then Obj(slot.members["equippedVariantId" := vs[0].members["id"]]) else slot
  {
  }

  /** Two or more variants and no choice. */
  predicate Undecided(slot: Json) {
    && slot.Obj? && "equippedVariantId" !in slot.members
    && "variants" in slot.members && slot.members["variants"].Arr? && |slot.members["variants"].items| >= 2
  }

  function NameOf(slot: Json): string {
    if slot.Obj? && "id" in slot.members && slot.members["id"].Str? then slot.members["id"].s else "<unknown>"
  }

  ghost predicate FirstUndecided(slots: seq<Json>, name: string) {
    exists i ::
      && 0 <= i < |slots| && Undecided(slots[i]) && NameOf(slots[i]) == name
      && forall j :: 0 <= j < i ==> !Undecided(slots[j])
  }

  lemma UndecidedIsAmbiguous(slot: Json)
    ensures Ambiguous(slot) <==> Undecided(slot)
    ensures Undecided(slot) ==> SlotId(slot.members) == NameOf(slot)
  {
  }

  lemma FirstUndecidedIff(slots: seq<Json>, name: string)
    ensures EquipSlots(slots) == Err(name) <==> FirstUndecided(slots, name)
  {
    AmbiguousIsRejected(slots);
    forall i | 0 <= i < |slots|
      ensures Ambiguous(slots[i]) <==> Undecided(slots[i])
      ensures Undecided(slots[i]) ==> SlotId(slots[i].members) == NameOf(slots[i])
    {
      UndecidedIsAmbiguous(slots[i]);
    }
    if EquipSlots(slots).Err? {
      var e := EquipSlots(slots).error;
      var k :| 0 <= k < |slots| && Ambiguous(slots[k]) && SlotId(slots[k].members) == e
        && forall j :: 0 <= j < k ==> !Ambiguous(slots[j]);
      assert Undecided(slots[k]) && NameOf(slots[k]) == e;
    }
  }

  /** Equipping fails exactly when the document's slots include one with several variants and no
      choice, and it names the first such slot. */
  lemma EquipFailsIff(v: Json, name: string)
    ensures Equip(v) == Err(name) <==>
      && v.Obj? && "slots" in v.members && v.members["slots"].Arr?
      && FirstUndecided(v.members["slots"].items, name)
  {
    if HasSlots(v) { FirstUndecidedIff(v.members["slots"].items, name); }
  }

  // ---------------------------------------------------------------- markers

  /** The first spelling present, in the order of the spellings. */
  ghost predicate FirstPresent(m: Members, names: seq<string>, i: nat) {
    i < |names| && names[i] in m && forall j :: 0 <= j < i ==> names[j] !in m
  }

  lemma {:induction false} DropsFirstPresent(m: Members, names: seq<string>, i: nat)
    requires FirstPresent(m, names, i)
    ensures DropFirst(m, names) == m - {names[i]} && FirstOf(m, names) == Some(m[names[i]])
    decreases |names|
  {
    if i > 0 {
      assert names[1..][i - 1] == names[i];
      DropsFirstPresent(m, names[1..], i - 1);
    }
  }

  /** The marker of the root comes before that of the meta object; either is the value under the
      first spelling present, "schemaVersion" before "schema_version" before "$schemaVersion". */
  lemma MarkerIs(v: Json)
    ensures v.Obj? && "schemaVersion" in v.members ==> MarkerOf(v) == Some(v.members["schemaVersion"])
    ensures v.Obj? && "schemaVersion" !in v.members && "schema_version" in v.members ==>
      MarkerOf(v) == Some(v.members["schema_version"])
    ensures
      && v.Obj? && "schemaVersion" !in v.members && "schema_version" !in v.members
      && "$schemaVersion" in v.members ==>
      MarkerOf(v) == Some(v.members["$schemaVersion"])
    ensures NoMarker(RootOf(v)) ==> MarkerOf(v) == FirstOf(MetaOf(v), Spellings)
  {
    FirstOfNone(RootOf(v), Spellings);
    if v.Obj? {
      if "schemaVersion" in v.members {
        DropsFirstPresent(v.members, Spellings, 0);
      } else if "schema_version" in v.members {
        DropsFirstPresent(v.members, Spellings, 1);
      } else if "$schemaVersion" in v.members {
        DropsFirstPresent(v.members, Spellings, 2);
      }
    }
  }

  // ---------------------------------------------------------------- the report

  lemma {:induction false} NeverBelow(sc: Schema, v: Json)
    ensures EquippedSingles !in Labels(sc, v) && VersionMarker !in Labels(sc, v)
    decreases v
  {
    match v
    case Obj(m) =>
      LabelMembers(sc, m);
      forall k | k in Renamed(sc, m)
        ensures EquippedSingles !in Labels(sc, m[Origin(sc, m, k)]) && VersionMarker !in Labels(sc, m[Origin(sc, m, k)])
      {
        NeverBelow(sc, m[Origin(sc, m, k)]);
      }
    case Arr(a) =>
      forall i | 0 <= i < |a| ensures EquippedSingles !in Labels(sc, a[i]) && VersionMarker !in Labels(sc, a[i]) {
        NeverBelow(sc, a[i]);
      }
    case _ =>
  }

  /** Some slot of the document takes its only variant. */
  ghost predicate SomeSlotTakes(v: Json) {
    && v.Obj? && "slots" in v.members && v.members["slots"].Arr?
    && exists slot :: slot in v.members["slots"].items && EquipSlot(slot) != slot
  }

  lemma EquipChangesIff(v: Json)
    requires Equip(v).Ok?
    ensures Equip(v).value != v <==> SomeSlotTakes(v)
  {
    if HasSlots(v) {
      var slots := v.members["slots"].items;
      AmbiguousIsRejected(slots);
      SlotsPutBack(v, EquipSlots(slots).value);
    }
  }

  /** What a migration reports: the marker's label exactly when the document carried one, the
      slots' label exactly when one of them takes its only variant, and any other exactly when
      renaming recorded it. */
  lemma MigrationRecords(sc: Schema, v: Json, l: Label)
    requires Migrated(sc, v).Ok?
    ensures l in Migrated(sc, v).value.applied <==>
      match l
      case VersionMarker => MarkerOf(v).Some?
      case EquippedSingles => SomeSlotTakes(Normalize(sc, Dropped(v)))
      case _ => l in Labels(sc, Dropped(v))
  {
    NeverBelow(sc, Dropped(v));
    EquipChangesIff(Normalize(sc, Dropped(v)));
  }
}
