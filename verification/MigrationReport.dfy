/** Migrating a document: the version marker is dropped, then the document is rewritten. */
module MigrationReport {
  import opened Common
  import opened Json
  import opened Migration
  import opened MigrationDocument

  // ---------------------------------------------------------------- the version marker

  const Spellings: seq<string> := ["schemaVersion", "schema_version", "$schemaVersion"]

  /** Removes the first spelling that is present, and no other. */
  function DropFirst(m: Members, names: seq<string>): Members {
    if names == [] then m else if names[0] in m then m - {names[0]} else DropFirst(m, names[1..])
  }

  ghost predicate AtMostOne(m: Members, names: seq<string>) {
    forall i, j :: 0 <= i < j < |names| ==> !(names[i] in m && names[j] in m)
  }

  /** The marker is gone exactly when it was not spelled in two ways at once. */
  lemma {:induction false} MarkerGoneIff(m: Members, names: seq<string>)
    requires forall i, j :: 0 <= i < j < |names| ==> names[i] != names[j]
    ensures (forall i :: 0 <= i < |names| ==> names[i] !in DropFirst(m, names)) <==> AtMostOne(m, names)
    decreases |names|
  {
    if names != [] {
      var rest := names[1..];
      assert forall i :: 0 <= i < |rest| ==> rest[i] == names[i + 1];
      if names[0] !in m {
        MarkerGoneIff(m, rest);
        MarkerRest(m, names);
      } else {
        MarkerTaken(m, names);
      }
    }
  }

  lemma MarkerRest(m: Members, names: seq<string>)
    requires names != [] && names[0] !in m
    ensures AtMostOne(m, names) <==> AtMostOne(m, names[1..])
    ensures names[0] !in DropFirst(m, names)
  {
    var rest := names[1..];
    if AtMostOne(m, rest) {
      forall i, j | 0 <= i < j < |names| ensures !(names[i] in m && names[j] in m) {
        if i > 0 { assert rest[i - 1] == names[i] && rest[j - 1] == names[j]; }
      }
    }
    if AtMostOne(m, names) {
      forall i, j | 0 <= i < j < |rest|
        ensures !(rest[i] in m && rest[j] in m)
      {
        assert rest[i] == names[i + 1] && rest[j] == names[j + 1];
      }
    }
    DropFirstShrinks(m, rest);
  }

  lemma {:induction false} DropFirstShrinks(m: Members, names: seq<string>)
    ensures DropFirst(m, names).Keys <= m.Keys
    decreases |names|
  {
    if names != [] { DropFirstShrinks(m, names[1..]); }
  }

  lemma MarkerTaken(m: Members, names: seq<string>)
    requires names != [] && names[0] in m && forall i, j :: 0 <= i < j < |names| ==> names[i] != names[j]
    ensures (forall i :: 0 <= i < |names| ==> names[i] !in DropFirst(m, names)) <==> AtMostOne(m, names)
  {
    var d := DropFirst(m, names);
    if AtMostOne(m, names) {
      forall i | 0 <= i < |names| ensures names[i] !in d { if i > 0 { assert !(names[0] in m && names[i] in m); } }
    } else {
      var i, j :| 0 <= i < j < |names| && names[i] in m && names[j] in m;
      assert names[j] != names[0] && names[j] in d;
    }
  }

  lemma SpellingsDiffer()
    ensures forall i, j :: 0 <= i < j < |Spellings| ==> Spellings[i] != Spellings[j]
  {
    assert |"schemaVersion"| == 13 && |"schema_version"| == 14 && |"$schemaVersion"| == 14;
    assert "schema_version"[0] != "$schemaVersion"[0];
  }

  /** For the three shipped spellings: one pass drops the marker of an object exactly when the
      object does not carry two spellings of it. */
  lemma ShippedMarkerGoneIff(m: Members)
    ensures NoMarker(DropFirst(m, Spellings)) <==> AtMostOne(m, Spellings)
  {
    SpellingsDiffer();
    MarkerGoneIff(m, Spellings);
  }

  predicate NoMarker(m: Members) { forall i :: 0 <= i < |Spellings| ==> Spellings[i] !in m }

  /** The value under the first spelling that is present. */
  function FirstOf(m: Members, names: seq<string>): Option<Json> {
    if names == [] then None else if names[0] in m then Some(m[names[0]]) else FirstOf(m, names[1..])
  }

  lemma {:induction false} FirstOfNone(m: Members, names: seq<string>)
    ensures FirstOf(m, names) == None <==> forall i :: 0 <= i < |names| ==> names[i] !in m
    ensures FirstOf(m, names) == None ==> DropFirst(m, names) == m
    decreases |names|
  {
    if names != [] {
      FirstOfNone(m, names[1..]);
      assert forall i :: 1 <= i < |names| ==> names[i] == names[1..][i - 1];
    }
  }

  // ---------------------------------------------------------------- the marker of a document

  const Meta: string := "meta"

  /** The members of the document's meta object, none when it has no such object. */
  function MetaOf(v: Json): Members {
    if v.Obj? && Meta in v.members && v.members[Meta].Obj? then v.members[Meta].members else map[]
  }

  function RootOf(v: Json): Members { if v.Obj? then v.members else map[] }

  /** The marker of the root, else that of the meta object. */
  function MarkerOf(v: Json): Option<Json> {
    var root := FirstOf(RootOf(v), Spellings);
    if root.Some? then root else FirstOf(MetaOf(v), Spellings)
  }

  predicate HasMeta(m: Members) { Meta in m && m[Meta].Obj? }

  /** Drops one spelling from the root and one from its meta object. */
  function Dropped(v: Json): Json {
    if !v.Obj? then v
    else
      var m := DropFirst(v.members, Spellings);
      if HasMeta(m) then Obj(m[Meta := Obj(DropFirst(m[Meta].members, Spellings))]) else Obj(m)
  }

  predicate Unmarked(v: Json) { NoMarker(RootOf(v)) && NoMarker(MetaOf(v)) }

  /** Neither the root nor its meta object carries two spellings. */
  ghost predicate SpelledOnce(v: Json) { AtMostOne(RootOf(v), Spellings) && AtMostOne(MetaOf(v), Spellings) }

  lemma MetaIsNoSpelling()
    ensures forall i :: 0 <= i < |Spellings| ==> Spellings[i] != Meta
  {
  }

  lemma {:induction false} DropFirstKeeps(m: Members, names: seq<string>, k: string)
    requires forall i :: 0 <= i < |names| ==> names[i] != k
    ensures k in DropFirst(m, names) <==> k in m
    ensures k in m ==> DropFirst(m, names)[k] == m[k]
    decreases |names|
  {
    if names != [] { DropFirstKeeps(m, names[1..], k); }
  }

  /** Root and meta object after the drop. */
  lemma DroppedParts(v: Json)
    requires v.Obj?
    ensures MetaOf(Dropped(v)) == DropFirst(MetaOf(v), Spellings)
    ensures NoMarker(RootOf(Dropped(v))) <==> NoMarker(DropFirst(v.members, Spellings))
  {
    MetaIsNoSpelling();
    DropFirstKeeps(v.members, Spellings, Meta);
    FirstOfNone(map[], Spellings);
  }

  /** The drop clears a document exactly when neither object carries two spellings. */
  lemma DroppedIsUnmarkedIff(v: Json)
    ensures Unmarked(Dropped(v)) <==> SpelledOnce(v)
  {
    if v.Obj? {
      DroppedParts(v);
      ShippedMarkerGoneIff(v.members);
      ShippedMarkerGoneIff(MetaOf(v));
    }
  }

  /** An unmarked document has no marker to report and is left as it is. */
  lemma UnmarkedIsFixed(v: Json)
    ensures Unmarked(v) <==> MarkerOf(v) == None
    ensures Unmarked(v) ==> Dropped(v) == v
  {
    FirstOfNone(RootOf(v), Spellings);
    FirstOfNone(MetaOf(v), Spellings);
    if v.Obj? && Unmarked(v) && HasMeta(v.members) {
      assert v.members[Meta := v.members[Meta]] == v.members;
    }
  }

  // ---------------------------------------------------------------- the whole migration

  datatype Report = Report(marker: Option<Json>, applied: set<Label>, doc: Json)

  ghost function Migrated(sc: Schema, v: Json): Result<Report, string> {
    match Rewritten(sc, Dropped(v))
    case Err(e) => Err(e)
    case Ok((w, applied)) => Ok(Report(MarkerOf(v), When(MarkerOf(v).Some?, VersionMarker) + applied, w))
  }

  method Migrate(sc: Schema, v: Json) returns (r: Result<Report, string>)
    ensures r == Migrated(sc, v)
  {
    var marker := MarkerOf(v);
    var rewritten := Rewrite(sc, Dropped(v));
    match rewritten
    case Err(e) => r := Err(e);
    case Ok((w, applied)) => r := Ok(Report(marker, When(marker.Some?, VersionMarker) + applied, w));
  }

  /** The tables leave the marker and the meta object alone. */
  ghost predicate Marked(sc: Schema) {
    Open(sc) && Reserved(sc, Meta) && forall i :: 0 <= i < |Spellings| ==> Reserved(sc, Spellings[i])
  }

  lemma KeyStays(sc: Schema, m: Members, k: string)
    requires Good(sc) && Reserved(sc, k)
    ensures k in RootOf(Normalize(sc, Obj(m))) <==> k in m
  {
    TableApart(sc, m);
    ReservedStays(sc, m, k);
    NormalizeObject(sc, m);
    FixKindIsFixed(Children(sc, m));
  }

  lemma MarkersStay(sc: Schema, m: Members)
    requires Marked(sc)
    ensures NoMarker(RootOf(Normalize(sc, Obj(m)))) <==> NoMarker(m)
  {
    forall i | 0 <= i < |Spellings| ensures Spellings[i] in RootOf(Normalize(sc, Obj(m))) <==> Spellings[i] in m {
      KeyStays(sc, m, Spellings[i]);
    }
  }

  lemma NormalizeKeepsKind(sc: Schema, v: Json)
    ensures Normalize(sc, v).Obj? <==> v.Obj?
  {
    if v.Obj? { NormalizeObject(sc, v.members); }
  }

  lemma MetaStays(sc: Schema, v: Json)
    requires Marked(sc)
    ensures NoMarker(MetaOf(Normalize(sc, v))) <==> NoMarker(MetaOf(v))
  {
    NormalizeKeepsKind(sc, v);
    if v.Obj? {
      KeyStays(sc, v.members, Meta);
      if Meta in v.members {
        NotOld(sc, v.members, Meta);
        FieldSurvives(sc, v.members, Meta);
        NormalizeKeepsKind(sc, v.members[Meta]);
        if v.members[Meta].Obj? { MarkersStay(sc, v.members[Meta].members); }
      }
    }
  }

  lemma EquipKeepsOthers(v: Json, k: string)
    requires Equip(v).Ok? && k != "slots"
    ensures RootOf(Equip(v).value).Keys == RootOf(v).Keys
    ensures k in RootOf(v) ==> RootOf(Equip(v).value)[k] == RootOf(v)[k]
    ensures Equip(v).value.Obj? <==> v.Obj?
  {
  }

  /** Rewriting neither adds nor removes a marker. */
  lemma RewritingKeepsMarkers(sc: Schema, v: Json)
    requires Marked(sc) && Rewritten(sc, v).Ok?
    ensures Unmarked(Rewritten(sc, v).value.0) <==> Unmarked(v)
  {
    var n := Normalize(sc, v);
    NormalizeKeepsKind(sc, v);
    EquipKeepsOthers(n, Meta);
    MetaStays(sc, v);
    if v.Obj? { MarkersStay(sc, v.members); }
  }

  /** A second migration finds no marker, changes nothing and records nothing. */
  ghost predicate SettledByOne(sc: Schema, v: Json)
    requires Migrated(sc, v).Ok?
  {
    var w := Migrated(sc, v).value.doc;
    Migrated(sc, w) == Ok(Report(None, {}, w))
  }

  /** Migrating a migrated document changes nothing and records nothing exactly when neither
      the root nor its meta object carried two spellings of the version marker. */
  lemma SecondMigrationIff(sc: Schema, v: Json)
    requires Marked(sc) && Migrated(sc, v).Ok?
    ensures SettledByOne(sc, v) <==> SpelledOnce(v)
  {
    var w := Migrated(sc, v).value.doc;
    DroppedIsUnmarkedIff(v);
    RewritingKeepsMarkers(sc, Dropped(v));
    UnmarkedIsFixed(w);
    RewritingTwice(sc, Dropped(v));
    if Unmarked(w) {
      assert When(false, VersionMarker) + {} == {};
    } else if Migrated(sc, w).Ok? {
      assert VersionMarker in Migrated(sc, w).value.applied;
    }
  }

  // ---------------------------------------------------------------- the shipped schema

  const Aliases: Table := [
    ("mount_nodes", "mountNodes"),
    ("render_bias", "renderBias"),
    ("max_torque_nm", "maxTorqueNm"),
    ("max_vel_rad", "maxVelRad"),
    ("air_density", "airDensity"),
    ("value_g", "valueG"),
    ("density_kgm3", "densityKgm3"),
    ("prompt_hash", "promptHash"),
    ("model_version", "modelVersion"),
    ("capacityMah", "capacity_mAh"),
    ("capacity_mah", "capacity_mAh"),
    ("rIntMohm", "r_int_mohm"),
    ("rIntMOhm", "r_int_mohm"),
    ("latencyMs", "latency_ms"),
    ("gyro_noise", "gyroNoise"),
    ("accel_noise", "accelNoise"),
    ("aggregate_mass_g", "aggregateMassG"),
    ("c_rating", "cRating"),
    ("max_current_a", "maxCurrentA"),
    ("diameter_in", "diameterIn"),
    ("pitch_in", "pitchIn"),
    ("ct_table", "ctTable")
  ]

  /** A mounted component calls its reference "ref", anything else "componentRef". */
  function Shipped(): Schema {
    Schema([("component_ref", "ref"), ("componentRef", "ref")], [("component_ref", "componentRef")], Aliases)
  }

  lemma AliasesApart(i: nat, j: nat)
    requires i < |Aliases| && j < |Aliases|
    ensures Aliases[i].1 != Aliases[j].0
  {
  }

  lemma AliasesAvoidRefs(i: nat)
    requires i < |Aliases|
    ensures
      && Aliases[i].1 != "component_ref" && Aliases[i].1 != "componentRef" && Aliases[i].0 != "ref"
      && Aliases[i].0 != "componentRef"
  {
  }

  lemma AliasesAvoidReserved(i: nat)
    requires i < |Aliases|
    ensures Aliases[i].0 != "mount" && Aliases[i].1 != "mount" && Aliases[i].0 != "kind" && Aliases[i].1 != "kind"
    ensures
      Aliases[i].0 != EquippedKey && Aliases[i].1 != EquippedKey && Aliases[i].0 != "slots" && Aliases[i].1 != "slots"
  {
  }

  /** Two tables that avoid each other's names are apart when put together. */
  lemma ApartTogether(a: Table, b: Table)
    requires Apart(a) && Apart(b)
    requires forall i, j :: 0 <= i < |a| && 0 <= j < |b| ==> a[i].1 != b[j].0 && b[j].1 != a[i].0
    ensures Apart(a + b)
  {
  }

  lemma ShippedApart(refs: Table)
    requires refs == Shipped().mounted || refs == Shipped().plain
    ensures Apart(refs + Shipped().fields)
  {
    var fields := Shipped().fields;
    forall i, j | 0 <= i < |fields| && 0 <= j < |fields| ensures fields[i].1 != fields[j].0 { AliasesApart(i, j); }
    forall i, j | 0 <= i < |refs| && 0 <= j < |fields|
      ensures refs[i].1 != fields[j].0 && fields[j].1 != refs[i].0
    {
      AliasesAvoidRefs(j);
    }
    RefsApart(refs);
    ApartTogether(refs, fields);
  }

  lemma RefsApart(refs: Table)
    requires refs == Shipped().mounted || refs == Shipped().plain
    ensures Apart(refs)
  {
  }

  lemma AliasesAvoidMarkers(i: nat, k: string)
    requires i < |Aliases| && (k == Meta || k == "schemaVersion" || k == "schema_version" || k == "$schemaVersion")
    ensures Aliases[i].0 != k && Aliases[i].1 != k
  {
  }

  /** The shipped tables meet every condition of the theorems above. */
  lemma ShippedIsMarked()
    ensures Marked(Shipped())
  {
    ShippedApart(Shipped().mounted);
    ShippedApart(Shipped().plain);
    ShippedReserved("mount");
    ShippedReserved("kind");
    ShippedReserved(EquippedKey);
    MarkersReserved(Meta);
    forall i | 0 <= i < |Spellings| ensures Reserved(Shipped(), Spellings[i]) { MarkersReserved(Spellings[i]); }
  }

  lemma ShippedReserved(k: string)
    requires k == "mount" || k == "kind" || k == EquippedKey || k == "slots"
    ensures Reserved(Shipped(), k)
  {
    forall i | 0 <= i < |Aliases| ensures Aliases[i].0 != k && Aliases[i].1 != k { AliasesAvoidReserved(i); }
  }

  lemma MarkersReserved(k: string)
    requires k == Meta || k == "schemaVersion" || k == "schema_version" || k == "$schemaVersion"
    ensures Reserved(Shipped(), k)
  {
    forall i | 0 <= i < |Aliases| ensures Aliases[i].0 != k && Aliases[i].1 != k { AliasesAvoidMarkers(i, k); }
  }

  /** So under the shipped tables one migration settles a document exactly when neither its
      root nor its meta object spells the marker in two ways. */
  lemma ShippedMigratesOnceIff(v: Json)
    requires Migrated(Shipped(), v).Ok?
    ensures SettledByOne(Shipped(), v) <==> SpelledOnce(v)
  {
    ShippedIsMarked();
    SecondMigrationIff(Shipped(), v);
  }

  lemma SpelledTwiceOf(m: Members)
    requires "schemaVersion" in m && "schema_version" in m
    ensures !AtMostOne(m, Spellings)
  {
    assert Spellings[0] in m && Spellings[1] in m;
  }

  /** A document without slots is migrated. */
  lemma SlotlessIsMigrated(sc: Schema, v: Json)
    requires Good(sc) && Reserved(sc, "slots") && v.Obj? && "slots" !in v.members
    ensures Migrated(sc, v).Ok?
  {
    var m := Dropped(v).members;
    DropFirstShrinks(v.members, Spellings);
    KeyStays(sc, m, "slots");
  }

  /** A root with two spellings is not settled by one migration: the second drops the other. */
  lemma TwoSpellingsNeedTwoPasses(v: Json)
    requires v == Obj(map["schemaVersion" := Str("2.1"), "schema_version" := Str("2.1")])
    ensures Migrated(Shipped(), v).Ok? && !SettledByOne(Shipped(), v)
  {
    ShippedIsMarked();
    ShippedReserved("slots");
    SlotlessIsMigrated(Shipped(), v);
    SpelledTwiceOf(v.members);
    ShippedMigratesOnceIff(v);
  }
}
