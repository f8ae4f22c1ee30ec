/** Renaming legacy fields throughout a document, and equipping single variants. */
module Migration {
  import opened Json

  type Members = map<string, Json>

  type Table = seq<(string, string)>

  // ---------------------------------------------------------------- renaming

  /** Moves a field to its new name; a field already there wins. */
  function RenameField(m: Members, from: string, to: string): Members {
    if from !in m then m
    else
      var rest := m - {from};
      if to in rest then rest else rest[to := m[from]]
  }

  function Renames(m: Members, table: Table): Members
    decreases |table|
  {
    if table == [] then m else Renames(RenameField(m, table[0].0, table[0].1), table[1..])
  }

  /** Whether any rename of the table takes place. */
  predicate Touches(m: Members, table: Table)
    decreases |table|
  {
    table != [] && (table[0].0 in m || Touches(RenameField(m, table[0].0, table[0].1), table[1..]))
  }

  // ---------------------------------------------------------------- facts about any table

  /** No new name is also an old one. */
  ghost predicate Apart(table: Table) {
    forall i, j :: 0 <= i < |table| && 0 <= j < |table| ==> table[i].1 != table[j].0
  }

  ghost predicate IsOld(table: Table, k: string) { exists i :: 0 <= i < |table| && table[i].0 == k }

  lemma RestOfTable(table: Table)
    requires table != []
    ensures forall k :: IsOld(table, k) <==> k == table[0].0 || IsOld(table[1..], k)
    ensures Apart(table) ==> Apart(table[1..]) && !IsOld(table, table[0].1)
  {
    forall k ensures IsOld(table, k) <==> k == table[0].0 || IsOld(table[1..], k) {
      if IsOld(table[1..], k) {
        var i :| 0 <= i < |table[1..]| && table[1..][i].0 == k;
        assert table[i + 1].0 == k;
      }
      if IsOld(table, k) && k != table[0].0 {
        var i :| 0 <= i < |table| && table[i].0 == k;
        assert table[1..][i - 1].0 == k;
      }
    }
  }

  /** Fields that are not old names survive with their value, whatever their alias holds. */
  lemma {:induction false} RenamesKeep(m: Members, table: Table, k: string)
    requires !IsOld(table, k) && k in m
    ensures k in Renames(m, table) && Renames(m, table)[k] == m[k]
    decreases |table|
  {
    if table != [] {
      RestOfTable(table);
      RenamesKeep(RenameField(m, table[0].0, table[0].1), table[1..], k);
    }
  }

  /** No old name is left. */
  lemma {:induction false} RenamesClear(m: Members, table: Table, k: string)
    requires Apart(table) && (IsOld(table, k) || k !in m) && (forall i :: 0 <= i < |table| ==> table[i].1 != k)
    ensures k !in Renames(m, table)
    decreases |table|
  {
    if table != [] {
      RestOfTable(table);
      assert forall i :: 0 <= i < |table[1..]| ==> table[1..][i] == table[i + 1];
      RenamesClear(RenameField(m, table[0].0, table[0].1), table[1..], k);
    }
  }

  /** A table none of whose old names occurs changes nothing. */
  lemma {:induction false} RenamesIdle(m: Members, table: Table)
    requires forall i :: 0 <= i < |table| ==> table[i].0 !in m
    ensures Renames(m, table) == m && !Touches(m, table)
    decreases |table|
  {
    if table != [] { RenamesIdle(m, table[1..]); }
  }

  /** A rename is recorded exactly when an old name occurs. */
  lemma {:induction false} TouchesIff(m: Members, table: Table)
    requires Apart(table)
    ensures Touches(m, table) <==> exists i :: 0 <= i < |table| && table[i].0 in m
    decreases |table|
  {
    if table != [] {
      RestOfTable(table);
      if table[0].0 !in m {
        TouchesIff(m, table[1..]);
        assert forall i :: 0 <= i < |table[1..]| ==> table[1..][i] == table[i + 1];
      }
    }
  }

  /** An old name whose new name is free, and which no earlier alias takes, moves there. */
  lemma {:induction false} RenamesMove(m: Members, table: Table, i: nat)
    requires Apart(table) && i < |table| && table[i].0 in m && table[i].1 !in m
    requires forall j :: 0 <= j < i ==> table[j].0 != table[i].0 && (table[j].1 == table[i].1 ==> table[j].0 !in m)
    ensures table[i].1 in Renames(m, table) && Renames(m, table)[table[i].1] == m[table[i].0]
    decreases |table|
  {
    RestOfTable(table);
    var n := RenameField(m, table[0].0, table[0].1);
    if i == 0 {
      RenamesKeep(n, table[1..], table[0].1);
    } else {
      assert forall j :: 0 <= j < |table[1..]| ==> table[1..][j] == table[j + 1];
      RenamesMove(n, table[1..], i - 1);
    }
  }

  // ---------------------------------------------------------------- normalising a document

  /** The renames of a schema: for references of mounted components, for other references, and
      for fields of any object. */
  datatype Schema = Schema(mounted: Table, plain: Table, fields: Table)

  function RefTable(sc: Schema, m: Members): Table { if "mount" in m then sc.mounted else sc.plain }

  function TableOf(sc: Schema, m: Members): Table { RefTable(sc, m) + sc.fields }

  function Renamed(sc: Schema, m: Members): Members { Renames(m, TableOf(sc, m)) }

  function NewKind(kind: string): string {
    if kind == "parametric_generator" then "parametric-generator"
    else if kind == "llm_generation" then "llm-generation"
    else kind
  }

  predicate OldKind(m: Members) { "kind" in m && m["kind"].Str? && NewKind(m["kind"].s) != m["kind"].s }

  function FixKind(m: Members): Members {
    if OldKind(m) then m["kind" := Str(NewKind(m["kind"].s))] else m
  }

  /** References, then field aliases, then the kind, then the children; a string under "kind"
      has no children, so the kind may as well be put right after them. */
  function Normalize(sc: Schema, v: Json): Json
    decreases v
  {
    match v
    case Obj(m) =>
      var r := Renamed(sc, m);
      Obj(FixKind(map k | k in r :: Normalize(sc, m[Origin(sc, m, k)])))
    case Arr(a) => Arr(seq(|a|, i requires 0 <= i < |a| => Normalize(sc, a[i])))
    case _ => v
  }

  /** The field of the object that ends up under a name. */
  function Origin(sc: Schema, m: Members, k: string): (j: string)
    requires k in Renamed(sc, m)
    ensures j in m && m[j] == Renamed(sc, m)[k]
  {
    Source(m, TableOf(sc, m), k)
  }

  function Source(m: Members, table: Table, k: string): (j: string)
    requires k in Renames(m, table)
    ensures j in m && m[j] == Renames(m, table)[k]
    decreases |table|
  {
    if table == [] then k
    else
      var j := Source(RenameField(m, table[0].0, table[0].1), table[1..], k);
      if j == table[0].1 && table[0].0 in m && j !in m - {table[0].0} then table[0].0 else j
  }

  // ---------------------------------------------------------------- what is recorded

  datatype Label = ComponentRefAliases | FieldAliases | ProvenanceKinds | EquippedSingles | VersionMarker

  function When(b: bool, l: Label): set<Label> { if b then {l} else {} }

  /** The labels an object itself gives rise to. */
  function OwnLabels(sc: Schema, m: Members): set<Label> {
    var refs := Renames(m, RefTable(sc, m));
    When(Touches(m, RefTable(sc, m)), ComponentRefAliases) + When(Touches(refs, sc.fields), FieldAliases)
    + When(OldKind(Renames(refs, sc.fields)), ProvenanceKinds)
  }

  /** Every label recorded anywhere in the value; fields dropped in favour of their new name are
      not looked into. */
  ghost function Labels(sc: Schema, v: Json): set<Label>
    decreases v
  {
    match v
    case Obj(m) =>
      var r := Renamed(sc, m);
      OwnLabels(sc, m) + set k, l | k in r && l in Labels(sc, m[Origin(sc, m, k)]) :: l
    case Arr(a) => set i, l | 0 <= i < |a| && l in Labels(sc, a[i]) :: l
    case _ => {}
  }

  // ---------------------------------------------------------------- normal form

  ghost predicate NoOldNames(table: Table, m: Members) { forall i :: 0 <= i < |table| ==> table[i].0 !in m }

  /** No legacy name or kind anywhere. */
  ghost predicate Normal(sc: Schema, v: Json)
    decreases v
  {
    match v
    case Obj(m) => NoOldNames(TableOf(sc, m), m) && !OldKind(m) && forall k :: k in m ==> Normal(sc, m[k])
    case Arr(a) => forall i :: 0 <= i < |a| ==> Normal(sc, a[i])
    case _ => true
  }

  /** A name the tables neither take nor give. */
  ghost predicate Reserved(sc: Schema, k: string) {
    && (forall i :: 0 <= i < |sc.mounted| ==> sc.mounted[i].0 != k && sc.mounted[i].1 != k)
    && (forall i :: 0 <= i < |sc.plain| ==> sc.plain[i].0 != k && sc.plain[i].1 != k)
    && (forall i :: 0 <= i < |sc.fields| ==> sc.fields[i].0 != k && sc.fields[i].1 != k)
  }

  ghost predicate Good(sc: Schema) {
    && Apart(sc.mounted + sc.fields) && Apart(sc.plain + sc.fields)
    && Reserved(sc, "mount") && Reserved(sc, "kind")
  }

  lemma ReservedStays(sc: Schema, m: Members, k: string)
    requires Reserved(sc, k) && Apart(TableOf(sc, m))
    ensures k in Renamed(sc, m) <==> k in m
    ensures k in m ==> Renamed(sc, m)[k] == m[k]
  {
    var table := TableOf(sc, m);
    assert forall i :: 0 <= i < |table| ==> table[i].0 != k && table[i].1 != k;
    if k in m { RenamesKeep(m, table, k); } else { RenamesClear(m, table, k); }
  }

  lemma TableApart(sc: Schema, m: Members)
    requires Good(sc)
    ensures Apart(TableOf(sc, m))
  {
  }

  lemma OldNamesGone(sc: Schema, m: Members)
    requires Good(sc)
    ensures NoOldNames(TableOf(sc, m), Renamed(sc, m))
  {
    TableApart(sc, m);
    var table := TableOf(sc, m);
    forall i | 0 <= i < |table| ensures table[i].0 !in Renamed(sc, m) {
      assert IsOld(table, table[i].0);
      RenamesClear(m, table, table[i].0);
    }
  }

  lemma SameTable(sc: Schema, m: Members, n: Members)
    requires "mount" in m <==> "mount" in n
    ensures TableOf(sc, m) == TableOf(sc, n)
  {
  }

  /** The members before the kind is put right. */
  ghost function Children(sc: Schema, m: Members): (c: Members)
    ensures c.Keys == Renamed(sc, m).Keys
  {
    var r := Renamed(sc, m);
    map k | k in r :: Normalize(sc, m[Origin(sc, m, k)])
  }

  lemma NormalizeObject(sc: Schema, m: Members)
    ensures Normalize(sc, Obj(m)) == Obj(FixKind(Children(sc, m)))
  {
  }

  lemma FixKindIsFixed(m: Members)
    ensures !OldKind(FixKind(m)) && FixKind(m).Keys == m.Keys
    ensures forall k :: k in m && k != "kind" ==> FixKind(m)[k] == m[k]
    ensures "kind" in m ==> FixKind(m)["kind"] == m["kind"] || FixKind(m)["kind"].Str?
  {
  }

  /** Normalising leaves no legacy name or kind anywhere. */
  lemma {:induction false} NormalizeIsNormal(sc: Schema, v: Json)
    requires Good(sc)
    ensures Normal(sc, Normalize(sc, v))
    decreases v
  {
    match v
    case Obj(m) =>
      var c := Children(sc, m);
      NormalizeObject(sc, m);
      forall k | k in c ensures Normal(sc, c[k]) {
        var j := Origin(sc, m, k);
        NormalizeIsNormal(sc, m[j]);
      }
      ObjectIsNormal(sc, m, c);
    case Arr(a) =>
      forall i | 0 <= i < |a| ensures Normal(sc, Normalize(sc, a[i])) { NormalizeIsNormal(sc, a[i]); }
    case _ =>
  }

  lemma ObjectIsNormal(sc: Schema, m: Members, c: Members)
    requires Good(sc) && c.Keys == Renamed(sc, m).Keys && forall k :: k in c ==> Normal(sc, c[k])
    ensures Normal(sc, Obj(FixKind(c)))
  {
    FixKindIsFixed(c);
    TableApart(sc, m);
    ReservedStays(sc, m, "mount");
    OldNamesGone(sc, m);
    SameTable(sc, m, FixKind(c));
  }

  lemma ChildrenFixed(sc: Schema, m: Members)
    requires NoOldNames(TableOf(sc, m), m) && forall k :: k in m ==> Normalize(sc, m[k]) == m[k]
    ensures Children(sc, m) == m
  {
    RenamesIdle(m, TableOf(sc, m));
    var c := Children(sc, m);
    forall k | k in m ensures c[k] == m[k] { assert m[Origin(sc, m, k)] == m[k]; }
  }

  lemma ItemsFixed(sc: Schema, a: seq<Json>)
    requires forall i :: 0 <= i < |a| ==> Normalize(sc, a[i]) == a[i]
    ensures Normalize(sc, Arr(a)) == Arr(a)
  {
  }

  /** A document in normal form is left as it is. */
  lemma {:induction false} NormalIsFixed(sc: Schema, v: Json)
    requires Normal(sc, v)
    ensures Normalize(sc, v) == v
    decreases v
  {
    match v
    case Obj(m) =>
      forall k | k in m ensures Normalize(sc, m[k]) == m[k] { NormalIsFixed(sc, m[k]); }
      ChildrenFixed(sc, m);
      NormalizeObject(sc, m);
    case Arr(a) =>
      forall i | 0 <= i < |a| ensures Normalize(sc, a[i]) == a[i] { NormalIsFixed(sc, a[i]); }
      ItemsFixed(sc, a);
    case _ =>
  }

  /** Normalising twice is normalising once. */
  lemma NormalizeIsIdempotent(sc: Schema, v: Json)
    requires Good(sc)
    ensures Normalize(sc, Normalize(sc, v)) == Normalize(sc, v)
  {
    NormalizeIsNormal(sc, v);
    NormalIsFixed(sc, Normalize(sc, v));
  }

  // ---------------------------------------------------------------- records

  lemma {:induction false} RenamesInTwo(m: Members, a: Table, b: Table)
    ensures Renames(m, a + b) == Renames(Renames(m, a), b)
    decreases |a|
  {
    if a == [] {
      assert a + b == b;
    } else {
      assert (a + b)[0] == a[0] && (a + b)[1..] == a[1..] + b;
      RenamesInTwo(RenameField(m, a[0].0, a[0].1), a[1..], b);
    }
  }

  lemma ApartParts(a: Table, b: Table)
    requires Apart(a + b)
    ensures Apart(a) && Apart(b)
  {
    assert forall i :: 0 <= i < |a| ==> (a + b)[i] == a[i];
    assert forall i :: 0 <= i < |b| ==> (a + b)[|a| + i] == b[i];
  }

  /** An object records nothing of its own exactly when it has no legacy name or kind. */
  lemma OwnLabelsIff(sc: Schema, m: Members)
    requires Good(sc)
    ensures OwnLabels(sc, m) == {} <==> NoOldNames(TableOf(sc, m), m) && !OldKind(m)
  {
    var refs, fields := RefTable(sc, m), sc.fields;
    var table := refs + fields;
    TableApart(sc, m);
    ApartParts(refs, fields);
    TouchesIff(m, refs);
    assert forall i :: 0 <= i < |refs| ==> table[i] == refs[i];
    assert forall i :: 0 <= i < |fields| ==> table[|refs| + i] == fields[i];
    if NoOldNames(refs, m) {
      RenamesIdle(m, refs);
      TouchesIff(m, fields);
      if NoOldNames(fields, m) { RenamesIdle(m, fields); }
    }
  }

  /** Nothing is recorded exactly when the document is already in normal form; so a second
      pass records nothing. */
  lemma {:induction false} RecordsNothingIffNormal(sc: Schema, v: Json)
    requires Good(sc)
    ensures Labels(sc, v) == {} <==> Normal(sc, v)
    decreases v
  {
    match v
    case Obj(m) =>
      OwnLabelsIff(sc, m);
      if OwnLabels(sc, m) == {} {
        RenamesIdle(m, TableOf(sc, m));
        forall k | k in m ensures Labels(sc, m[Origin(sc, m, k)]) == {} <==> Normal(sc, m[k]) {
          RecordsNothingIffNormal(sc, m[k]);
        }
        ChildLabels(sc, m);
      }
    case Arr(a) =>
      forall i | 0 <= i < |a|
        ensures Labels(sc, a[i]) == {} <==> Normal(sc, a[i])
      {
        RecordsNothingIffNormal(sc, a[i]);
      }
      ItemLabels(sc, a);
    case _ =>
  }

  lemma ItemLabels(sc: Schema, a: seq<Json>)
    ensures Labels(sc, Arr(a)) == {} <==> forall i :: 0 <= i < |a| ==> Labels(sc, a[i]) == {}
  {
    if i :| 0 <= i < |a| && Labels(sc, a[i]) != {} {
      var l :| l in Labels(sc, a[i]);
      assert l in Labels(sc, Arr(a));
    }
  }

  lemma ChildLabels(sc: Schema, m: Members)
    requires OwnLabels(sc, m) == {} && Renamed(sc, m) == m
    ensures Labels(sc, Obj(m)) == {} <==> forall k :: k in m ==> Labels(sc, m[Origin(sc, m, k)]) == {}
  {
    if k :| k in m && Labels(sc, m[Origin(sc, m, k)]) != {} {
      var l :| l in Labels(sc, m[Origin(sc, m, k)]);
      assert l in Labels(sc, Obj(m));
    }
  }

  lemma SecondPassRecordsNothing(sc: Schema, v: Json)
    requires Good(sc)
    ensures Labels(sc, Normalize(sc, v)) == {}
  {
    NormalizeIsNormal(sc, v);
    RecordsNothingIffNormal(sc, Normalize(sc, v));
  }

  // ---------------------------------------------------------------- what becomes of a field

  /** A field that is not a legacy name, the target of an alias among them, keeps its own value
      whatever the alias holds. */
  lemma FieldSurvives(sc: Schema, m: Members, k: string)
    requires !IsOld(TableOf(sc, m), k) && k in m && k != "kind"
    ensures
      && Normalize(sc, Obj(m)).Obj? && k in Normalize(sc, Obj(m)).members
      && Normalize(sc, Obj(m)).members[k] == Normalize(sc, m[k])
  {
    RenamesKeep(m, TableOf(sc, m), k);
    NormalizeObject(sc, m);
    FixKindIsFixed(Children(sc, m));
  }

  /** A legacy field moves to its new name when that is free and no earlier alias takes it. */
  lemma FieldMoves(sc: Schema, m: Members, i: nat)
    requires Good(sc) && i < |TableOf(sc, m)| && TableOf(sc, m)[i].0 in m && TableOf(sc, m)[i].1 !in m
    requires forall j ::
        0 <= j < i ==>
          && TableOf(sc, m)[j].0 != TableOf(sc, m)[i].0
          && (TableOf(sc, m)[j].1 == TableOf(sc, m)[i].1 ==> TableOf(sc, m)[j].0 !in m)
    ensures var to := TableOf(sc, m)[i].1;
      && Normalize(sc, Obj(m)).Obj? && to in Normalize(sc, Obj(m)).members
      && Normalize(sc, Obj(m)).members[to] == Normalize(sc, m[TableOf(sc, m)[i].0])
  {
    var table := TableOf(sc, m);
    TableApart(sc, m);
    RenamesMove(m, table, i);
    NormalizeObject(sc, m);
    FixKindIsFixed(Children(sc, m));
    assert table[i].1 != "kind" by { KindIsNotNew(sc, m, i); }
  }

  lemma KindIsNotNew(sc: Schema, m: Members, i: nat)
    requires Good(sc) && i < |TableOf(sc, m)|
    ensures TableOf(sc, m)[i].1 != "kind"
  {
  }
}
