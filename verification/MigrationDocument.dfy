/** Rewriting a whole document: normal form, then equipped variants. */
module MigrationDocument {
  import opened Common
  import opened Json
  import opened Migration

  // ---------------------------------------------------------------- the recursive walk

  /** Renames along a table, noting whether any took place. */
  method RenameAll(m: Members, table: Table) returns (r: Members, touched: bool)
    ensures r == Renames(m, table) && touched == Touches(m, table)
  {
    r, touched := m, false;
    for i := 0 to |table|
      invariant Renames(m, table) == Renames(r, table[i..])
      invariant Touches(m, table) <==> touched || Touches(r, table[i..])
    {
      assert table[i..][1..] == table[i + 1..];
      if table[i].0 in r {
        touched := true;
        var value := r[table[i].0];
        r := r - {table[i].0};
        if table[i].1 !in r { r := r[table[i].1 := value]; }
      }
    }
  }

  method NormalizeMembers(sc: Schema, m: Members) returns (r: Members, applied: set<Label>)
    ensures r == Renamed(sc, m) && applied == OwnLabels(sc, m)
  {
    var refs, byRef := RenameAll(m, RefTable(sc, m));
    var all, byField := RenameAll(refs, sc.fields);
    RenamesInTwo(m, RefTable(sc, m), sc.fields);
    r := all;
    applied := When(byRef, ComponentRefAliases) + When(byField, FieldAliases) + When(OldKind(all), ProvenanceKinds);
  }

  /** Renames in an object, puts its kind right, then visits its children; visits the items of
      an array. */
  method NormalizeValue(sc: Schema, v: Json) returns (r: Json, applied: set<Label>)
    ensures r == Normalize(sc, v) && applied == Labels(sc, v)
    decreases v, 2
  {
    match v
    case Obj(m) =>
      var members, own := NormalizeMembers(sc, m);
      var children, below := NormalizeChildren(sc, m, members);
      NormalizeObject(sc, m);
      LabelsOfObject(sc, m, below);
      r, applied := Obj(FixKind(children)), own + below;
    case Arr(a) =>
      var items, below := NormalizeItems(sc, a);
      r, applied := Arr(items), below;
    case _ => r, applied := v, {};
  }

  /** A label recorded below an object. */
  ghost predicate Below(sc: Schema, m: Members, keys: set<string>, l: Label)
    requires keys <= Renamed(sc, m).Keys
  {
    exists k :: k in keys && l in Labels(sc, m[Origin(sc, m, k)])
  }

  lemma LabelsOfObject(sc: Schema, m: Members, below: set<Label>)
    requires forall l :: l in below <==> Below(sc, m, Renamed(sc, m).Keys, l)
    ensures Labels(sc, Obj(m)) == OwnLabels(sc, m) + below
  {
    forall l ensures l in Labels(sc, Obj(m)) <==> l in OwnLabels(sc, m) + below { InObject(sc, m, l); }
  }

  lemma InObject(sc: Schema, m: Members, l: Label)
    ensures l in Labels(sc, Obj(m)) <==> l in OwnLabels(sc, m) || Below(sc, m, Renamed(sc, m).Keys, l)
  {
    if Below(sc, m, Renamed(sc, m).Keys, l) {
      var k :| k in Renamed(sc, m).Keys && l in Labels(sc, m[Origin(sc, m, k)]);
      assert l in Labels(sc, Obj(m));
    }
  }

  /** A label recorded in one of the first items. */
  ghost predicate Among(sc: Schema, a: seq<Json>, n: nat, l: Label)
    requires n <= |a|
  {
    exists k :: 0 <= k < n && l in Labels(sc, a[k])
  }

  lemma InArray(sc: Schema, a: seq<Json>, l: Label)
    ensures l in Labels(sc, Arr(a)) <==> Among(sc, a, |a|, l)
  {
    if Among(sc, a, |a|, l) {
      var k :| 0 <= k < |a| && l in Labels(sc, a[k]);
      assert l in Labels(sc, Arr(a));
    }
  }

  lemma LabelsOfArray(sc: Schema, a: seq<Json>, applied: set<Label>)
    requires forall l :: l in applied <==> Among(sc, a, |a|, l)
    ensures Labels(sc, Arr(a)) == applied
  {
    forall l ensures l in Labels(sc, Arr(a)) <==> l in applied { InArray(sc, a, l); }
  }

  lemma OneMoreItem(sc: Schema, a: seq<Json>, i: nat, applied: set<Label>, more: set<Label>)
    requires i < |a| && more == Labels(sc, a[i]) && forall l :: l in applied <==> Among(sc, a, i, l)
    ensures forall l :: l in applied + more <==> Among(sc, a, i + 1, l)
  {
    forall l ensures l in applied + more <==> Among(sc, a, i + 1, l) {
      if Among(sc, a, i, l) {
        var k :| 0 <= k < i && l in Labels(sc, a[k]);
        assert Among(sc, a, i + 1, l);
      }
    }
  }

  method NormalizeItems(sc: Schema, a: seq<Json>) returns (items: seq<Json>, applied: set<Label>)
    ensures Arr(items) == Normalize(sc, Arr(a)) && applied == Labels(sc, Arr(a))
    decreases Arr(a), 0
  {
    items, applied := [], {};
    for i := 0 to |a|
      invariant |items| == i && forall k :: 0 <= k < i ==> items[k] == Normalize(sc, a[k])
      invariant forall l :: l in applied <==> Among(sc, a, i, l)
    {
      var item, more := NormalizeValue(sc, a[i]);
      OneMoreItem(sc, a, i, applied, more);
      items, applied := items + [item], applied + more;
    }
    LabelsOfArray(sc, a, applied);
  }

  lemma OneMoreChild(sc: Schema, m: Members, done: set<string>, k: string, applied: set<Label>, more: set<Label>)
    requires done <= Renamed(sc, m).Keys && k in Renamed(sc, m) && more == Labels(sc, m[Origin(sc, m, k)])
    requires forall l :: l in applied <==> Below(sc, m, done, l)
    ensures forall l :: l in applied + more <==> Below(sc, m, done + {k}, l)
  {
    forall l ensures l in applied + more <==> Below(sc, m, done + {k}, l) {
      if Below(sc, m, done, l) {
        var j :| j in done && l in Labels(sc, m[Origin(sc, m, j)]);
        assert j in done + {k};
      }
    }
  }

  method NormalizeChildren(sc: Schema, m: Members, members: Members) returns (children: Members, applied: set<Label>)
    requires members == Renamed(sc, m)
    ensures children == Children(sc, m)
    ensures forall l :: l in applied <==> Below(sc, m, members.Keys, l)
    decreases Obj(m), 1
  {
    ghost var target := Children(sc, m);
    ghost var done: set<string> := {};
    children, applied := map[], {};
    var todo := members.Keys;
    VisitNone(sc, m, target);
    while todo != {}
      invariant Left(members.Keys, todo, done) && Visited(sc, m, target, done, children, applied)
      decreases |todo|
    {
      var k :| k in todo;
      var child, more := VisitChild(sc, m, k, target);
      VisitOne(sc, m, target, done, children, applied, k, child, more);
      TakeOne(members.Keys, todo, done, k);
      children, applied := children[k := child], applied + more;
      todo, done := todo - {k}, done + {k};
    }
    VisitedAll(sc, m, target, done, children, applied);
  }

  /** What is still to visit and what is done make up the whole. */
  ghost predicate Left(all: set<string>, todo: set<string>, done: set<string>) { todo + done == all && todo !! done }

  lemma TakeOne(all: set<string>, todo: set<string>, done: set<string>, k: string)
    requires Left(all, todo, done) && k in todo
    ensures Left(all, todo - {k}, done + {k}) && |todo - {k}| < |todo|
  {
  }

  lemma VisitNone(sc: Schema, m: Members, target: Members)
    ensures Visited(sc, m, target, {}, map[], {})
  {
  }

  lemma VisitedAll(sc: Schema, m: Members, target: Members, done: set<string>, children: Members, applied: set<Label>)
    requires Visited(sc, m, target, done, children, applied) && done == Renamed(sc, m).Keys == target.Keys
    ensures children == target && forall l :: l in applied <==> Below(sc, m, Renamed(sc, m).Keys, l)
  {
  }

  method VisitChild(sc: Schema, m: Members, k: string, ghost target: Members) returns (child: Json, more: set<Label>)
    requires k in Renamed(sc, m) && target == Children(sc, m)
    ensures child == target[k] && more == Labels(sc, m[Origin(sc, m, k)])
    decreases Obj(m), 0
  {
    child, more := NormalizeValue(sc, m[Origin(sc, m, k)]);
  }

  /** The children in `done` have been visited. */
  ghost predicate Visited(sc: Schema, m: Members, target: Members, done: set<string>, children: Members,
                          applied: set<Label>) {
    && done <= Renamed(sc, m).Keys && done <= target.Keys
    && children.Keys == done && (forall k :: k in done ==> children[k] == target[k])
    && forall l :: l in applied <==> Below(sc, m, done, l)
  }

  lemma VisitOne(sc: Schema, m: Members, target: Members, done: set<string>, children: Members, applied: set<Label>,
                 k: string, child: Json, more: set<Label>)
    requires
      && Visited(sc, m, target, done, children, applied) && k in Renamed(sc, m) && k in target && child == target[k]
      && more == Labels(sc, m[Origin(sc, m, k)])
    ensures Visited(sc, m, target, done + {k}, children[k := child], applied + more)
  {
    OneMoreChild(sc, m, done, k, applied, more);
  }

  // ---------------------------------------------------------------- equipped variants

  const UnknownSlot: string := "<unknown>"

  function SlotId(slot: Members): string {
    if "id" in slot && slot["id"].Str? then slot["id"].s else UnknownSlot
  }

  function VariantsOf(slot: Members): seq<Json> {
    if "variants" in slot && slot["variants"].Arr? then slot["variants"].items else []
  }

  /** The id of a slot's only variant, when it has one. */
  function OnlyVariantId(slot: Members): Option<string> {
    var vs := VariantsOf(slot);
    if |vs| == 1 && vs[0].Obj? && "id" in vs[0].members && vs[0].members["id"].Str? then Some(vs[0].members["id"].s)
    else None
  }

  const EquippedKey: string := "equippedVariantId"

  /** Several variants and no choice among them. */
  predicate Ambiguous(slot: Json) { slot.Obj? && EquippedKey !in slot.members && |VariantsOf(slot.members)| > 1 }

  /** A slot without a choice takes its only variant. */
  function EquipSlot(slot: Json): Json {
    if slot.Obj? && EquippedKey !in slot.members && OnlyVariantId(slot.members).Some?
    then Obj(slot.members[EquippedKey := Str(OnlyVariantId(slot.members).value)])
    else slot
  }

  /** The slots in order, up to the first that is ambiguous. */
  function EquipSlots(slots: seq<Json>): Result<seq<Json>, string> {
    if slots == [] then Ok([])
    else
      var last := slots[|slots| - 1];
      match EquipSlots(slots[..|slots| - 1])
      case Err(e) => Err(e)
      case Ok(done) => if Ambiguous(last) then Err(SlotId(last.members)) else Ok(done + [EquipSlot(last)])
  }

  predicate HasSlots(v: Json) { v.Obj? && "slots" in v.members && v.members["slots"].Arr? }

  function Equip(v: Json): Result<Json, string> {
    if !HasSlots(v) then Ok(v)
    else
      match EquipSlots(v.members["slots"].items)
      case Err(e) => Err(e)
      case Ok(slots) => Ok(Obj(v.members["slots" := Arr(slots)]))
  }

  method NormalizeEquippedVariants(v: Json) returns (r: Result<Json, string>, equipped: bool)
    ensures r == Equip(v)
    ensures r.Ok? ==> (equipped <==> r.value != v)
  {
    if !HasSlots(v) { return Ok(v), false; }
    var slots, any := EquipEach(v.members["slots"].items);
    match slots
    case Err(e) => return Err(e), any;
    case Ok(done) =>
      SlotsPutBack(v, done);
      return Ok(Obj(v.members["slots" := Arr(done)])), any;
  }

  method EquipEach(slots: seq<Json>) returns (r: Result<seq<Json>, string>, equipped: bool)
    ensures r == EquipSlots(slots)
    ensures r.Ok? ==> (equipped <==> r.value != slots)
  {
    equipped := false;
    var done: seq<Json> := [];
    for i := 0 to |slots|
      invariant EquipSlots(slots[..i]) == Ok(done) && |done| == i
      invariant equipped <==> done != slots[..i]
    {
      assert slots[..i + 1][..i] == slots[..i];
      if Ambiguous(slots[i]) {
        AmbiguityPersists(slots, i + 1);
        return Err(SlotId(slots[i].members)), equipped;
      }
      var slot := EquipSlot(slots[i]);
      PrefixDiffers(slots, done, i, slot);
      if slot != slots[i] { equipped := true; }
      done := done + [slot];
    }
    assert slots[..|slots|] == slots;
    return Ok(done), equipped;
  }

  lemma PrefixDiffers(slots: seq<Json>, done: seq<Json>, i: nat, slot: Json)
    requires i < |slots| && |done| == i
    ensures done + [slot] != slots[..i + 1] <==> done != slots[..i] || slot != slots[i]
  {
    assert slots[..i + 1] == slots[..i] + [slots[i]];
    assert (done + [slot])[..i] == done && (slots[..i] + [slots[i]])[..i] == slots[..i];
  }

  lemma SlotsPutBack(v: Json, done: seq<Json>)
    requires HasSlots(v)
    ensures Obj(v.members["slots" := Arr(done)]) == v <==> done == v.members["slots"].items
  {
    if done == v.members["slots"].items { assert v.members["slots" := Arr(done)] == v.members; }
    assert v.members["slots" := Arr(done)]["slots"] == Arr(done);
  }

  lemma {:induction false} AmbiguityPersists(slots: seq<Json>, i: nat)
    requires i <= |slots| && EquipSlots(slots[..i]).Err?
    ensures EquipSlots(slots) == EquipSlots(slots[..i])
    decreases |slots| - i
  {
    if i == |slots| {
      assert slots[..i] == slots;
    } else {
      assert slots[..i + 1][..i] == slots[..i];
      AmbiguityPersists(slots, i + 1);
    }
  }

  // ---------------------------------------------------------------- what equipping promises

  /** The first slot that is ambiguous. */
  ghost predicate FirstAmbiguous(slots: seq<Json>, name: string) {
    exists i ::
      && 0 <= i < |slots| && Ambiguous(slots[i]) && SlotId(slots[i].members) == name
      && forall j :: 0 <= j < i ==> !Ambiguous(slots[j])
  }

  /** Equipping fails exactly when a slot has several variants and no choice, and names the
      first such slot; otherwise it equips every slot on its own. */
  lemma {:induction false} AmbiguousIsRejected(slots: seq<Json>)
    ensures EquipSlots(slots).Err? <==> exists i :: 0 <= i < |slots| && Ambiguous(slots[i])
    ensures EquipSlots(slots).Err? ==> FirstAmbiguous(slots, EquipSlots(slots).error)
    ensures EquipSlots(slots).Ok? ==>
        && |EquipSlots(slots).value| == |slots|
        && forall i :: 0 <= i < |slots| ==> EquipSlots(slots).value[i] == EquipSlot(slots[i])
  {
    if slots != [] {
      var last := |slots| - 1;
      var init := slots[..last];
      AmbiguousIsRejected(init);
      assert forall i :: 0 <= i < last ==> init[i] == slots[i];
      if EquipSlots(init).Err? {
        var i :| 0 <= i < |init| && Ambiguous(init[i]) && SlotId(init[i].members) == EquipSlots(init).error
          && forall j :: 0 <= j < i ==> !Ambiguous(init[j]);
        assert Ambiguous(slots[i]);
      }
    }
  }

  lemma EquipSlotTwice(slot: Json)
    ensures EquipSlot(EquipSlot(slot)) == EquipSlot(slot)
    ensures Ambiguous(EquipSlot(slot)) ==> Ambiguous(slot)
  {
  }

  lemma EquipSlotsTwice(slots: seq<Json>, done: seq<Json>)
    requires EquipSlots(slots) == Ok(done)
    ensures EquipSlots(done) == Ok(done)
  {
    AmbiguousIsRejected(slots);
    AmbiguousIsRejected(done);
    forall i | 0 <= i < |done|
      ensures !Ambiguous(done[i]) && EquipSlot(done[i]) == done[i]
    {
      EquipSlotTwice(slots[i]);
    }
    assert EquipSlots(done).value == done;
  }

  /** Equipping what is already equipped changes nothing. */
  lemma EquipTwice(v: Json)
    requires Equip(v).Ok?
    ensures Equip(Equip(v).value) == Ok(Equip(v).value)
  {
    if HasSlots(v) {
      var done := EquipSlots(v.members["slots"].items).value;
      EquipSlotsTwice(v.members["slots"].items, done);
      SlotsPutBack(Equip(v).value, done);
    }
  }

  /** Names that equipping reads or writes. */
  ghost predicate Open(sc: Schema) {
    Good(sc) && Reserved(sc, EquippedKey) && EquippedKey != "mount" && EquippedKey != "kind"
  }

  lemma NotOld(sc: Schema, m: Members, k: string)
    requires Reserved(sc, k)
    ensures !IsOld(TableOf(sc, m), k)
  {
    var table := TableOf(sc, m);
    forall i | 0 <= i < |table| ensures table[i].0 != k {}
  }

  lemma AddField(sc: Schema, m: Members, k: string, v: Json)
    requires Normal(sc, Obj(m)) && Normal(sc, v) && Reserved(sc, k) && k != "mount" && k != "kind"
    ensures Normal(sc, Obj(m[k := v]))
  {
    NotOld(sc, m, k);
    SameTable(sc, m, m[k := v]);
  }

  lemma EquipSlotNormal(sc: Schema, slot: Json)
    requires Open(sc) && Normal(sc, slot)
    ensures Normal(sc, EquipSlot(slot))
  {
    if EquipSlot(slot) != slot { AddField(sc, slot.members, EquippedKey, Str(OnlyVariantId(slot.members).value)); }
  }

  lemma ReplaceField(sc: Schema, m: Members, k: string, v: Json)
    requires Normal(sc, Obj(m)) && Normal(sc, v) && k in m && (k == "kind" ==> !v.Str?)
    ensures Normal(sc, Obj(m[k := v]))
  {
    SameTable(sc, m, m[k := v]);
  }

  /** Equipping keeps a document in normal form. */
  lemma EquipIsNormal(sc: Schema, v: Json)
    requires Open(sc) && Normal(sc, v) && Equip(v).Ok?
    ensures Normal(sc, Equip(v).value)
  {
    if HasSlots(v) {
      var slots := v.members["slots"].items;
      var done := EquipSlots(slots).value;
      AmbiguousIsRejected(slots);
      assert Normal(sc, v.members["slots"]);
      forall i | 0 <= i < |done| ensures Normal(sc, done[i]) { EquipSlotNormal(sc, slots[i]); }
      assert Normal(sc, Arr(done));
      ReplaceField(sc, v.members, "slots", Arr(done));
    }
  }

  /** Normal form and equipped variants, with what is recorded. */
  ghost function Rewritten(sc: Schema, v: Json): Result<(Json, set<Label>), string> {
    var n := Normalize(sc, v);
    match Equip(n)
    case Err(e) => Err(e)
    case Ok(w) => Ok((w, Labels(sc, v) + When(w != n, EquippedSingles)))
  }

  /** Rewriting a rewritten document changes nothing and records nothing. */
  lemma RewritingTwice(sc: Schema, v: Json)
    requires Open(sc) && Rewritten(sc, v).Ok?
    ensures Rewritten(sc, Rewritten(sc, v).value.0) == Ok((Rewritten(sc, v).value.0, {}))
  {
    var n := Normalize(sc, v);
    var w := Equip(n).value;
    NormalizeIsNormal(sc, v);
    EquipIsNormal(sc, n);
    NormalIsFixed(sc, w);
    EquipTwice(n);
    RecordsNothingIffNormal(sc, w);
    assert Labels(sc, w) + When(false, EquippedSingles) == {};
  }

  method Rewrite(sc: Schema, v: Json) returns (r: Result<(Json, set<Label>), string>)
    ensures r == Rewritten(sc, v)
  {
    var n, applied := NormalizeValue(sc, v);
    var w, equipped := NormalizeEquippedVariants(n);
    match w
    case Err(e) => r := Err(e);
    case Ok(d) => r := Ok((d, applied + When(equipped, EquippedSingles)));
  }
}
