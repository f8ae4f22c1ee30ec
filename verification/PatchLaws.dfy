/** What each patch operation does, in terms of paths, values and places. */
module PatchLaws {
  import opened Common
  import opened Json
  import opened Pointer
  import opened Patch
  import opened PatchTheorems

  // ---------------------------------------------------------------- pointers

  /** The tokens of a pointer; only the empty pointer has none. */
  function Tokens(path: string): Option<seq<string>> { SplitPointer(path) }

  lemma RootPointer(path: string)
    ensures Tokens(path) == Some([]) <==> path == ""
  {
  }

  function Init(toks: seq<string>): seq<string>
    requires toks != []
  {
    toks[..|toks| - 1]
  }

  function Last(toks: seq<string>): string
    requires toks != []
  {
    toks[|toks| - 1]
  }

  // ---------------------------------------------------------------- an edit below the root

  /** The edit as the replacement of the parent by its edited form. */
  function Rebuilt(doc: Json, toks: seq<string>, edited: Result<Json, Fault>): Result<Json, Fault>
    requires |toks| > 1
  {
    match edited case Err(f) => Err(f) case Ok(p) => EditTokens(doc, Init(toks), ReplaceEdit(p))
  }

  function EditedParent(doc: Json, toks: seq<string>, edit: Edit): Result<Json, Fault>
    requires toks != []
  {
    match ParentOf(doc, toks) case Err(f) => Err(f) case Ok(p) => EditAt(p, Last(toks), edit)
  }

  lemma {:induction false} EditRebuilds(doc: Json, toks: seq<string>, edit: Edit)
    requires |toks| > 1
    ensures EditTokens(doc, toks, edit) == Rebuilt(doc, toks, EditedParent(doc, toks, edit))
    decreases |toks|
  {
    ParentStep(doc, toks);
    if HopOf(doc, toks[0]).Ok? {
      HopHasChild(doc, toks[0]);
      var child := Child(doc, HopOf(doc, toks[0]).value);
      var rest := toks[1..];
      assert Last(rest) == Last(toks);
      if |toks| == 2 {
        assert Init(toks) == [toks[0]] && rest[..0] == [];
      } else {
        EditRebuilds(child, rest, edit);
        assert Init(toks)[1..] == Init(rest) && Init(toks)[0] == toks[0];
      }
    } else {
      assert Init(toks)[0] == toks[0];
    }
  }

  /** An edit succeeds exactly when its parent resolves and can be edited so, and the parent is
      then found in its edited form; else it fails as the parent does. */
  lemma EditIff(doc: Json, toks: seq<string>, edit: Edit)
    requires toks != []
    ensures EditTokens(doc, toks, edit).Ok? <==> EditedParent(doc, toks, edit).Ok?
    ensures EditTokens(doc, toks, edit).Err? ==> EditTokens(doc, toks, edit) == EditedParent(doc, toks, edit)
    ensures EditTokens(doc, toks, edit).Ok? ==>
      ParentOf(EditTokens(doc, toks, edit).value, toks) == EditedParent(doc, toks, edit)
  {
    if |toks| == 1 {
      assert toks[..0] == [];
    } else {
      EditRebuilds(doc, toks, edit);
      if EditedParent(doc, toks, edit).Ok? { ReplaceHits(doc, Init(toks), EditedParent(doc, toks, edit).value); }
    }
  }

  /** An edit leaves every place alone that neither contains its parent nor lies under it. */
  lemma EditFrame(doc: Json, toks: seq<string>, edit: Edit, q: seq<string>)
    requires toks != [] && EditTokens(doc, toks, edit).Ok?
    requires Locate(doc, Init(toks)).Some? && Locate(doc, q).Some?
    requires !IsPrefix(Locate(doc, Init(toks)).value, Locate(doc, q).value)
    requires !IsPrefix(Locate(doc, q).value, Locate(doc, Init(toks)).value)
    ensures ResolveTokens(EditTokens(doc, toks, edit).value, q) == ResolveTokens(doc, q)
  {
    if |toks| > 1 {
      EditRebuilds(doc, toks, edit);
      ReplaceFrame(doc, Init(toks), q, EditedParent(doc, toks, edit).value);
    }
  }

  /** The edit an operation makes at its path. */
  function EditOf(op: PatchOp): Edit
    requires !op.Test?
  {
    match op case Add(_, v) => AddEdit(v) case Replace(_, v) => ReplaceEdit(v) case Remove(_) => RemoveEdit
  }

  lemma AppliedIsEdit(doc: Json, op: PatchOp, toks: seq<string>)
    requires Tokens(op.path) == Some(toks) && toks != [] && !op.Test?
    ensures ApplyOne(doc, op) == EditTokens(doc, toks, EditOf(op))
  {
  }

  // ---------------------------------------------------------------- test

  /** A test passes exactly when the path leads to an equal value, and then changes nothing; where
      the path leads to another value it fails as a test. */
  lemma TestIff(doc: Json, path: string, v: Json)
    ensures ApplyOne(doc, Test(path, v)) == Ok(doc) <==> Resolve(doc, path) == Ok(v)
    ensures ApplyOne(doc, Test(path, v)).Ok? ==> ApplyOne(doc, Test(path, v)) == Ok(doc)
    ensures Resolve(doc, path).Ok? && Resolve(doc, path).value != v ==>
      ApplyOne(doc, Test(path, v)) == Err(TestFailed(path))
  {
  }

  // ---------------------------------------------------------------- remove

  lemma ResolveByParent(doc: Json, toks: seq<string>)
    requires toks != []
    ensures ResolveTokens(doc, toks)
      == match ParentOf(doc, toks) case Err(f) => Err(f) case Ok(p) => Step(p, Last(toks))
    decreases |toks|
  {
    if |toks| == 1 {
      assert toks[..0] == [] && toks[1..] == [];
    } else {
      ParentStep(doc, toks);
      if Step(doc, toks[0]).Ok? { ResolveByParent(Step(doc, toks[0]).value, toks[1..]); }
    }
  }

  lemma RemovableIff(node: Json, last: string)
    ensures RemoveFrom(node, last).Ok? <==> Step(node, last).Ok?
  {
  }

  /** A remove succeeds exactly where its path leads to something below the root. */
  lemma RemoveIff(doc: Json, path: string)
    ensures ApplyOne(doc, Remove(path)).Ok? <==> Resolve(doc, path).Ok? && path != ""
  {
    RootPointer(path);
    if Tokens(path).Some? && path != "" {
      var toks := Tokens(path).value;
      EditIff(doc, toks, RemoveEdit);
      ResolveByParent(doc, toks);
      if ParentOf(doc, toks).Ok? { RemovableIff(ParentOf(doc, toks).value, Last(toks)); }
    }
  }

  /** What is left of a container without one child: the other members, or the other items in
      their order. */
  ghost predicate Without(before: Json, last: string, after: Json) {
    match before
    case Obj(m) => after.Obj? && last in m && after.members.Keys == m.Keys - {last}
                   && forall k :: k in after.members ==> after.members[k] == m[k]
    case Arr(a) =>
      && after.Arr? && ParseIndex(last).Some? && ParseIndex(last).value < |a| && |after.items| == |a| - 1
      && forall i :: 0 <= i < |after.items| ==> after.items[i] == if i < ParseIndex(last).value then a[i] else a[i + 1]
    case _ => false
  }

  lemma RemovedIsWithout(node: Json, last: string)
    requires RemoveFrom(node, last).Ok?
    ensures Without(node, last, RemoveFrom(node, last).value)
  {
  }

  /** A remove takes one child from the parent of its last token. */
  lemma RemoveTakes(doc: Json, path: string)
    requires ApplyOne(doc, Remove(path)).Ok?
    ensures Tokens(path).Some? && Tokens(path).value != []
    ensures var toks := Tokens(path).value; var after := ApplyOne(doc, Remove(path)).value;
      && ParentOf(doc, toks).Ok? && ParentOf(after, toks).Ok?
      && Without(ParentOf(doc, toks).value, Last(toks), ParentOf(after, toks).value)
  {
    RootPointer(path);
    var toks := Tokens(path).value;
    AppliedIsEdit(doc, Remove(path), toks);
    EditIff(doc, toks, RemoveEdit);
    RemovedIsWithout(ParentOf(doc, toks).value, Last(toks));
  }

  /** Adding back what was removed restores the document. */
  lemma RemoveThenAddRestores(doc: Json, path: string)
    requires ApplyOne(doc, Remove(path)).Ok?
    ensures Resolve(doc, path).Ok?
    ensures ApplyAll(doc, [Remove(path), Add(path, Resolve(doc, path).value)]) == Ok(doc)
  {
    RemoveIff(doc, path);
    RemoveThenAdd(doc, Tokens(path).value);
    TwoOperations(doc, Remove(path), Add(path, Resolve(doc, path).value));
  }

  lemma TwoOperations(doc: Json, p: PatchOp, q: PatchOp)
    requires ApplyOne(doc, p).Ok?
    ensures ApplyAll(doc, [p, q])
      == match ApplyOne(ApplyOne(doc, p).value, q) case Err(f) => Err(PatchError(1, f)) case Ok(r) => Ok(r)
  {
    assert [p, q][..1] == [p] && [p][..0] == [];
    assert ApplyAll(doc, []) == Ok(doc);
    assert ApplyAll(doc, [p]) == Ok(ApplyOne(doc, p).value);
  }

  // ---------------------------------------------------------------- add

  /** A container that takes a child under this token: an object any name, an array "-" or an
      index up to its length. */
  predicate Takes(node: Json, last: string) {
    match node
    case Obj(m) => true
    case Arr(a) => last == "-" || (ParseIndex(last).Some? && ParseIndex(last).value <= |a|)
    case _ => false
  }

  /** The position a token names for a new item. */
  function PositionFor(a: seq<Json>, last: string): nat {
    if last == "-" then |a| else if ParseIndex(last).Some? then ParseIndex(last).value else 0
  }

  /** A container with one child more, or another one under a name it has: the member or the item
      is the value, every other member is kept, and the items after it move up by one. */
  ghost predicate With(before: Json, last: string, v: Json, after: Json) {
    match before
    case Obj(m) =>
      && after.Obj? && after.members.Keys == m.Keys + {last} && after.members[last] == v
      && forall k :: k in m && k != last ==> after.members[k] == m[k]
    case Arr(a) =>
      var p := PositionFor(a, last);
      && after.Arr? && p <= |a| && |after.items| == |a| + 1 && after.items[p] == v
      && (forall i :: 0 <= i < p ==> after.items[i] == a[i])
      && (forall i :: p <= i < |a| ==> after.items[i + 1] == a[i])
    case _ => false
  }

  lemma AddIntoIff(node: Json, last: string, v: Json)
    ensures AddInto(node, last, v).Ok? <==> Takes(node, last)
    ensures AddInto(node, last, v).Ok? ==> With(node, last, v, AddInto(node, last, v).value)
  {
  }

  /** An add at the root replaces the document; below it, it succeeds exactly when the parent of
      its last token resolves to a container that takes the child. */
  lemma AddIff(doc: Json, path: string, v: Json)
    ensures path == "" ==> ApplyOne(doc, Add(path, v)) == Ok(v)
    ensures path != "" ==> (ApplyOne(doc, Add(path, v)).Ok? <==>
      && Tokens(path).Some? && ParentOf(doc, Tokens(path).value).Ok?
      && Takes(ParentOf(doc, Tokens(path).value).value, Last(Tokens(path).value)))
  {
    RootPointer(path);
    if Tokens(path).Some? && path != "" {
      var toks := Tokens(path).value;
      EditIff(doc, toks, AddEdit(v));
      if ParentOf(doc, toks).Ok? { AddIntoIff(ParentOf(doc, toks).value, Last(toks), v); }
    }
  }

  /** The value is found under the token it was added by. */
  lemma AddedIsFound(before: Json, last: string, v: Json, after: Json)
    requires Takes(before, last) && With(before, last, v, after) && (before.Obj? || last != "-")
    ensures Step(after, last) == Ok(v)
  {
  }

  /** An add gives the parent of its last token the value as a child; an existing member is
      overwritten, and unless the token is "-" the path then leads to the value. */
  lemma AddPuts(doc: Json, path: string, v: Json)
    requires path != "" && ApplyOne(doc, Add(path, v)).Ok?
    ensures Tokens(path).Some? && Tokens(path).value != []
    ensures var toks := Tokens(path).value; var after := ApplyOne(doc, Add(path, v)).value;
      && ParentOf(doc, toks).Ok? && ParentOf(after, toks).Ok?
      && With(ParentOf(doc, toks).value, Last(toks), v, ParentOf(after, toks).value)
      && (ParentOf(doc, toks).value.Obj? || Last(toks) != "-" ==> Resolve(after, path) == Ok(v))
  {
    RootPointer(path);
    var toks := Tokens(path).value;
    EditIff(doc, toks, AddEdit(v));
    var after := ApplyOne(doc, Add(path, v)).value;
    var parent, last := ParentOf(doc, toks).value, Last(toks);
    AddIntoIff(parent, last, v);
    if parent.Obj? || last != "-" { AddedIsFound(parent, last, v, ParentOf(after, toks).value); }
    ResolveByParent(after, toks);
  }

  /** Removing what was added restores the document exactly when the add made a place of its own. */
  lemma AddThenRemoveRestoresIff(doc: Json, path: string, v: Json)
    requires path != "" && ApplyOne(doc, Add(path, v)).Ok?
    ensures Tokens(path).Some? && Tokens(path).value != [] && ParentOf(doc, Tokens(path).value).Ok?
    ensures ApplyAll(doc, [Add(path, v), Remove(path)]) == Ok(doc) <==>
      FreshPlace(ParentOf(doc, Tokens(path).value).value, Last(Tokens(path).value))
  {
    RootPointer(path);
    AddThenRemove(doc, Tokens(path).value, v);
    TwoOperations(doc, Add(path, v), Remove(path));
  }

  // ---------------------------------------------------------------- replace

  /** A replace succeeds exactly where its path leads, and the path then leads to the value. */
  lemma ReplaceIff(doc: Json, path: string, v: Json)
    ensures ApplyOne(doc, Replace(path, v)).Ok? <==> Resolve(doc, path).Ok?
    ensures ApplyOne(doc, Replace(path, v)).Ok? ==> Resolve(ApplyOne(doc, Replace(path, v)).value, path) == Ok(v)
  {
    if Tokens(path).Some? && Tokens(path).value != [] { ReplaceHits(doc, Tokens(path).value, v); }
  }

  // ---------------------------------------------------------------- everything else stays

  /** Whatever the operation at a path below the root, every place that neither contains the
      parent of its last token nor lies under it is as it was. */
  lemma OperationFrame(doc: Json, op: PatchOp, q: seq<string>)
    requires !op.Test? && op.path != "" && ApplyOne(doc, op).Ok?
    requires Locate(doc, q).Some? && Tokens(op.path).Some? && Tokens(op.path).value != []
    requires Locate(doc, Init(Tokens(op.path).value)).Some?
    requires !IsPrefix(Locate(doc, Init(Tokens(op.path).value)).value, Locate(doc, q).value)
    requires !IsPrefix(Locate(doc, q).value, Locate(doc, Init(Tokens(op.path).value)).value)
    ensures ResolveTokens(ApplyOne(doc, op).value, q) == ResolveTokens(doc, q)
  {
    var toks := Tokens(op.path).value;
    match op
    case Add(_, v) => EditFrame(doc, toks, AddEdit(v), q);
    case Remove(_) => EditFrame(doc, toks, RemoveEdit, q);
    case Replace(_, v) => EditFrame(doc, toks, ReplaceEdit(v), q);
  }

  // ---------------------------------------------------------------- faults

  /** Why a token leads nowhere from a value. */
  predicate StepFault(node: Json, tok: string, f: Fault) {
    match f
    case NoMember(t) => t == tok && node.Obj? && tok !in node.members
    case BadIndex(t) => t == tok && node.Arr? && ParseIndex(tok).None?
    case OutOfBounds(i, n) => node.Arr? && ParseIndex(tok) == Some(i) && n == |node.items| && i >= n
    case ScalarStep(t) => t == tok && !node.Obj? && !node.Arr?
    case _ => false
  }

  /** Why a walk ends: its first token that leads nowhere. */
  ghost predicate WalkFault(doc: Json, toks: seq<string>, f: Fault) {
    exists k :: 0 <= k < |toks| && StepFaultAt(doc, toks, k, f)
  }

  predicate StepFaultAt(doc: Json, toks: seq<string>, k: nat, f: Fault)
    requires k < |toks|
  {
    ResolveTokens(doc, toks[..k]).Ok? && StepFault(ResolveTokens(doc, toks[..k]).value, toks[k], f)
  }

  lemma StepFaultIff(node: Json, tok: string, f: Fault)
    ensures Step(node, tok) == Err(f) <==> StepFault(node, tok, f)
  {
  }

  lemma StepFaultBelow(doc: Json, toks: seq<string>, k: nat, f: Fault)
    requires 0 < k < |toks| && Step(doc, toks[0]).Ok?
    ensures StepFaultAt(doc, toks, k, f) <==> StepFaultAt(Step(doc, toks[0]).value, toks[1..], k - 1, f)
  {
    assert toks[..k][0] == toks[0] && toks[..k][1..] == toks[1..][..k - 1];
  }

  lemma StepFaultFirst(doc: Json, toks: seq<string>, f: Fault)
    requires toks != []
    ensures StepFaultAt(doc, toks, 0, f) <==> Step(doc, toks[0]) == Err(f)
  {
    assert toks[..0] == [];
    StepFaultIff(doc, toks[0], f);
  }

  lemma {:induction false} WalkFaultIff(doc: Json, toks: seq<string>, f: Fault)
    ensures ResolveTokens(doc, toks) == Err(f) <==> WalkFault(doc, toks, f)
    decreases |toks|
  {
    if toks != [] {
      StepFaultFirst(doc, toks, f);
      if Step(doc, toks[0]).Ok? {
        var child, rest := Step(doc, toks[0]).value, toks[1..];
        WalkFaultIff(child, rest, f);
        if j :| 0 <= j < |rest| && StepFaultAt(child, rest, j, f) { StepFaultBelow(doc, toks, j + 1, f); }
        if k :| 0 <= k < |toks| && StepFaultAt(doc, toks, k, f) { StepFaultBelow(doc, toks, k, f); }
      } else {
        forall k | 0 < k < |toks| ensures !StepFaultAt(doc, toks, k, f) {
          assert toks[..k][0] == toks[0];
        }
      }
    }
  }

  /** Why a value does not take a new child. */
  predicate AddFault(node: Json, last: string, f: Fault) {
    match f
    case BadIndex(t) => t == last && node.Arr? && last != "-" && ParseIndex(last).None?
    case OutOfBounds(i, n) => node.Arr? && last != "-" && ParseIndex(last) == Some(i) && n == |node.items| && i > n
    case AddsIntoScalar => !node.Obj? && !node.Arr?
    case _ => false
  }

  /** Why a value has no such child to lose. */
  predicate RemoveFault(node: Json, last: string, f: Fault) {
    if f.RemovesFromScalar? then !node.Obj? && !node.Arr? else !f.ScalarStep? && StepFault(node, last, f)
  }

  lemma EditFaultIff(node: Json, last: string, v: Json, f: Fault)
    ensures AddInto(node, last, v) == Err(f) <==> AddFault(node, last, f)
    ensures RemoveFrom(node, last) == Err(f) <==> RemoveFault(node, last, f)
    ensures ReplaceIn(node, last, v) == Err(f) <==> StepFault(node, last, f)
  {
  }

  /** The fault of an operation whose path has these tokens. */
  ghost predicate Blamed(doc: Json, op: PatchOp, toks: seq<string>, f: Fault) {
    match op
    case Test(path, v) =>
      || WalkFault(doc, toks, f)
      || (f == TestFailed(path) && ResolveTokens(doc, toks).Ok? && ResolveTokens(doc, toks) != Ok(v))
    case Replace(_, _) => WalkFault(doc, toks, f)
    case Remove(_) =>
      if toks == [] then f == RemovesRoot
      else
        || WalkFault(doc, Init(toks), f)
        || (ParentOf(doc, toks).Ok? && RemoveFault(ParentOf(doc, toks).value, Last(toks), f))
    case Add(_, _) =>
      && toks != []
      && (|| WalkFault(doc, Init(toks), f)
          || (ParentOf(doc, toks).Ok? && AddFault(ParentOf(doc, toks).value, Last(toks), f)))
  }

  lemma EditBlamed(doc: Json, op: PatchOp, toks: seq<string>, f: Fault)
    requires toks != [] && !op.Test?
    ensures EditTokens(doc, toks, EditOf(op)) == Err(f) <==> Blamed(doc, op, toks, f)
  {
    EditIff(doc, toks, EditOf(op));
    WalkFaultIff(doc, Init(toks), f);
    WalkFaultIff(doc, toks, f);
    ResolveByParent(doc, toks);
    if ParentOf(doc, toks).Ok? {
      EditFaultIff(ParentOf(doc, toks).value, Last(toks), if op.Remove? then doc else op.value, f);
      StepFaultIff(ParentOf(doc, toks).value, Last(toks), f);
    }
  }

  lemma TestBlamed(doc: Json, op: PatchOp, toks: seq<string>, f: Fault)
    requires Tokens(op.path) == Some(toks) && op.Test?
    ensures ApplyOne(doc, op) == Err(f) <==> Blamed(doc, op, toks, f)
  {
    WalkFaultIff(doc, toks, f);
  }

  lemma RootBlamed(doc: Json, op: PatchOp, f: Fault)
    requires Tokens(op.path) == Some([]) && !op.Test?
    ensures ApplyOne(doc, op) == Err(f) <==> Blamed(doc, op, [], f)
  {
  }

  /** Every way an operation can fail, and that it then fails so. */
  lemma FaultIff(doc: Json, op: PatchOp, f: Fault)
    ensures ApplyOne(doc, op) == Err(f) <==>
      if Tokens(op.path).None? then f == NotAPointer(op.path) else Blamed(doc, op, Tokens(op.path).value, f)
  {
    if Tokens(op.path).Some? {
      var toks := Tokens(op.path).value;
      if op.Test? {
        TestBlamed(doc, op, toks, f);
      } else if toks == [] {
        RootBlamed(doc, op, f);
      } else {
        AppliedIsEdit(doc, op, toks);
        EditBlamed(doc, op, toks, f);
      }
    }
  }
}
