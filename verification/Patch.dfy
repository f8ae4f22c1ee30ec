/** The patch engine: add, replace, remove and test at JSON Pointers (RFC 6902). */
module Patch {
  import opened Common
  import opened Json
  import opened Pointer

  datatype Fault =
    | NotAPointer(path: string)
    | NoMember(token: string)
    | BadIndex(token: string)
    | OutOfBounds(index: nat, length: nat)
    | ScalarStep(token: string)
    | TestFailed(path: string)
    | RemovesRoot
    | AddsIntoScalar
    | RemovesFromScalar
    | FailsSchema

  datatype PatchOp =
    | Add(path: string, value: Json)
    | Replace(path: string, value: Json)
    | Remove(path: string)
    | Test(path: string, value: Json)

  datatype PatchError = PatchError(opIndex: nat, fault: Fault)

  /** A child as it is found: a member by name, an item by position. */
  datatype Hop = Key(name: string) | At(index: nat)

  /** Where a token leads from a value. */
  function HopOf(node: Json, tok: string): Result<Hop, Fault> {
    match node
    case Obj(m) => if tok in m then Ok(Key(tok)) else Err(NoMember(tok))
    case Arr(a) =>
      (match ParseIndex(tok)
       case None => Err(BadIndex(tok))
       case Some(i) => if i < |a| then Ok(At(i)) else Err(OutOfBounds(i, |a|)))
    case _ => Err(ScalarStep(tok))
  }

  predicate HasChild(node: Json, hop: Hop) {
    match hop
    case Key(k) => node.Obj? && k in node.members
    case At(i) => node.Arr? && i < |node.items|
  }

  function Child(node: Json, hop: Hop): Json
    requires HasChild(node, hop)
  {
    match hop case Key(k) => node.members[k] case At(i) => node.items[i]
  }

  /** The value with one existing child replaced. */
  function WithChild(node: Json, hop: Hop, child: Json): (r: Json)
    requires HasChild(node, hop)
    ensures HasChild(r, hop) && Child(r, hop) == child
  {
    match hop
    case Key(k) => Obj(node.members[k := child])
    case At(i) => Arr(node.items[i := child])
  }

  lemma HopHasChild(node: Json, tok: string)
    requires HopOf(node, tok).Ok?
    ensures HasChild(node, HopOf(node, tok).value)
  {
  }

  function Step(node: Json, tok: string): Result<Json, Fault> {
    match HopOf(node, tok)
    case Err(f) => Err(f)
    case Ok(h) => HopHasChild(node, tok); Ok(Child(node, h))
  }

  function ResolveTokens(doc: Json, toks: seq<string>): Result<Json, Fault> {
    if toks == [] then Ok(doc)
    else
      match Step(doc, toks[0])
      case Err(f) => Err(f)
      case Ok(child) => ResolveTokens(child, toks[1..])
  }

  function Resolve(doc: Json, path: string): Result<Json, Fault> {
    match SplitPointer(path)
    case None => Err(NotAPointer(path))
    case Some(toks) => ResolveTokens(doc, toks)
  }

  /** What happens at the end of the walk to the parent of the last token. */
  function AddInto(node: Json, last: string, value: Json): Result<Json, Fault> {
    match node
    case Obj(m) => Ok(Obj(m[last := value]))
    case Arr(a) =>
      if last == "-" then Ok(Arr(a + [value]))
      else
        (match ParseIndex(last)
         case None => Err(BadIndex(last))
         case Some(i) => if i > |a| then Err(OutOfBounds(i, |a|)) else Ok(Arr(a[..i] + [value] + a[i..])))
    case _ => Err(AddsIntoScalar)
  }

  function RemoveFrom(node: Json, last: string): Result<Json, Fault> {
    match node
    case Obj(m) => if last in m then Ok(Obj(m - {last})) else Err(NoMember(last))
    case Arr(a) =>
      (match ParseIndex(last)
       case None => Err(BadIndex(last))
       case Some(i) => if i >= |a| then Err(OutOfBounds(i, |a|)) else Ok(Arr(a[..i] + a[i + 1..])))
    case _ => Err(RemovesFromScalar)
  }

  function ReplaceIn(node: Json, last: string, value: Json): Result<Json, Fault> {
    match HopOf(node, last)
    case Err(f) => Err(f)
    case Ok(h) => HopHasChild(node, last); Ok(WithChild(node, h, value))
  }

  /** The edit made at the end of a walk. */
  datatype Edit = AddEdit(value: Json) | RemoveEdit | ReplaceEdit(value: Json)

  function EditAt(node: Json, last: string, edit: Edit): Result<Json, Fault> {
    match edit
    case AddEdit(v) => AddInto(node, last, v)
    case RemoveEdit => RemoveFrom(node, last)
    case ReplaceEdit(v) => ReplaceIn(node, last, v)
  }

  /** Walks to the parent of the last token and edits there. */
  function EditTokens(doc: Json, toks: seq<string>, edit: Edit): Result<Json, Fault>
    requires toks != []
  {
    if |toks| == 1 then EditAt(doc, toks[0], edit)
    else
      match HopOf(doc, toks[0])
      case Err(f) => Err(f)
      case Ok(h) =>
        HopHasChild(doc, toks[0]);
        match EditTokens(Child(doc, h), toks[1..], edit)
        case Err(f) => Err(f)
        case Ok(child) => Ok(WithChild(doc, h, child))
  }

  /** The edit of a whole document: the root has no parent. */
  function EditDocument(doc: Json, path: string, edit: Edit): Result<Json, Fault> {
    match SplitPointer(path)
    case None => Err(NotAPointer(path))
    case Some(toks) =>
      if toks == [] then (match edit case RemoveEdit => Err(RemovesRoot) case _ => Ok(edit.value))
      else EditTokens(doc, toks, edit)
  }

  function ApplyOne(doc: Json, op: PatchOp): Result<Json, Fault> {
    match op
    case Test(path, value) =>
      (match Resolve(doc, path)
       case Err(f) => Err(f)
       case Ok(cur) => if cur == value then Ok(doc) else Err(TestFailed(path)))
    case Replace(path, value) => EditDocument(doc, path, ReplaceEdit(value))
    case Remove(path) => EditDocument(doc, path, RemoveEdit)
    case Add(path, value) => EditDocument(doc, path, AddEdit(value))
  }

  /** The operations in order, up to the first that fails. */
  function ApplyAll(doc: Json, ops: seq<PatchOp>): Result<Json, PatchError> {
    if ops == [] then Ok(doc)
    else
      match ApplyAll(doc, ops[..|ops| - 1])
      case Err(e) => Err(e)
      case Ok(d) =>
        match ApplyOne(d, ops[|ops| - 1])
        case Err(f) => Err(PatchError(|ops| - 1, f))
        case Ok(r) => Ok(r)
  }

  // ---------------------------------------------------------------- the loops

  /** The walk along a path. */
  method WalkTo(doc: Json, toks: seq<string>) returns (r: Result<Json, Fault>)
    ensures r == ResolveTokens(doc, toks)
  {
    var node := doc;
    for i := 0 to |toks|
      invariant ResolveTokens(doc, toks) == ResolveTokens(node, toks[i..])
    {
      var next := Step(node, toks[i]);
      assert toks[i..][1..] == toks[i + 1..];
      if next.Err? { return next; }
      node := next.value;
    }
    return Ok(node);
  }

  lemma ApplyStep(doc: Json, ops: seq<PatchOp>, i: nat)
    requires i < |ops|
    ensures ApplyAll(doc, ops[..i + 1]) ==
      match ApplyAll(doc, ops[..i])
      case Err(e) => Err(e)
      case Ok(d) => match ApplyOne(d, ops[i]) case Err(f) => Err(PatchError(i, f)) case Ok(r) => Ok(r)
  {
    assert ops[..i + 1][..i] == ops[..i];
  }

  lemma {:induction false} FaultPersists(doc: Json, ops: seq<PatchOp>, i: nat)
    requires i <= |ops| && ApplyAll(doc, ops[..i]).Err?
    ensures ApplyAll(doc, ops) == ApplyAll(doc, ops[..i])
    decreases |ops| - i
  {
    if i == |ops| {
      assert ops[..i] == ops;
    } else {
      ApplyStep(doc, ops, i);
      FaultPersists(doc, ops, i + 1);
    }
  }

  /** Applies the operations one after another and stops at the first fault, which carries the
      index of its operation. A document the schema does not accept is never returned. */
  method ApplyPatch(contract: Json, ops: seq<PatchOp>, accepts: Json -> bool) returns (r: Result<Json, PatchError>)
    ensures ApplyAll(contract, ops).Err? ==> r == ApplyAll(contract, ops)
    ensures ApplyAll(contract, ops).Ok? && accepts(ApplyAll(contract, ops).value) ==> r == ApplyAll(contract, ops)
    ensures ApplyAll(contract, ops).Ok? && !accepts(ApplyAll(contract, ops).value) ==>
        r == Err(PatchError(if |ops| == 0 then 0 else |ops| - 1, FailsSchema))
  {
    var doc := contract;
    for i := 0 to |ops|
      invariant ApplyAll(contract, ops[..i]) == Ok(doc)
    {
      ApplyStep(contract, ops, i);
      var next := ApplyOne(doc, ops[i]);
      if next.Err? {
        FaultPersists(contract, ops, i + 1);
        return Err(PatchError(i, next.error));
      }
      doc := next.value;
    }
    assert ops[..|ops|] == ops;
    if !accepts(doc) { return Err(PatchError(if |ops| == 0 then 0 else |ops| - 1, FailsSchema)); }
    return Ok(doc);
  }
}
