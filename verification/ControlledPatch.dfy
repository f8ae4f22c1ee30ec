/** The runtime's own replace-only applier, and its agreement with the patch engine. */
module ControlledPatch {
  import opened Common
  import opened Json
  import opened Pointer
  import opened Text
  import opened Patch

  datatype Refusal = RootPath | IndexOutside | PathAbsent | LeafIndexOutside | TargetAbsent | NotAnObject

  /** A replace operation; the applier refuses every other shape before looking at paths. */
  datatype ReplaceOp = ReplaceOp(path: string, value: Json)

  /** The tokens of a non-root pointer; the pointer "/" is refused too. */
  function Tokens(path: string): Option<seq<string>> {
    if path == [] || path[0] != '/' || path == "/" then None else SplitPointer(path)
  }

  /** Into a child on the way to the parent. */
  function Descend(parent: Json, token: string): Result<Hop, Refusal> {
    match parent
    case Arr(a) =>
      if !Digits(token) || DecimalValue(token) >= |a| then Err(IndexOutside) else Ok(At(DecimalValue(token)))
    case Obj(m) => if token in m then Ok(Key(token)) else Err(PathAbsent)
    case _ => Err(PathAbsent)
  }

  /** At the leaf. */
  function LeafOf(parent: Json, leaf: string): Result<Hop, Refusal> {
    match parent
    case Arr(a) =>
      if !Digits(leaf) || DecimalValue(leaf) >= |a| then Err(LeafIndexOutside) else Ok(At(DecimalValue(leaf)))
    case Obj(m) => if leaf in m then Ok(Key(leaf)) else Err(TargetAbsent)
    case _ => Err(TargetAbsent)
  }

  function ReplaceAt(doc: Json, toks: seq<string>, value: Json): Result<Json, Refusal>
    requires toks != []
  {
    if |toks| == 1 then
      match LeafOf(doc, toks[0])
      case Err(r) => Err(r)
      case Ok(h) => Ok(WithChild(doc, h, value))
    else
      match Descend(doc, toks[0])
      case Err(r) => Err(r)
      case Ok(h) =>
        match ReplaceAt(Child(doc, h), toks[1..], value)
        case Err(r) => Err(r)
        case Ok(child) => Ok(WithChild(doc, h, child))
  }

  lemma TokensAreSome(path: string)
    requires Tokens(path).Some?
    ensures Tokens(path).value != [] && SplitPointer(path) == Tokens(path)
  {
  }

  function ControlOne(doc: Json, op: ReplaceOp): Result<Json, Refusal> {
    match Tokens(op.path)
    case None => Err(RootPath)
    case Some(toks) => TokensAreSome(op.path); ReplaceAt(doc, toks, op.value)
  }

  function ControlAll(doc: Json, ops: seq<ReplaceOp>): Result<Json, Refusal> {
    if ops == [] then Ok(doc)
    else
      match ControlAll(doc, ops[..|ops| - 1])
      case Err(r) => Err(r)
      case Ok(d) => ControlOne(d, ops[|ops| - 1])
  }

  lemma {:induction false} RefusalPersists(doc: Json, ops: seq<ReplaceOp>, i: nat)
    requires i <= |ops| && ControlAll(doc, ops[..i]).Err?
    ensures ControlAll(doc, ops) == ControlAll(doc, ops[..i])
    decreases |ops| - i
  {
    if i == |ops| {
      assert ops[..i] == ops;
    } else {
      assert ops[..i + 1][..i] == ops[..i];
      RefusalPersists(doc, ops, i + 1);
    }
  }

  /** Replaces on a copy, one operation after another; the result must still be an object. */
  method ApplyControlledPatch(contract: Json, ops: seq<ReplaceOp>) returns (r: Result<Json, Refusal>)
    ensures contract.Obj? ==> r == ControlAll(contract, ops)
    ensures !contract.Obj? ==> r.Err?
  {
    var doc := contract;
    for i := 0 to |ops|
      invariant ControlAll(contract, ops[..i]) == Ok(doc) && (contract.Obj? <==> doc.Obj?)
    {
      assert ops[..i + 1][..i] == ops[..i];
      var next := ControlOne(doc, ops[i]);
      if next.Err? {
        RefusalPersists(contract, ops, i + 1);
        return next;
      }
      RootKindStays(doc, ops[i]);
      doc := next.value;
    }
    assert ops[..|ops|] == ops;
    if !doc.Obj? { return Err(NotAnObject); }
    return Ok(doc);
  }

  /** A replace below the root leaves an object an object. */
  lemma RootKindStays(doc: Json, op: ReplaceOp)
    requires ControlOne(doc, op).Ok?
    ensures ControlOne(doc, op).value.Obj? <==> doc.Obj?
  {
    TokensAreSome(op.path);
  }

  // ---------------------------------------------------------------- agreement

  function AsOp(op: ReplaceOp): PatchOp { Replace(op.path, op.value) }

  function AsOps(ops: seq<ReplaceOp>): seq<PatchOp> { seq(|ops|, i requires 0 <= i < |ops| => AsOp(ops[i])) }

  /** The token begins with a plus sign, the one spelling of an index that only the engine reads. */
  predicate Signed(tok: string) { tok != [] && tok[0] == '+' }

  /** Some array on the way is indexed by a token with a plus sign. */
  predicate SignedStep(doc: Json, toks: seq<string>) {
    && toks != []
    && ((doc.Arr? && Signed(toks[0]))
        || (Step(doc, toks[0]).Ok? && SignedStep(Step(doc, toks[0]).value, toks[1..])))
  }

  lemma DescendIsHop(node: Json, tok: string)
    ensures Descend(node, tok).Ok? ==> HopOf(node, tok) == Ok(Descend(node, tok).value)
    ensures LeafOf(node, tok).Ok? ==> HopOf(node, tok) == Ok(LeafOf(node, tok).value)
    ensures Descend(node, tok).Ok? <==> HopOf(node, tok).Ok? && !(node.Arr? && Signed(tok))
    ensures LeafOf(node, tok).Ok? <==> HopOf(node, tok).Ok? && !(node.Arr? && Signed(tok))
  {
    if Digits(tok) { assert IsDigit(tok[0]); }
  }

  /** The applier accepts exactly what the engine accepts without a signed array step, and then
      with the same document. */
  lemma {:induction false} ReplacesAgree(doc: Json, toks: seq<string>, v: Json)
    requires toks != []
    ensures ReplaceAt(doc, toks, v).Ok? ==> EditTokens(doc, toks, ReplaceEdit(v)) == Ok(ReplaceAt(doc, toks, v).value)
    ensures ReplaceAt(doc, toks, v).Ok? <==> EditTokens(doc, toks, ReplaceEdit(v)).Ok? && !SignedStep(doc, toks)
    decreases |toks|
  {
    DescendIsHop(doc, toks[0]);
    if HopOf(doc, toks[0]).Ok? {
      var h := HopOf(doc, toks[0]).value;
      HopHasChild(doc, toks[0]);
      if |toks| > 1 { ReplacesAgree(Child(doc, h), toks[1..], v); }
    }
  }

  /** Both read the path alike in this document: it is neither the root pointer nor "/", and no
      array on its way is indexed with a plus sign. */
  predicate Alike(doc: Json, path: string) { Tokens(path).Some? && !SignedStep(doc, Tokens(path).value) }

  lemma OneAgrees(doc: Json, op: ReplaceOp)
    ensures ControlOne(doc, op).Ok? ==> ApplyOne(doc, AsOp(op)) == Ok(ControlOne(doc, op).value)
    ensures ControlOne(doc, op).Ok? <==> ApplyOne(doc, AsOp(op)).Ok? && Alike(doc, op.path)
  {
    if Tokens(op.path).Some? {
      TokensAreSome(op.path);
      ReplacesAgree(doc, Tokens(op.path).value, op.value);
    }
  }

  /** Every operation reads alike in the document that the engine has reached by then. */
  predicate AllAlike(doc: Json, ops: seq<ReplaceOp>) {
    if ops == [] then true
    else
      var init := ops[..|ops| - 1];
      && AllAlike(doc, init)
      && match ApplyAll(doc, AsOps(init))
         case Err(_) => true
         case Ok(d) => Alike(d, ops[|ops| - 1].path)
  }

  lemma AllAlikeStep(doc: Json, init: seq<ReplaceOp>, op: ReplaceOp)
    ensures AllAlike(doc, init + [op]) <==>
      && AllAlike(doc, init)
      && (ApplyAll(doc, AsOps(init)).Ok? ==> Alike(ApplyAll(doc, AsOps(init)).value, op.path))
    ensures ControlAll(doc, init + [op])
      == match ControlAll(doc, init) case Err(r) => Err(r) case Ok(d) => ControlOne(d, op)
  {
    assert (init + [op])[..|init|] == init;
  }

  lemma EngineStep(doc: Json, init: seq<ReplaceOp>, op: ReplaceOp)
    ensures ApplyAll(doc, AsOps(init + [op]))
      == match ApplyAll(doc, AsOps(init))
         case Err(e) => Err(e)
         case Ok(d) => match ApplyOne(d, AsOp(op)) case Err(f) => Err(PatchError(|init|, f)) case Ok(r) => Ok(r)
  {
    assert AsOps(init + [op])[..|init|] == AsOps(init) && AsOps(init + [op])[|init|] == AsOp(op);
  }

  /** The applier accepts a patch exactly when the engine does and every operation reads alike,
      and then with the same document. */
  lemma {:induction false} EnginesAgree(doc: Json, ops: seq<ReplaceOp>)
    ensures ControlAll(doc, ops).Ok? ==> ApplyAll(doc, AsOps(ops)) == Ok(ControlAll(doc, ops).value)
    ensures ControlAll(doc, ops).Ok? <==> ApplyAll(doc, AsOps(ops)).Ok? && AllAlike(doc, ops)
    decreases |ops|
  {
    if ops != [] {
      var init, op := ops[..|ops| - 1], ops[|ops| - 1];
      assert ops == init + [op];
      EnginesAgree(doc, init);
      EnginesAgreeStep(doc, init, op);
    }
  }

  lemma EnginesAgreeStep(doc: Json, init: seq<ReplaceOp>, op: ReplaceOp)
    requires ControlAll(doc, init).Ok? ==> ApplyAll(doc, AsOps(init)) == Ok(ControlAll(doc, init).value)
    requires ControlAll(doc, init).Ok? <==> ApplyAll(doc, AsOps(init)).Ok? && AllAlike(doc, init)
    ensures ControlAll(doc, init + [op]).Ok? ==>
      ApplyAll(doc, AsOps(init + [op])) == Ok(ControlAll(doc, init + [op]).value)
    ensures ControlAll(doc, init + [op]).Ok? <==>
      ApplyAll(doc, AsOps(init + [op])).Ok? && AllAlike(doc, init + [op])
  {
    AllAlikeStep(doc, init, op);
    EngineStep(doc, init, op);
    if ControlAll(doc, init).Ok? { OneAgrees(ControlAll(doc, init).value, op); }
  }

  /** A path that reads alike in every document: below the root, not "/", no plus sign in front
      of a token. */
  ghost predicate PlainPath(path: string) {
    Tokens(path).Some? && forall i :: 0 <= i < |Tokens(path).value| ==> !Signed(Tokens(path).value[i])
  }

  lemma {:induction false} UnsignedTokens(doc: Json, toks: seq<string>)
    requires forall i :: 0 <= i < |toks| ==> !Signed(toks[i])
    ensures !SignedStep(doc, toks)
    decreases |toks|
  {
    if toks != [] && HopOf(doc, toks[0]).Ok? {
      HopHasChild(doc, toks[0]);
      UnsignedTokens(Child(doc, HopOf(doc, toks[0]).value), toks[1..]);
    }
  }

  /** On plain paths the two accept the same patches of any document. */
  lemma {:induction false} PlainPathsAgree(doc: Json, ops: seq<ReplaceOp>)
    requires forall i :: 0 <= i < |ops| ==> PlainPath(ops[i].path)
    ensures AllAlike(doc, ops)
    ensures ControlAll(doc, ops).Ok? <==> ApplyAll(doc, AsOps(ops)).Ok?
    decreases |ops|
  {
    EnginesAgree(doc, ops);
    if ops != [] {
      var last := |ops| - 1;
      PlainPathsAgree(doc, ops[..last]);
      match ApplyAll(doc, AsOps(ops[..last])) {
        case Err(_) =>
        case Ok(d) => UnsignedTokens(d, Tokens(ops[last].path).value);
      }
    }
  }

  /** The three ways in which only the engine accepts: a signed array index, the pointer "/", and
      the root pointer, with which the engine replaces any document. */
  lemma OnlyTheEngineAccepts(doc: Json, v: Json)
    ensures ApplyOne(Arr([Null]), Replace("/+0", v)).Ok? && ControlOne(Arr([Null]), ReplaceOp("/+0", v)).Err?
    ensures
      ApplyOne(Obj(map["" := Null]), Replace("/", v)).Ok? && ControlOne(Obj(map["" := Null]), ReplaceOp("/", v)).Err?
    ensures ApplyOne(doc, Replace("", v)) == Ok(v) && ControlOne(doc, ReplaceOp("", v)).Err?
  {
    SignedPath(v);
    SlashPath(v);
  }

  lemma SignedPath(v: Json)
    ensures ApplyOne(Arr([Null]), Replace("/+0", v)).Ok? && ControlOne(Arr([Null]), ReplaceOp("/+0", v)).Err?
  {
    PointerRoundTrip(["+0"]);
    assert Join(["+0"]) == "/+0" by { JoinPlain(); }
    assert "+0"[1..] == "0" && ParseIndex("+0") == Some(0);
    assert !IsDigit("+0"[0]);
  }

  lemma JoinPlain()
    ensures Join(["+0"]) == "/+0" && Join([""]) == "/"
  {
    assert ["+0"][1..] == [] && [""][1..] == [];
    assert "+0"[1..] == "0" && "0"[1..] == "";
    assert Escape("0") == "0";
    assert Escape("+0") == "+0";
  }

  lemma SlashPath(v: Json)
    ensures
      ApplyOne(Obj(map["" := Null]), Replace("/", v)).Ok? && ControlOne(Obj(map["" := Null]), ReplaceOp("/", v)).Err?
  {
    PointerRoundTrip([""]);
    JoinPlain();
  }
}
