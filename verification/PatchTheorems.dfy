/** The algebra of patches, over all documents. */
module PatchTheorems {
  import opened Common
  import opened Json
  import opened Pointer
  import opened Text
  import opened Patch

  // ---------------------------------------------------------------- composition

  function Offset(r: Result<Json, PatchError>, n: nat): Result<Json, PatchError> {
    match r case Ok(d) => Ok(d) case Err(e) => Err(PatchError(n + e.opIndex, e.fault))
  }

  /** One more operation after a result. */
  function Then(r: Result<Json, PatchError>, i: nat, op: PatchOp): Result<Json, PatchError> {
    match r
    case Err(e) => Err(e)
    case Ok(d) => match ApplyOne(d, op) case Err(f) => Err(PatchError(i, f)) case Ok(d') => Ok(d')
  }

  lemma ApplySnoc(doc: Json, s: seq<PatchOp>, op: PatchOp)
    ensures ApplyAll(doc, s + [op]) == Then(ApplyAll(doc, s), |s|, op)
  {
    assert (s + [op])[..|s|] == s;
  }

  lemma ThenOffset(r: Result<Json, PatchError>, n: nat, m: nat, op: PatchOp)
    ensures Then(Offset(r, n), n + m, op) == Offset(Then(r, m, op), n)
  {
  }

  /** Applying p then q is applying p ++ q, and a fault in q is reported at its place in p ++ q. */
  lemma {:induction false} ComposePatches(doc: Json, p: seq<PatchOp>, d: Json, q: seq<PatchOp>)
    requires ApplyAll(doc, p) == Ok(d)
    ensures ApplyAll(doc, p + q) == Offset(ApplyAll(d, q), |p|)
    decreases |q|
  {
    if q == [] {
      assert p + q == p;
    } else {
      var init, op := q[..|q| - 1], q[|q| - 1];
      SplitLast(p, q, init, op);
      ComposePatches(doc, p, d, init);
      ComposeLast(doc, p + init, d, init, |p|, op);
    }
  }

  lemma ComposeLast(doc: Json, s: seq<PatchOp>, d: Json, t: seq<PatchOp>, n: nat, op: PatchOp)
    requires |s| == n + |t| && ApplyAll(doc, s) == Offset(ApplyAll(d, t), n)
    ensures ApplyAll(doc, s + [op]) == Offset(ApplyAll(d, t + [op]), n)
  {
    ApplySnoc(doc, s, op);
    ApplySnoc(d, t, op);
    ThenOffset(ApplyAll(d, t), n, |t|, op);
  }

  lemma SplitLast(p: seq<PatchOp>, q: seq<PatchOp>, init: seq<PatchOp>, op: PatchOp)
    requires q != [] && init == q[..|q| - 1] && op == q[|q| - 1]
    ensures q == init + [op] && p + q == (p + init) + [op]
  {
  }

  /** A fault in p is the fault of p ++ q. */
  lemma FaultFirst(doc: Json, p: seq<PatchOp>, q: seq<PatchOp>)
    requires ApplyAll(doc, p).Err?
    ensures ApplyAll(doc, p + q) == ApplyAll(doc, p)
  {
    assert (p + q)[..|p|] == p;
    FaultPersists(doc, p + q, |p|);
  }

  // ---------------------------------------------------------------- add and remove

  /** Adding here puts the value at a place of its own: a member that was absent, or a
      position of an array written as an index. */
  predicate FreshPlace(parent: Json, last: string) {
    match parent
    case Obj(m) => last !in m
    case Arr(a) => last != "-"
    case _ => true
  }

  /** The parent of the last token. */
  function ParentOf(doc: Json, toks: seq<string>): Result<Json, Fault>
    requires toks != []
  {
    ResolveTokens(doc, toks[..|toks| - 1])
  }

  lemma WithChildTwice(node: Json, h: Hop, a: Json, b: Json)
    requires HasChild(node, h)
    ensures WithChild(WithChild(node, h, a), h, b) == WithChild(node, h, b)
    ensures WithChild(node, h, Child(node, h)) == node
  {
    match h
    case Key(k) =>
      assert node.members[k := a][k := b] == node.members[k := b];
      assert node.members[k := node.members[k]] == node.members;
    case At(i) =>
      assert node.items[i := a][i := b] == node.items[i := b];
      assert node.items[i := node.items[i]] == node.items;
  }

  /** A token leads to the same place after a child is replaced. */
  lemma HopAfter(node: Json, h: Hop, child: Json, tok: string)
    requires HasChild(node, h)
    ensures HopOf(WithChild(node, h, child), tok) == HopOf(node, tok)
  {
  }

  lemma {:induction false} ParentStep(doc: Json, toks: seq<string>)
    requires |toks| > 1
    ensures
      ParentOf(doc, toks) == match Step(doc, toks[0]) case Err(f) => Err(f) case Ok(child) => ParentOf(child, toks[1..])
  {
    var init := toks[..|toks| - 1];
    assert init[0] == toks[0] && init[1..] == toks[1..][..|toks[1..]| - 1];
  }

  lemma InsertThenDelete(a: seq<Json>, i: nat, v: Json)
    requires i <= |a|
    ensures var b := a[..i] + [v] + a[i..]; |b| == |a| + 1 && b[i] == v && b[..i] + b[i + 1..] == a
  {
    var b := a[..i] + [v] + a[i..];
    assert b[..i] == a[..i] && b[i + 1..] == a[i..];
  }

  lemma DeleteThenInsert(a: seq<Json>, i: nat)
    requires i < |a|
    ensures var b := a[..i] + a[i + 1..]; |b| == |a| - 1 && b[..i] + [a[i]] + b[i..] == a
  {
    var b := a[..i] + a[i + 1..];
    assert b[..i] == a[..i] && b[i..] == a[i + 1..];
  }

  lemma AddThenRemoveAt(parent: Json, last: string, v: Json)
    requires AddInto(parent, last, v).Ok?
    ensures RemoveFrom(AddInto(parent, last, v).value, last) == Ok(parent) <==> FreshPlace(parent, last)
  {
    match parent
    case Obj(m) =>
      var r := m[last := v] - {last};
      if last !in m { assert r == m; } else { assert last !in r; }
    case Arr(a) =>
      if last != "-" {
        InsertThenDelete(a, ParseIndex(last).value, v);
      } else {
        assert ParseIndex("-") == None;
      }
  }

  /** Removing what was just added restores the document exactly when the add made a place of
      its own: a member that was absent, or an array position written as an index. */
  lemma {:induction false} AddThenRemove(doc: Json, toks: seq<string>, v: Json)
    requires toks != [] && EditTokens(doc, toks, AddEdit(v)).Ok?
    ensures ParentOf(doc, toks).Ok?
    ensures EditTokens(EditTokens(doc, toks, AddEdit(v)).value, toks, RemoveEdit) == Ok(doc) <==>
        FreshPlace(ParentOf(doc, toks).value, toks[|toks| - 1])
    decreases |toks|
  {
    if |toks| == 1 {
      assert toks[..0] == [];
      AddThenRemoveAt(doc, toks[0], v);
    } else {
      var h := HopOf(doc, toks[0]).value;
      HopHasChild(doc, toks[0]);
      var child := Child(doc, h);
      AddThenRemove(child, toks[1..], v);
      ParentStep(doc, toks);
      var child' := EditTokens(child, toks[1..], AddEdit(v)).value;
      HopAfter(doc, h, child', toks[0]);
      RebuildChild(doc, h, child', EditTokens(child', toks[1..], RemoveEdit));
    }
  }

  /** Putting a child's result back gives the document back exactly when the child is back. */
  lemma RebuildChild(doc: Json, h: Hop, child': Json, back: Result<Json, Fault>)
    requires HasChild(doc, h)
    ensures back.Ok? ==> (WithChild(WithChild(doc, h, child'), h, back.value) == doc <==> back.value == Child(doc, h))
  {
    if back.Ok? {
      WithChildTwice(doc, h, child', back.value);
      assert Child(WithChild(doc, h, back.value), h) == back.value;
    }
  }

  lemma RemoveThenAddAt(parent: Json, last: string)
    requires RemoveFrom(parent, last).Ok?
    ensures
      Step(parent, last).Ok? && AddInto(RemoveFrom(parent, last).value, last, Step(parent, last).value) == Ok(parent)
  {
    match parent
    case Obj(m) => assert (m - {last})[last := m[last]] == m;
    case Arr(a) => DeleteThenInsert(a, ParseIndex(last).value);
  }

  /** Adding back what was removed restores the document, at every path that can be removed. */
  lemma {:induction false} RemoveThenAdd(doc: Json, toks: seq<string>)
    requires toks != [] && EditTokens(doc, toks, RemoveEdit).Ok?
    ensures ResolveTokens(doc, toks).Ok?
    ensures
      EditTokens(EditTokens(doc, toks, RemoveEdit).value, toks, AddEdit(ResolveTokens(doc, toks).value)) == Ok(doc)
    decreases |toks|
  {
    if |toks| == 1 {
      RemoveThenAddAt(doc, toks[0]);
      assert toks[1..] == [];
    } else {
      var h := HopOf(doc, toks[0]).value;
      HopHasChild(doc, toks[0]);
      var child := Child(doc, h);
      RemoveThenAdd(child, toks[1..]);
      var child' := EditTokens(child, toks[1..], RemoveEdit).value;
      HopAfter(doc, h, child', toks[0]);
      WithChildTwice(doc, h, child', child);
    }
  }

  // ---------------------------------------------------------------- replace

  /** The place a list of tokens leads to: member names and numeric positions. */
  function Locate(doc: Json, toks: seq<string>): Option<seq<Hop>> {
    if toks == [] then Some([])
    else
      match HopOf(doc, toks[0])
      case Err(_) => None
      case Ok(h) =>
        HopHasChild(doc, toks[0]);
        match Locate(Child(doc, h), toks[1..]) case None => None case Some(rest) => Some([h] + rest)
  }

  /** Tokens resolve exactly when they lead to a place. */
  lemma {:induction false} LocateIffResolve(doc: Json, toks: seq<string>)
    ensures Locate(doc, toks).Some? <==> ResolveTokens(doc, toks).Ok?
    decreases |toks|
  {
    if toks != [] && HopOf(doc, toks[0]).Ok? {
      HopHasChild(doc, toks[0]);
      LocateIffResolve(Child(doc, HopOf(doc, toks[0]).value), toks[1..]);
    }
  }

  /** A replace needs its target, and puts the value there. */
  lemma {:induction false} ReplaceHits(doc: Json, toks: seq<string>, v: Json)
    requires toks != []
    ensures EditTokens(doc, toks, ReplaceEdit(v)).Ok? <==> ResolveTokens(doc, toks).Ok?
    ensures EditTokens(doc, toks, ReplaceEdit(v)).Ok? ==>
        ResolveTokens(EditTokens(doc, toks, ReplaceEdit(v)).value, toks) == Ok(v)
    decreases |toks|
  {
    if HopOf(doc, toks[0]).Ok? {
      var h := HopOf(doc, toks[0]).value;
      HopHasChild(doc, toks[0]);
      if |toks| == 1 {
        assert toks[1..] == [];
        HopAfter(doc, h, v, toks[0]);
      } else {
        var child := Child(doc, h);
        ReplaceHits(child, toks[1..], v);
        var r := EditTokens(child, toks[1..], ReplaceEdit(v));
        if r.Ok? { HopAfter(doc, h, r.value, toks[0]); }
      }
    }
  }

  ghost predicate IsPrefix(a: seq<Hop>, b: seq<Hop>) { |a| <= |b| && b[..|a|] == a }

  lemma OtherChild(node: Json, h: Hop, g: Hop, child: Json)
    requires HasChild(node, h) && HasChild(node, g) && g != h
    ensures HasChild(WithChild(node, h, child), g) && Child(WithChild(node, h, child), g) == Child(node, g)
  {
  }

  lemma PrefixOfCons(h: Hop, p: seq<Hop>, q: seq<Hop>)
    ensures IsPrefix([h] + p, [h] + q) <==> IsPrefix(p, q)
    ensures IsPrefix([], q)
  {
    if |p| <= |q| {
      assert ([h] + q)[..1 + |p|] == [h] + q[..|p|];
      assert ([h] + p)[1..] == p && ([h] + q[..|p|])[1..] == q[..|p|];
    }
  }

  /** A replace leaves every other resolved place, and everything under it, as it was: the two
      places are compared as places, since one place can be written with several tokens. */
  lemma {:induction false} ReplaceFrame(doc: Json, p: seq<string>, q: seq<string>, v: Json)
    requires p != [] && EditTokens(doc, p, ReplaceEdit(v)).Ok? && Locate(doc, p).Some? && Locate(doc, q).Some?
    requires
      !IsPrefix(Locate(doc, p).value, Locate(doc, q).value) && !IsPrefix(Locate(doc, q).value, Locate(doc, p).value)
    ensures ResolveTokens(EditTokens(doc, p, ReplaceEdit(v)).value, q) == ResolveTokens(doc, q)
    decreases |p|
  {
    if q != [] {
      var h, g := HopOf(doc, p[0]).value, HopOf(doc, q[0]).value;
      HopHasChild(doc, p[0]);
      HopHasChild(doc, q[0]);
      var child' := if |p| == 1 then v else EditTokens(Child(doc, h), p[1..], ReplaceEdit(v)).value;
      assert EditTokens(doc, p, ReplaceEdit(v)).value == WithChild(doc, h, child');
      HopAfter(doc, h, child', q[0]);
      if g != h {
        OtherChild(doc, h, g, child');
      } else {
        SharedHop(doc, p, q, v, h, child');
      }
    }
  }

  lemma {:induction false} SharedHop(doc: Json, p: seq<string>, q: seq<string>, v: Json, h: Hop, child': Json)
    requires p != [] && q != [] && HopOf(doc, p[0]) == Ok(h) == HopOf(doc, q[0]) && HasChild(doc, h)
    requires
      && EditTokens(doc, p, ReplaceEdit(v)) == Ok(WithChild(doc, h, child')) && Locate(doc, p).Some?
      && Locate(doc, q).Some?
    requires child' == if |p| == 1 then v else EditTokens(Child(doc, h), p[1..], ReplaceEdit(v)).value
    requires
      !IsPrefix(Locate(doc, p).value, Locate(doc, q).value) && !IsPrefix(Locate(doc, q).value, Locate(doc, p).value)
    ensures ResolveTokens(WithChild(doc, h, child'), q) == ResolveTokens(doc, q)
    decreases |p|, 0
  {
    var child := Child(doc, h);
    var lp, lq := Locate(child, p[1..]).value, Locate(child, q[1..]).value;
    PrefixOfCons(h, lp, lq);
    PrefixOfCons(h, lq, lp);
    HopAfter(doc, h, child', q[0]);
    assert p[1..] == [] ==> lp == [];
    ReplaceFrame(child, p[1..], q[1..], v);
  }

  lemma LocateItem(a: seq<Json>, tok: string, i: nat)
    requires ParseIndex(tok) == Some(i) && i < |a|
    ensures Locate(Arr(a), [tok]) == Some([At(i)])
  {
    assert [tok][1..] == [];
    assert [At(i)] + [] == [At(i)];
  }

  /** Tokens alone do not tell places apart: "0", "00" and "+0" name the same item. */
  lemma IndexAliases(a: seq<Json>)
    requires a != []
    ensures
      && Locate(Arr(a), ["0"]) == Some([At(0)]) && Locate(Arr(a), ["00"]) == Some([At(0)])
      && Locate(Arr(a), ["+0"]) == Some([At(0)])
  {
    assert ParseIndex("0") == Some(0);
    assert "00"[..1] == "0" && DecimalValue("00") == 0;
    assert "+0"[1..] == "0";
    LocateItem(a, "0", 0);
    LocateItem(a, "00", 0);
    LocateItem(a, "+0", 0);
  }
}
