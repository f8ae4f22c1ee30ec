/** The worklist against the recursive product, for skeletons whose same-named nodes agree. */
module SkeletonTheorems {
  import opened Common
  import opened Skeleton

  /** Nodes of one name agree in parent and own transform; unique names are the common case. */
  ghost predicate Agreeing<M>(rig: Rig<M>, s: seq<Node>) {
    forall m, n :: m in s && n in s && m.name == n.name ==> m.parent == n.parent && rig.local(m) == rig.local(n)
  }

  /** A node, its parent, and so on up to a root. */
  ghost predicate IsChain(skeleton: seq<Node>, path: seq<Node>) {
    && path != []
    && (forall i :: 0 <= i < |path| ==> path[i] in skeleton)
    && (forall i :: 0 <= i < |path| - 1 ==> path[i].parent == Some(path[i + 1].name))
    && path[|path| - 1].parent == None
  }

  /** The product of the transforms along a chain, root first. */
  ghost function Product<M>(rig: Rig<M>, path: seq<Node>): M
    requires path != []
  {
    if |path| == 1 then rig.mul(rig.root, rig.local(path[0]))
    else rig.mul(Product(rig, path[1..]), rig.local(path[0]))
  }

  ghost predicate Grounded(skeleton: seq<Node>, n: Node) {
    exists path: seq<Node> :: IsChain(skeleton, path) && path[0] == n
  }

  // ---------------------------------------------------------------- chains of one name

  lemma ChainTail(skeleton: seq<Node>, path: seq<Node>)
    requires IsChain(skeleton, path) && |path| > 1
    ensures IsChain(skeleton, path[1..]) && path[0].parent == Some(path[1].name)
  {
  }

  /** Chains from nodes of one name have one product. */
  lemma {:induction false} ProductByName<M>(rig: Rig<M>, skeleton: seq<Node>, p: seq<Node>, q: seq<Node>)
    requires Agreeing(rig, skeleton) && IsChain(skeleton, p) && IsChain(skeleton, q) && p[0].name == q[0].name
    ensures Product(rig, p) == Product(rig, q)
    decreases |p|
  {
    assert p[0].parent == q[0].parent && rig.local(p[0]) == rig.local(q[0]);
    if |p| > 1 && |q| > 1 {
      ChainTail(skeleton, p);
      ChainTail(skeleton, q);
      ProductByName(rig, skeleton, p[1..], q[1..]);
    }
  }

  /** A chain can start from any node of its first node's name. */
  lemma Reseat<M>(rig: Rig<M>, skeleton: seq<Node>, path: seq<Node>, n: Node)
    requires Agreeing(rig, skeleton) && IsChain(skeleton, path) && n in skeleton && n.name == path[0].name
    ensures IsChain(skeleton, [n] + path[1..])
  {
    var q := [n] + path[1..];
    assert forall i :: 1 <= i < |path| ==> q[i] == path[i];
    assert n.parent == path[0].parent;
  }

  // ---------------------------------------------------------------- what a pass keeps

  /** The nodes whose name is not among `done`, in order. */
  ghost function Unresolved(s: seq<Node>, done: set<string>): seq<Node> {
    if s == [] then [] else (if s[0].name in done then [] else [s[0]]) + Unresolved(s[1..], done)
  }

  /** Every entry of the world is the product along the chain of a node of that name. */
  ghost predicate Sound<M(!new)>(rig: Rig<M>, skeleton: seq<Node>, world: World<M>) {
    forall name ::
      name in world ==>
        exists path: seq<Node> :: IsChain(skeleton, path) && path[0].name == name && world[name] == Product(rig, path)
  }

  lemma ExtendSound<M(!new)>(rig: Rig<M>, skeleton: seq<Node>, world: World<M>, n: Node, m: M)
    requires Sound(rig, skeleton, world) && n in skeleton && ParentWorld(rig, world, n) == Some(m)
    ensures Sound(rig, skeleton, world[n.name := rig.mul(m, rig.local(n))])
  {
    var path := ChainFor(rig, skeleton, world, n, m);
    assert path[0].name == n.name;
  }

  lemma ChainFor<M(!new)>(rig: Rig<M>, skeleton: seq<Node>, world: World<M>, n: Node, m: M) returns (path: seq<Node>)
    requires Sound(rig, skeleton, world) && n in skeleton && ParentWorld(rig, world, n) == Some(m)
    ensures IsChain(skeleton, path) && path[0] == n && Product(rig, path) == rig.mul(m, rig.local(n))
  {
    match n.parent
    case None => path := [n];
    case Some(p) =>
      var tail: seq<Node> :| IsChain(skeleton, tail) && tail[0].name == p && world[p] == Product(rig, tail);
      path := [n] + tail;
      assert path[1..] == tail;
  }

  lemma {:induction false} PassIsSound<M(!new)>(rig: Rig<M>, skeleton: seq<Node>, world: World<M>, remaining: seq<Node>)
    requires Sound(rig, skeleton, world) && forall n :: n in remaining ==> n in skeleton
    ensures Sound(rig, skeleton, Pass(rig, world, remaining).0)
    decreases |remaining|
  {
    if remaining != [] {
      var n := remaining[0];
      match ParentWorld(rig, world, n)
      case None => PassIsSound(rig, skeleton, world, remaining[1..]);
      case Some(m) =>
        ExtendSound(rig, skeleton, world, n, m);
        PassIsSound(rig, skeleton, world[n.name := rig.mul(m, rig.local(n))], remaining[1..]);
    }
  }

  ghost predicate NoneIn(s: seq<Node>, done: set<string>) { forall i :: 0 <= i < |s| ==> s[i].name !in done }

  lemma {:induction false} NothingResolved(s: seq<Node>, done: set<string>)
    requires NoneIn(s, done)
    ensures Unresolved(s, done) == s
  {
    if s != [] {
      assert forall i :: 0 <= i < |s[1..]| ==> s[1..][i] == s[i + 1];
      NothingResolved(s[1..], done);
    }
  }

  ghost function Names(s: seq<Node>): set<string> { set n | n in s :: n.name }

  lemma {:induction false} PassGrows<M>(rig: Rig<M>, world: World<M>, remaining: seq<Node>)
    ensures world.Keys <= Pass(rig, world, remaining).0.Keys
    ensures Pass(rig, world, remaining).0.Keys <= world.Keys + Names(remaining)
    decreases |remaining|
  {
    if remaining != [] {
      var n := remaining[0];
      match ParentWorld(rig, world, n)
      case None => PassGrows(rig, world, remaining[1..]);
      case Some(m) => PassGrows(rig, world[n.name := rig.mul(m, rig.local(n))], remaining[1..]);
    }
  }

  /** What a pass drops has been resolved: among the nodes unresolved after it, none is lost. */
  lemma {:induction false} PassDropsResolved<M>(rig: Rig<M>, world: World<M>, remaining: seq<Node>, done: set<string>)
    requires Pass(rig, world, remaining).0.Keys <= done
    ensures Unresolved(Pass(rig, world, remaining).1, done) == Unresolved(remaining, done)
    decreases |remaining|
  {
    if remaining != [] {
      var n, rest := remaining[0], remaining[1..];
      match ParentWorld(rig, world, n)
      case None =>
        PassDropsResolved(rig, world, rest, done);
        var kept := Pass(rig, world, rest).1;
        assert ([n] + kept)[1..] == kept;
      case Some(m) =>
        var w := world[n.name := rig.mul(m, rig.local(n))];
        PassGrows(rig, w, rest);
        PassDropsResolved(rig, w, rest, done);
    }
  }

  lemma {:induction false} PassKeepsMembers<M>(rig: Rig<M>, world: World<M>, remaining: seq<Node>)
    ensures forall n :: n in Pass(rig, world, remaining).1 ==> n in remaining
    decreases |remaining|
  {
    if remaining != [] {
      var n := remaining[0];
      match ParentWorld(rig, world, n)
      case None => PassKeepsMembers(rig, world, remaining[1..]);
      case Some(m) => PassKeepsMembers(rig, world[n.name := rig.mul(m, rig.local(n))], remaining[1..]);
    }
  }

  /** A pass that resolves nothing leaves the world alone, and every node waits for its parent. */
  lemma {:induction false} IdlePass<M>(rig: Rig<M>, world: World<M>, remaining: seq<Node>)
    requires |Pass(rig, world, remaining).1| >= |remaining|
    ensures Pass(rig, world, remaining).0 == world
    ensures forall i :: 0 <= i < |remaining| ==> ParentWorld(rig, world, remaining[i]) == None
    decreases |remaining|
  {
    if remaining != [] {
      match ParentWorld(rig, world, remaining[0])
      case None =>
        IdlePass(rig, world, remaining[1..]);
        assert forall i :: 1 <= i < |remaining| ==> remaining[i] == remaining[1..][i - 1];
      case Some(m) => PassShrinks(rig, world[remaining[0].name := rig.mul(m, rig.local(remaining[0]))], remaining[1..]);
    }
  }

  lemma {:induction false} UnresolvedMembers(s: seq<Node>, done: set<string>)
    ensures forall n :: n in Unresolved(s, done) <==> n in s && n.name !in done
  {
    if s != [] { UnresolvedMembers(s[1..], done); }
  }

  lemma {:induction false} UnresolvedTwice(s: seq<Node>, done: set<string>, more: set<string>)
    requires done <= more
    ensures Unresolved(Unresolved(s, done), more) == Unresolved(s, more)
  {
    if s != [] {
      UnresolvedTwice(s[1..], done, more);
      var u := Unresolved(s[1..], done);
      assert ([s[0]] + u)[1..] == u && [] + u == u;
    }
  }

  /** The worklist stops with a sound world and nodes that wait for an unresolved parent; the
      nodes unresolved then are those unresolved among the ones it still holds. */
  lemma {:induction false} SettleResult<M(!new)>(
    rig: Rig<M>, skeleton: seq<Node>, world: World<M>, remaining: seq<Node>)
    requires Sound(rig, skeleton, world) && (forall n :: n in remaining ==> n in skeleton)
    requires Unresolved(skeleton, world.Keys) == Unresolved(remaining, world.Keys)
    ensures var (w, kept) := Settle(rig, world, remaining); Outcome(rig, skeleton, w, kept)
    decreases |remaining|
  {
    var (w, kept) := Pass(rig, world, remaining);
    PassIsSound(rig, skeleton, world, remaining);
    PassGrows(rig, world, remaining);
    PassKeepsMembers(rig, world, remaining);
    PassDropsResolved(rig, world, remaining, w.Keys);
    UnresolvedTwice(skeleton, world.Keys, w.Keys);
    UnresolvedTwice(remaining, world.Keys, w.Keys);
    if |kept| < |remaining| {
      SettleResult(rig, skeleton, w, kept);
    } else {
      IdlePass(rig, world, remaining);
      IdleKeepsAll(rig, world, remaining);
    }
  }

  /** A pass that resolves nothing keeps every node. */
  lemma {:induction false} IdleKeepsAll<M>(rig: Rig<M>, world: World<M>, remaining: seq<Node>)
    requires forall i :: 0 <= i < |remaining| ==> ParentWorld(rig, world, remaining[i]) == None
    ensures Pass(rig, world, remaining).1 == remaining
    decreases |remaining|
  {
    if remaining != [] {
      assert forall i :: 0 <= i < |remaining[1..]| ==> remaining[1..][i] == remaining[i + 1];
      IdleKeepsAll(rig, world, remaining[1..]);
      assert [remaining[0]] + remaining[1..] == remaining;
    }
  }

  // ---------------------------------------------------------------- the worklist is the product

  /** What the worklist has found when it stops. */
  ghost predicate Outcome<M(!new)>(rig: Rig<M>, skeleton: seq<Node>, w: World<M>, kept: seq<Node>) {
    && Sound(rig, skeleton, w)
    && (forall n :: n in kept ==> n in skeleton)
    && Unresolved(skeleton, w.Keys) == Unresolved(kept, w.Keys)
    && forall i :: 0 <= i < |kept| ==> ParentWorld(rig, w, kept[i]) == None
  }

  /** A node whose parent is resolved is resolved in the end. */
  lemma NodeIsResolved<M(!new)>(rig: Rig<M>, skeleton: seq<Node>, w: World<M>, kept: seq<Node>, n: Node)
    requires Outcome(rig, skeleton, w, kept) && n in skeleton && ParentWorld(rig, w, n).Some?
    ensures n.name in w
  {
    UnresolvedMembers(skeleton, w.Keys);
    UnresolvedMembers(kept, w.Keys);
    assert n !in kept;
  }

  lemma {:induction false} ChainIsResolved<M(!new)>(
    rig: Rig<M>, skeleton: seq<Node>, w: World<M>, kept: seq<Node>, path: seq<Node>)
    requires Outcome(rig, skeleton, w, kept) && IsChain(skeleton, path)
    ensures path[0].name in w
    decreases |path|
  {
    if |path| > 1 {
      ChainTail(skeleton, path);
      ChainIsResolved(rig, skeleton, w, kept, path[1..]);
    }
    NodeIsResolved(rig, skeleton, w, kept, path[0]);
  }

  /** A resolved node's transform is the product along every chain of its name. */
  lemma ResolvedIsProduct<M(!new)>(rig: Rig<M>, skeleton: seq<Node>, w: World<M>, kept: seq<Node>, path: seq<Node>)
    requires Agreeing(rig, skeleton) && Outcome(rig, skeleton, w, kept) && IsChain(skeleton, path)
    ensures path[0].name in w && w[path[0].name] == Product(rig, path)
  {
    ChainIsResolved(rig, skeleton, w, kept, path);
    var other: seq<Node> :| IsChain(skeleton, other) && other[0].name == path[0].name
      && w[path[0].name] == Product(rig, other);
    ProductByName(rig, skeleton, path, other);
  }

  lemma ResolvedIffGrounded<M(!new)>(rig: Rig<M>, skeleton: seq<Node>, w: World<M>, kept: seq<Node>, n: Node)
    requires Agreeing(rig, skeleton) && Outcome(rig, skeleton, w, kept) && n in skeleton
    ensures n.name in w <==> Grounded(skeleton, n)
  {
    if n.name in w {
      var path: seq<Node> :| IsChain(skeleton, path) && path[0].name == n.name && w[n.name] == Product(rig, path);
      Reseat(rig, skeleton, path, n);
      assert ([n] + path[1..])[0] == n;
    }
    if Grounded(skeleton, n) {
      var path: seq<Node> :| IsChain(skeleton, path) && path[0] == n;
      ChainIsResolved(rig, skeleton, w, kept, path);
    }
  }

  lemma ParentResolved<M(!new)>(rig: Rig<M>, skeleton: seq<Node>, w: World<M>, kept: seq<Node>, n: Node)
    requires Agreeing(rig, skeleton) && Outcome(rig, skeleton, w, kept) && n in skeleton && n.name in w
    ensures ParentWorld(rig, w, n).Some?
  {
    ResolvedIffGrounded(rig, skeleton, w, kept, n);
    var path: seq<Node> :| IsChain(skeleton, path) && path[0] == n;
    if |path| > 1 {
      ChainTail(skeleton, path);
      ChainIsResolved(rig, skeleton, w, kept, path[1..]);
    }
  }

  /** In the end the worklist holds exactly the unresolved nodes, in order. */
  lemma KeptIsUnresolved<M(!new)>(rig: Rig<M>, skeleton: seq<Node>, w: World<M>, kept: seq<Node>)
    requires Agreeing(rig, skeleton) && Outcome(rig, skeleton, w, kept)
    ensures kept == Unresolved(skeleton, w.Keys)
  {
    forall i | 0 <= i < |kept| ensures kept[i].name !in w.Keys {
      if kept[i].name in w { ParentResolved(rig, skeleton, w, kept, kept[i]); }
    }
    NothingResolved(kept, w.Keys);
  }

  lemma OutcomeOf<M(!new)>(rig: Rig<M>, skeleton: seq<Node>)
    ensures var (w, kept) := Settle(rig, map[], skeleton); Outcome(rig, skeleton, w, kept)
  {
    var none: World<M> := map[];
    SettleResult(rig, skeleton, none, skeleton);
  }

  /** The first node, in declaration order, whose parent chain does not end at a root. */
  ghost predicate FirstUngrounded(skeleton: seq<Node>, name: string) {
    exists i :: 0 <= i < |skeleton| && skeleton[i].name == name && !Grounded(skeleton, skeleton[i])
      && forall j :: 0 <= j < i ==> Grounded(skeleton, skeleton[j])
  }

  /** When same-named nodes agree, as under unique names, the worklist succeeds exactly when
      every parent chain ends at a root; it then gives every node the product along its chain,
      and otherwise it names the first node without such a chain. */
  lemma WorklistIsProduct<M(!new)>(rig: Rig<M>, skeleton: seq<Node>)
    requires Agreeing(rig, skeleton)
    ensures Worlds(rig, skeleton).Ok? <==> forall n :: n in skeleton ==> Grounded(skeleton, n)
    ensures Worlds(rig, skeleton).Ok? ==> IsWorld(rig, skeleton, Worlds(rig, skeleton).value)
    ensures Worlds(rig, skeleton).Err? ==> FirstUngrounded(skeleton, Worlds(rig, skeleton).error)
  {
    OutcomeOf(rig, skeleton);
    var (w, kept) := Settle(rig, map[], skeleton);
    KeptIsUnresolved(rig, skeleton, w, kept);
    UnresolvedMembers(skeleton, w.Keys);
    forall n | n in skeleton
      ensures n.name in w <==> Grounded(skeleton, n)
    {
      ResolvedIffGrounded(rig, skeleton, w, kept, n);
    }
    forall path: seq<Node> | IsChain(skeleton, path)
      ensures path[0].name in w && w[path[0].name] == Product(rig, path)
    {
      ResolvedIsProduct(rig, skeleton, w, kept, path);
    }
    if kept == [] {
      NamesAreKeys(rig, skeleton, w);
    } else {
      var i := FirstUnresolved(skeleton, w.Keys);
    }
  }

  lemma NamesAreKeys<M(!new)>(rig: Rig<M>, skeleton: seq<Node>, w: World<M>)
    requires Sound(rig, skeleton, w) && Unresolved(skeleton, w.Keys) == []
    ensures w.Keys == Names(skeleton)
  {
    UnresolvedMembers(skeleton, w.Keys);
    forall name | name in w ensures name in Names(skeleton) {
      var path: seq<Node> :| IsChain(skeleton, path) && path[0].name == name && w[name] == Product(rig, path);
    }
    forall n | n in skeleton ensures n.name in w { assert n !in Unresolved(skeleton, w.Keys); }
  }

  lemma {:induction false} FirstUnresolved(s: seq<Node>, done: set<string>) returns (i: nat)
    requires Unresolved(s, done) != []
    ensures
      i < |s| && s[i] == Unresolved(s, done)[0] && s[i].name !in done && forall j :: 0 <= j < i ==> s[j].name in done
  {
    if s[0].name in done {
      var k := FirstUnresolved(s[1..], done);
      i := k + 1;
      assert forall j :: 1 <= j < i ==> s[j] == s[1..][j - 1];
    } else {
      i := 0;
    }
  }

  lemma SameChains(s: seq<Node>, t: seq<Node>)
    requires forall n :: n in s <==> n in t
    ensures forall path: seq<Node> :: IsChain(s, path) <==> IsChain(t, path)
    ensures forall n :: Grounded(s, n) <==> Grounded(t, n)
    ensures Names(s) == Names(t)
  {
    forall path: seq<Node> ensures IsChain(s, path) <==> IsChain(t, path) {}
    forall n ensures Grounded(s, n) <==> Grounded(t, n) {
      if Grounded(s, n) {
        var path: seq<Node> :| IsChain(s, path) && path[0] == n;
        assert IsChain(t, path);
      }
      if Grounded(t, n) {
        var path: seq<Node> :| IsChain(t, path) && path[0] == n;
        assert IsChain(s, path);
      }
    }
  }

  /** The world is the product along every chain, for every node. */
  ghost predicate IsWorld<M(!new)>(rig: Rig<M>, s: seq<Node>, w: World<M>) {
    && w.Keys == Names(s)
    && (forall n :: n in s ==> Grounded(s, n))
    && (forall path: seq<Node> :: IsChain(s, path) ==> path[0].name in w && w[path[0].name] == Product(rig, path))
  }

  lemma WorldIsUnique<M(!new)>(rig: Rig<M>, s: seq<Node>, v: World<M>, w: World<M>)
    requires IsWorld(rig, s, v) && IsWorld(rig, s, w)
    ensures v == w
  {
    forall name | name in v ensures v[name] == w[name] {
      var n :| n in s && n.name == name;
      var path: seq<Node> :| IsChain(s, path) && path[0] == n;
    }
  }

  lemma IsWorldTransfers<M(!new)>(rig: Rig<M>, s: seq<Node>, t: seq<Node>, w: World<M>)
    requires IsWorld(rig, s, w) && forall n :: n in s <==> n in t
    ensures IsWorld(rig, t, w)
  {
    SameChains(s, t);
  }

  /** When same-named nodes agree, the listing succeeds exactly when a world exists, and gives it. */
  lemma WorldsIffWorld<M(!new)>(rig: Rig<M>, s: seq<Node>)
    requires Agreeing(rig, s)
    ensures Worlds(rig, s).Ok? <==> exists w :: IsWorld(rig, s, w)
    ensures forall w :: IsWorld(rig, s, w) ==> Worlds(rig, s) == Ok(w)
  {
    WorklistIsProduct(rig, s);
    forall w | IsWorld(rig, s, w) ensures Worlds(rig, s) == Ok(w) { WorldIsUnique(rig, s, w, Worlds(rig, s).value); }
  }

  /** The result does not depend on the order of declaration. */
  lemma OrderDoesNotMatter<M(!new)>(rig: Rig<M>, s: seq<Node>, t: seq<Node>)
    requires Agreeing(rig, s) && (forall n :: n in s <==> n in t)
    ensures Worlds(rig, s).Ok? <==> Worlds(rig, t).Ok?
    ensures Worlds(rig, s).Ok? ==> Worlds(rig, s) == Worlds(rig, t)
  {
    WorldsIffWorld(rig, s);
    WorldsIffWorld(rig, t);
    forall w | IsWorld(rig, s, w) ensures IsWorld(rig, t, w) { IsWorldTransfers(rig, s, t, w); }
    forall w | IsWorld(rig, t, w) ensures IsWorld(rig, s, w) { IsWorldTransfers(rig, t, s, w); }
  }

  lemma TwoRoots<M>(rig: Rig<M>, a: Node, b: Node)
    requires a.name == b.name && a.parent == None && b.parent == None
    ensures Worlds(rig, [a, b]) == Ok(map[b.name := rig.mul(rig.root, rig.local(b))])
  {
    var none: World<M> := map[];
    var va, vb := rig.mul(rig.root, rig.local(a)), rig.mul(rig.root, rig.local(b));
    assert [a, b][1..] == [b] && [b][1..] == [];
    assert Pass(rig, none[a.name := va], [b]) == (none[a.name := va][b.name := vb], []);
    assert none[a.name := va][b.name := vb] == map[b.name := vb];
    assert Pass(rig, none, [a, b]) == Pass(rig, none[a.name := va], [b]);
    assert Settle(rig, none, [a, b]) == Settle(rig, map[b.name := vb], []);
  }

  /** Of two roots with one name the later one wins: the two orders differ exactly when the
      two transforms do. */
  lemma DuplicatesDependOnOrder<M>(rig: Rig<M>, a: Node, b: Node)
    requires a.name == b.name && a.parent == None && b.parent == None
    ensures
      Worlds(rig, [a, b]) != Worlds(rig, [b, a]) <==> rig.mul(rig.root, rig.local(a)) != rig.mul(rig.root, rig.local(b))
  {
    TwoRoots(rig, a, b);
    TwoRoots(rig, b, a);
    var va, vb := rig.mul(rig.root, rig.local(a)), rig.mul(rig.root, rig.local(b));
    assert map[b.name := vb][b.name] == vb && map[a.name := va][a.name] == va;
  }

  // ---------------------------------------------------------------- the variants

  /** Two rigs that agree on every node give the same result. */
  lemma SameRig<M(!new)>(r: Rig<M>, q: Rig<M>, skeleton: seq<Node>)
    requires r.root == q.root && r.mul == q.mul && forall n :: r.local(n) == q.local(n)
    ensures Worlds(r, skeleton) == Worlds(q, skeleton)
  {
    SameSettle(r, q, map[], skeleton);
  }

  lemma {:induction false} SamePass<M(!new)>(r: Rig<M>, q: Rig<M>, world: World<M>, s: seq<Node>)
    requires r.root == q.root && r.mul == q.mul && forall n :: r.local(n) == q.local(n)
    ensures Pass(r, world, s) == Pass(q, world, s)
    decreases |s|
  {
    if s != [] {
      match ParentWorld(r, world, s[0])
      case None => SamePass(r, q, world, s[1..]);
      case Some(m) => SamePass(r, q, world[s[0].name := r.mul(m, r.local(s[0]))], s[1..]);
    }
  }

  lemma {:induction false} SameSettle<M(!new)>(r: Rig<M>, q: Rig<M>, world: World<M>, s: seq<Node>)
    requires r.root == q.root && r.mul == q.mul && forall n :: r.local(n) == q.local(n)
    ensures Settle(r, world, s) == Settle(q, world, s)
    decreases |s|
  {
    SamePass(r, q, world, s);
    var (w, kept) := Pass(r, world, s);
    if |kept| < |s| { SameSettle(r, q, w, kept); }
  }

  /** Without joint angles, root offset or poses the other two traversals give the rest pose,
      for every skeleton, with or without unique names. */
  lemma EmptyVariantsAgree<M(!new)>(t: Transforms<M>, skeleton: seq<Node>)
    ensures Worlds(JointRig(t, map[], None), skeleton) == Worlds(RestRig(t), skeleton)
    ensures Worlds(PosedRig(t, map[]), skeleton) == Worlds(RestRig(t), skeleton)
  {
    SameRig(JointRig(t, map[], None), RestRig(t), skeleton);
    SameRig(PosedRig(t, map[]), RestRig(t), skeleton);
  }

  ghost predicate Associative<M(!new)>(mul: (M, M) -> M) { forall a, b, c :: mul(mul(a, b), c) == mul(a, mul(b, c)) }

  lemma {:induction false} OffsetProduct<M(!new)>(r: Rig<M>, q: Rig<M>, one: M, path: seq<Node>)
    requires path != [] && q == r.(root := one) && Associative(r.mul) && (forall m :: r.mul(one, m) == m)
    ensures Product(r, path) == r.mul(r.root, Product(q, path))
    decreases |path|
  {
    if |path| == 1 {
      assert Product(q, path) == r.local(path[0]);
    } else {
      OffsetProduct(r, q, one, path[1..]);
    }
  }

  /** A root offset pre-multiplies every node's transform. */
  lemma RootOffsetPremultiplies<M(!new)>(t: Transforms<M>, angles: map<string, real>, offset: M, skeleton: seq<Node>)
    requires Agreeing(JointRig(t, angles, None), skeleton) && Associative(t.mul) && forall m :: t.mul(t.one, m) == m
    ensures
      var moved := Worlds(JointRig(t, angles, Some(offset)), skeleton);
      var still := Worlds(JointRig(t, angles, None), skeleton);
      && (moved.Ok? <==> still.Ok?)
      && (moved.Ok? ==>
            && moved.value.Keys == still.value.Keys
            && forall name :: name in moved.value ==> moved.value[name] == t.mul(offset, still.value[name]))
  {
    var r, q := JointRig(t, angles, Some(offset)), JointRig(t, angles, None);
    assert forall n :: r.local(n) == q.local(n);
    WorklistIsProduct(r, skeleton);
    WorklistIsProduct(q, skeleton);
    if Worlds(r, skeleton).Ok? {
      var v, w := Worlds(r, skeleton).value, Worlds(q, skeleton).value;
      forall name | name in v ensures v[name] == t.mul(offset, w[name]) {
        var n :| n in skeleton && n.name == name;
        var path: seq<Node> :| IsChain(skeleton, path) && path[0] == n;
        OffsetProduct(r, q, t.one, path);
      }
    }
  }

  // ---------------------------------------------------------------- what a joint moves

  ghost predicate SameAngles(a: map<string, real>, b: map<string, real>, path: seq<Node>) {
    forall i ::
      0 <= i < |path| ==>
        (path[i].name in a <==> path[i].name in b) && (path[i].name in a ==> a[path[i].name] == b[path[i].name])
  }

  lemma {:induction false} SameProduct<M>(r: Rig<M>, q: Rig<M>, path: seq<Node>)
    requires
      && path != [] && r.root == q.root && r.mul == q.mul
      && forall i :: 0 <= i < |path| ==> r.local(path[i]) == q.local(path[i])
    ensures Product(r, path) == Product(q, path)
    decreases |path|
  {
    if |path| > 1 { SameProduct(r, q, path[1..]); }
  }

  /** A joint moves only what hangs from it: a node whose chain meets no changed angle keeps its
      transform, and no angle decides whether the skeleton resolves. */
  lemma JointsMoveOnlyBelow<M(!new)>(
    t: Transforms<M>, a: map<string, real>, b: map<string, real>, offset: Option<M>, skeleton: seq<Node>,
    path: seq<Node>)
    requires Agreeing(JointRig(t, a, offset), skeleton) && Agreeing(JointRig(t, b, offset), skeleton)
    requires IsChain(skeleton, path) && SameAngles(a, b, path)
    ensures var v, w := Worlds(JointRig(t, a, offset), skeleton), Worlds(JointRig(t, b, offset), skeleton);
      && (v.Ok? <==> w.Ok?)
      && (v.Ok? ==>
            path[0].name in v.value && path[0].name in w.value && v.value[path[0].name] == w.value[path[0].name])
  {
    var r, q := JointRig(t, a, offset), JointRig(t, b, offset);
    WorklistIsProduct(r, skeleton);
    WorklistIsProduct(q, skeleton);
    SameProduct(r, q, path);
  }
}
