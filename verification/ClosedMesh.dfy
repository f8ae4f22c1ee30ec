/** Sums over the faces of a mesh, and what cancels when the mesh is closed. */
module ClosedMesh {
  import opened TriangleTest

  type Edge = (Vec, Vec)

  function Sum<T>(s: seq<T>, f: T -> real): real {
    if s == [] then 0.0 else Sum(s[..|s| - 1], f) + f(s[|s| - 1])
  }

  lemma SumOfAppend<T>(s: seq<T>, x: T, f: T -> real)
    ensures Sum(s + [x], f) == Sum(s, f) + f(x)
  {
    assert (s + [x])[..|s|] == s;
  }

  lemma {:induction false} SumOfConcat<T>(s: seq<T>, t: seq<T>, f: T -> real)
    ensures Sum(s + t, f) == Sum(s, f) + Sum(t, f)
  {
    if t == [] {
      assert s + t == s;
    } else {
      var init, x := t[..|t| - 1], t[|t| - 1];
      SumOfConcat(s, init, f);
      assert s + t == (s + init) + [x];
      SumOfAppend(s + init, x, f);
    }
  }

  lemma SumWithout<T>(s: seq<T>, k: nat, f: T -> real)
    requires k < |s|
    ensures Sum(s, f) == f(s[k]) + Sum(s[..k] + s[k + 1..], f)
  {
    SplitAt(s, k);
    SumAroundElement(s[..k], s[k], s[k + 1..], f);
  }

  lemma SplitAt<T>(s: seq<T>, k: nat)
    requires k < |s|
    ensures s == (s[..k] + [s[k]]) + s[k + 1..]
  {
  }

  lemma SumAroundElement<T>(a: seq<T>, x: T, b: seq<T>, f: T -> real)
    ensures Sum((a + [x]) + b, f) == f(x) + Sum(a + b, f)
  {
    SumOfConcat(a + [x], b, f);
    SumOfAppend(a, x, f);
    SumOfConcat(a, b, f);
  }

  lemma CountWithout<T>(t: seq<T>, k: nat)
    requires k < |t|
    ensures multiset(t) == multiset(t[..k] + t[k + 1..]) + multiset{t[k]}
  {
    assert t == t[..k] + [t[k]] + t[k + 1..];
  }

  lemma Cancel<T>(a: multiset<T>, b: multiset<T>, x: T)
    requires a + multiset{x} == b + multiset{x}
    ensures a == b
  {
    forall y ensures a[y] == b[y] { assert (a + multiset{x})[y] == (b + multiset{x})[y]; }
  }

  /** A sum does not depend on the order. */
  lemma {:induction false} SumOfPermutation<T>(s: seq<T>, t: seq<T>, f: T -> real)
    requires multiset(s) == multiset(t)
    ensures Sum(s, f) == Sum(t, f)
  {
    if s == [] {
      assert |multiset(t)| == |t|;
    } else {
      var init, x := s[..|s| - 1], s[|s| - 1];
      assert s == init + [x];
      assert x in multiset(t);
      var k :| 0 <= k < |t| && t[k] == x;
      var rest := t[..k] + t[k + 1..];
      CountWithout(t, k);
      Cancel(multiset(init), multiset(rest), x);
      SumOfPermutation(init, rest, f);
      SumWithout(t, k, f);
    }
  }

  lemma {:induction false} SumOfSum<T>(s: seq<T>, f: T -> real, g: T -> real, h: T -> real)
    requires forall x :: f(x) == g(x) + h(x)
    ensures Sum(s, f) == Sum(s, g) + Sum(s, h)
  {
    if s != [] { SumOfSum(s[..|s| - 1], f, g, h); }
  }

  lemma {:induction false} SumOfEqual<T>(s: seq<T>, f: T -> real, g: T -> real)
    requires forall x :: f(x) == g(x)
    ensures Sum(s, f) == Sum(s, g)
  {
    if s != [] { SumOfEqual(s[..|s| - 1], f, g); }
  }

  // ---------------------------------------------------------------- closed meshes

  function EdgesOf(t: Tri): seq<Edge> { [(t.a, t.b), (t.b, t.c), (t.c, t.a)] }

  function Edges(faces: seq<Tri>): seq<Edge> {
    if faces == [] then [] else Edges(faces[..|faces| - 1]) + EdgesOf(faces[|faces| - 1])
  }

  function Reversed(edges: seq<Edge>): (r: seq<Edge>)
    ensures |r| == |edges| && forall k :: 0 <= k < |r| ==> r[k] == (edges[k].1, edges[k].0)
  {
    seq(|edges|, k requires 0 <= k < |edges| => (edges[k].1, edges[k].0))
  }

  /** Every directed edge has its reverse, as often. */
  ghost predicate Closed(faces: seq<Tri>) {
    multiset(Edges(faces)) == multiset(Reversed(Edges(faces)))
  }

  ghost predicate Antisymmetric(e: Edge -> real) { forall a, b :: e((a, b)) == -e((b, a)) }

  lemma {:induction false} SumOverReversed(edges: seq<Edge>, e: Edge -> real)
    requires Antisymmetric(e)
    ensures Sum(Reversed(edges), e) == -Sum(edges, e)
  {
    if edges != [] {
      var init, x := edges[..|edges| - 1], edges[|edges| - 1];
      SumOverReversed(init, e);
      assert Reversed(edges) == Reversed(init) + [(x.1, x.0)];
      SumOfAppend(Reversed(init), (x.1, x.0), e);
      assert e((x.1, x.0)) == -e((x.0, x.1));
    }
  }

  /** Whatever changes sign with an edge cancels over a closed mesh. */
  lemma EdgesCancel(faces: seq<Tri>, e: Edge -> real)
    requires Closed(faces) && Antisymmetric(e)
    ensures Sum(Edges(faces), e) == 0.0
  {
    SumOverReversed(Edges(faces), e);
    SumOfPermutation(Edges(faces), Reversed(Edges(faces)), e);
  }

  function Around(t: Tri, e: Edge -> real): real { e((t.a, t.b)) + e((t.b, t.c)) + e((t.c, t.a)) }

  lemma {:induction false} SumAround(faces: seq<Tri>, e: Edge -> real, f: Tri -> real)
    requires forall t :: f(t) == Around(t, e)
    ensures Sum(faces, f) == Sum(Edges(faces), e)
  {
    if faces != [] {
      var init, t := faces[..|faces| - 1], faces[|faces| - 1];
      SumAround(init, e, f);
      SumOfConcat(Edges(init), EdgesOf(t), e);
      SumOfThree((t.a, t.b), (t.b, t.c), (t.c, t.a), e);
    }
  }

  lemma SumOfThree(p: Edge, q: Edge, r: Edge, e: Edge -> real)
    ensures Sum([p, q, r], e) == e(p) + e(q) + e(r)
  {
    SumOfAppend([p, q], r, e);
    SumOfAppend([p], q, e);
    SumOfAppend([], p, e);
    assert [] + [p] == [p] && [p] + [q] == [p, q] && [p, q] + [r] == [p, q, r];
  }

  /** Face terms that differ by edge terms have the same sum over a closed mesh. */
  lemma ClosedSum(faces: seq<Tri>, f: Tri -> real, g: Tri -> real, e: Edge -> real)
    requires Closed(faces) && Antisymmetric(e)
    requires forall t :: f(t) == g(t) + Around(t, e)
    ensures Sum(faces, f) == Sum(faces, g)
  {
    var h := (t: Tri) => Around(t, e);
    SumOfSum(faces, f, g, h);
    SumAround(faces, e, h);
    EdgesCancel(faces, e);
  }

  // ---------------------------------------------------------------- moving the vertices

  function MapTri(t: Tri, m: Vec -> Vec): Tri { Tri(m(t.a), m(t.b), m(t.c)) }

  function MapAll(faces: seq<Tri>, m: Vec -> Vec): seq<Tri> {
    seq(|faces|, i requires 0 <= i < |faces| => MapTri(faces[i], m))
  }

  lemma {:induction false} SumOfMapped(faces: seq<Tri>, m: Vec -> Vec, f: Tri -> real, g: Tri -> real)
    requires forall t :: g(t) == f(MapTri(t, m))
    ensures Sum(MapAll(faces, m), f) == Sum(faces, g)
  {
    if faces != [] {
      var init, t := faces[..|faces| - 1], faces[|faces| - 1];
      SumOfMapped(init, m, f, g);
      assert MapAll(faces, m) == MapAll(init, m) + [MapTri(t, m)];
      SumOfAppend(MapAll(init, m), MapTri(t, m), f);
    }
  }

  function MapEdge(e: Edge, m: Vec -> Vec): Edge { (m(e.0), m(e.1)) }

  function MapEdges(edges: seq<Edge>, m: Vec -> Vec): seq<Edge> {
    seq(|edges|, i requires 0 <= i < |edges| => MapEdge(edges[i], m))
  }

  lemma {:induction false} EdgesOfMapped(faces: seq<Tri>, m: Vec -> Vec)
    ensures Edges(MapAll(faces, m)) == MapEdges(Edges(faces), m)
  {
    if faces != [] {
      var init, t := faces[..|faces| - 1], faces[|faces| - 1];
      EdgesOfMapped(init, m);
      var all := MapAll(faces, m);
      assert all[..|all| - 1] == MapAll(init, m);
      assert EdgesOf(MapTri(t, m)) == MapEdges(EdgesOf(t), m);
      assert MapEdges(Edges(init) + EdgesOf(t), m) == MapEdges(Edges(init), m) + MapEdges(EdgesOf(t), m);
    }
  }

  /** Mapping two permutations of each other gives two permutations of each other. */
  lemma {:induction false} MapPermutation(s: seq<Edge>, t: seq<Edge>, m: Vec -> Vec)
    requires multiset(s) == multiset(t)
    ensures multiset(MapEdges(s, m)) == multiset(MapEdges(t, m))
  {
    if s == [] {
      assert |multiset(t)| == |t|;
    } else {
      var init, x := s[..|s| - 1], s[|s| - 1];
      assert s == init + [x];
      assert x in multiset(t);
      var k :| 0 <= k < |t| && t[k] == x;
      CountWithout(t, k);
      Cancel(multiset(init), multiset(t[..k] + t[k + 1..]), x);
      MapPermutation(init, t[..k] + t[k + 1..], m);
      MapAppend(init, x, m);
      MapWithout(t, k, m);
    }
  }

  lemma MapAppend(init: seq<Edge>, x: Edge, m: Vec -> Vec)
    ensures MapEdges(init + [x], m) == MapEdges(init, m) + [MapEdge(x, m)]
  {
  }

  lemma MapWithout(t: seq<Edge>, k: nat, m: Vec -> Vec)
    requires k < |t|
    ensures multiset(MapEdges(t, m)) == multiset(MapEdges(t[..k] + t[k + 1..], m)) + multiset{MapEdge(t[k], m)}
  {
    var all, rest := MapEdges(t, m), MapEdges(t[..k] + t[k + 1..], m);
    assert all[..k] + all[k + 1..] == rest;
    CountWithout(all, k);
  }

  /** A closed mesh stays closed wherever its vertices are moved. */
  lemma MappedIsClosed(faces: seq<Tri>, m: Vec -> Vec)
    requires Closed(faces)
    ensures Closed(MapAll(faces, m))
  {
    EdgesOfMapped(faces, m);
    MapPermutation(Edges(faces), Reversed(Edges(faces)), m);
    assert MapEdges(Reversed(Edges(faces)), m) == Reversed(MapEdges(Edges(faces), m));
  }
}
