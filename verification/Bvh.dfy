/** The bounding-volume hierarchy over the triangles of one part. */
module Bvh {
  import opened Sorting
  import opened Common
  import opened TriangleTest

  datatype Node =
    | Leaf(bounds: Aabb, start: nat, count: nat)
    | Branch(bounds: Aabb, left: nat, right: nat)

  const LeafSize: nat := 8

  /** The tree that a node of the arena stands for. */
  datatype Tree = Tip(bounds: Aabb, start: nat, count: nat) | Fork(bounds: Aabb, left: Tree, right: Tree)

  /** Children are stored before their parent. */
  ghost predicate Closed(nodes: seq<Node>) {
    forall n :: 0 <= n < |nodes| && nodes[n].Branch? ==> nodes[n].left < n && nodes[n].right < n
  }

  ghost function TreeAt(nodes: seq<Node>, n: nat): Tree
    requires Closed(nodes) && n < |nodes|
    decreases n
  {
    match nodes[n]
    case Leaf(b, start, count) => Tip(b, start, count)
    case Branch(b, l, r) => Fork(b, TreeAt(nodes, l), TreeAt(nodes, r))
  }

  lemma {:induction false} TreeAtExtends(nodes: seq<Node>, more: seq<Node>, n: nat)
    requires Closed(nodes) && Closed(nodes + more) && n < |nodes|
    ensures TreeAt(nodes + more, n) == TreeAt(nodes, n)
    decreases n
  {
    assert (nodes + more)[n] == nodes[n];
    if nodes[n].Branch? {
      TreeAtExtends(nodes, more, nodes[n].left);
      TreeAtExtends(nodes, more, nodes[n].right);
    }
  }

  // ---------------------------------------------------------------- what a correct tree is

  /** The box and the centroid of every triangle. */
  datatype Scene = Scene(boxes: seq<Aabb>, centroids: seq<Vec>)

  function SceneOf(tris: seq<Tri>): Scene {
    Scene(
      seq(|tris|, i requires 0 <= i < |tris| => BoxOf(tris[i])),
      seq(|tris|, i requires 0 <= i < |tris| => Vec(Centroid(tris[i], X), Centroid(tris[i], Y), Centroid(tris[i], Z))))
  }

  ghost predicate InRange(sc: Scene, ids: multiset<nat>) {
    forall i :: i in ids ==> i < |sc.boxes| && i < |sc.centroids|
  }

  ghost predicate Covers(sc: Scene, ids: multiset<nat>, b: Aabb)
    requires InRange(sc, ids)
  {
    forall i :: i in ids ==> Within(sc.boxes[i], b)
  }

  /** Every face of the box is touched by one of the triangles. */
  ghost predicate Tight(sc: Scene, ids: multiset<nat>, b: Aabb)
    requires InRange(sc, ids)
  {
    forall a: Axis ::
      && (exists i :: i in ids && Along(sc.boxes[i].min, a) == Along(b.min, a))
      && (exists i :: i in ids && Along(sc.boxes[i].max, a) == Along(b.max, a))
  }

  /** The smallest box around the triangles. */
  ghost predicate Bounding(sc: Scene, ids: multiset<nat>, b: Aabb) {
    InRange(sc, ids) && Covers(sc, ids, b) && Tight(sc, ids, b)
  }

  /** No centroid on the left lies beyond one on the right. */
  ghost predicate Separated(sc: Scene, left: multiset<nat>, right: multiset<nat>, axis: Axis)
    requires InRange(sc, left) && InRange(sc, right)
  {
    forall i, j :: i in left && j in right ==> Along(sc.centroids[i], axis) <= Along(sc.centroids[j], axis)
  }

  /** The tree `t` over the stretch `ids` of the order, which begins at position `start`. */
  ghost predicate WellBuilt(sc: Scene, t: Tree, ids: seq<nat>, start: nat)
    decreases t
  {
    && Bounding(sc, multiset(ids), t.bounds)
    && match t
       case Tip(_, s, c) => s == start && c == |ids| && 0 < c <= 8
       case Fork(_, l, r) =>
         var mid := |ids| / 2;
         && |ids| > 8
         && WellBuilt(sc, l, ids[..mid], start)
         && WellBuilt(sc, r, ids[mid..], start + mid)
         && Separated(sc, multiset(ids[..mid]), multiset(ids[mid..]), LongestAxis(t.bounds))
  }

  // ---------------------------------------------------------------- sorting a stretch

  function ByKey(key: nat -> real): (nat, nat) -> bool { (a: nat, b: nat) => key(a) <= key(b) }

  predicate Ascending(s: seq<nat>, key: nat -> real) { forall i, j :: 0 <= i < j < |s| ==> key(s[i]) <= key(s[j]) }

  /** The stable sort of a stretch by key is a permutation of it in ascending order. */
  lemma SortAscends(s: seq<nat>, key: nat -> real)
    ensures Ascending(Sort(s, ByKey(key)), key) && multiset(Sort(s, ByKey(key))) == multiset(s)
  {
    SortSorts(s, ByKey(key));
    var t := Sort(s, ByKey(key));
    forall i, j | 0 <= i < j < |t| ensures key(t[i]) <= key(t[j]) { assert ByKey(key)(t[i], t[j]); }
  }

  function CentroidKey(sc: Scene, axis: Axis): nat -> real {
    (i: nat) => if i < |sc.centroids| then Along(sc.centroids[i], axis) else 0.0
  }

  lemma AscendingSeparates(sc: Scene, l: seq<nat>, r: seq<nat>, axis: Axis)
    requires InRange(sc, multiset(l)) && InRange(sc, multiset(r)) && Ascending(l + r, CentroidKey(sc, axis))
    ensures Separated(sc, multiset(l), multiset(r), axis)
  {
    var key := CentroidKey(sc, axis);
    forall i, j | i in multiset(l) && j in multiset(r)
      ensures Along(sc.centroids[i], axis) <= Along(sc.centroids[j], axis)
    {
      var m :| 0 <= m < |l| && l[m] == i;
      var n :| 0 <= n < |r| && r[n] == j;
      assert (l + r)[m] == i && (l + r)[|l| + n] == j;
      assert key(i) <= key(j);
    }
  }

  lemma UnionBounds(sc: Scene, ids: multiset<nat>, b: Aabb, id: nat)
    requires id < |sc.boxes| && id < |sc.centroids| && Bounding(sc, ids, b)
    ensures Bounding(sc, ids + multiset{id}, Union(b, sc.boxes[id]))
  {
    UnionCovers(sc, ids, b, id);
    UnionTight(sc, ids, b, id);
  }

  lemma UnionCovers(sc: Scene, ids: multiset<nat>, b: Aabb, id: nat)
    requires id < |sc.boxes| && id < |sc.centroids| && InRange(sc, ids) && Covers(sc, ids, b)
    ensures Covers(sc, ids + multiset{id}, Union(b, sc.boxes[id]))
  {
    forall i | i in ids + multiset{id} ensures Within(sc.boxes[i], Union(b, sc.boxes[id])) {
      if i in ids { WithinUnion(sc.boxes[i], b, sc.boxes[id]); }
    }
  }

  lemma WithinUnion(x: Aabb, a: Aabb, b: Aabb)
    requires Within(x, a)
    ensures Within(x, Union(a, b))
  {
    forall k: Axis
      ensures Along(Union(a, b).min, k) <= Along(x.min, k) && Along(x.max, k) <= Along(Union(a, b).max, k)
    {
      UnionAlong(a, b, k);
    }
  }

  lemma UnionAlong(a: Aabb, b: Aabb, k: Axis)
    ensures Along(Union(a, b).min, k) == Min(Along(a.min, k), Along(b.min, k))
    ensures Along(Union(a, b).max, k) == Max(Along(a.max, k), Along(b.max, k))
  {
  }

  lemma UnionTight(sc: Scene, ids: multiset<nat>, b: Aabb, id: nat)
    requires id < |sc.boxes| && id < |sc.centroids| && InRange(sc, ids) && Tight(sc, ids, b)
    ensures Tight(sc, ids + multiset{id}, Union(b, sc.boxes[id]))
  {
    var ids', u := ids + multiset{id}, Union(b, sc.boxes[id]);
    assert id in ids';
    forall a: Axis
      ensures exists i :: i in ids' && Along(sc.boxes[i].min, a) == Along(u.min, a)
      ensures exists i :: i in ids' && Along(sc.boxes[i].max, a) == Along(u.max, a)
    {
      UnionAlong(b, sc.boxes[id], a);
      var i :| i in ids && Along(sc.boxes[i].min, a) == Along(b.min, a);
      var j :| j in ids && Along(sc.boxes[j].max, a) == Along(b.max, a);
      assert i in ids' && j in ids';
    }
  }

  /** The union of the boxes of a stretch. */
  method BoundsOf(sc: Scene, ids: seq<nat>) returns (bounds: Aabb)
    requires InRange(sc, multiset(ids)) && ids != []
    ensures Bounding(sc, multiset(ids), bounds)
  {
    assert forall k :: 0 <= k < |ids| ==> ids[k] in multiset(ids);
    bounds := sc.boxes[ids[0]];
    BoundsOfOne(sc, ids[0]);
    assert ids[..1] == [ids[0]];
    for i := 1 to |ids|
      invariant Bounding(sc, multiset(ids[..i]), bounds)
    {
      UnionBounds(sc, multiset(ids[..i]), bounds, ids[i]);
      assert ids[..i] + [ids[i]] == ids[..i + 1];
      bounds := Union(bounds, sc.boxes[ids[i]]);
    }
    assert ids[..|ids|] == ids;
  }

  lemma BoundsOfOne(sc: Scene, id: nat)
    requires id < |sc.boxes| && id < |sc.centroids|
    ensures Bounding(sc, multiset([id]), sc.boxes[id])
  {
    assert id in multiset([id]);
  }

  /** Puts two finished halves under one branch. */
  lemma BranchIsWellBuilt(sc: Scene, b: Aabb, l: Tree, r: Tree, il: seq<nat>, ir: seq<nat>, ids: seq<nat>, start: nat,
                          mid: nat)
    requires ids == il + ir && |ids| > LeafSize && |il| == |ids| / 2 && mid == start + |il|
    requires Bounding(sc, multiset(ids), b)
    requires WellBuilt(sc, l, il, start) && WellBuilt(sc, r, ir, mid)
    requires Separated(sc, multiset(il), multiset(ir), LongestAxis(b))
    ensures WellBuilt(sc, Fork(b, l, r), ids, start)
  {
    assert ids[..|il|] == il && ids[|il|..] == ir;
  }

  /** `b` is `a` with the stretch from `start` to `end` permuted. */
  ghost predicate Permuted(a: seq<nat>, b: seq<nat>, start: nat, end: nat) {
    && start <= end <= |a| == |b|
    && a[..start] == b[..start]
    && a[end..] == b[end..]
    && multiset(a[start..end]) == multiset(b[start..end])
  }

  lemma Splice(a: seq<nat>, start: nat, end: nat, stretch: seq<nat>) returns (b: seq<nat>)
    requires start <= end <= |a| && |stretch| == end - start && multiset(stretch) == multiset(a[start..end])
    ensures b == a[..start] + stretch + a[end..] && Permuted(a, b, start, end) && b[start..end] == stretch
  {
    b := a[..start] + stretch + a[end..];
    assert b[start..end] == stretch;
    assert b[..start] == a[..start];
    assert b[end..] == a[end..];
  }

  lemma PermutedWhole(a: seq<nat>, b: seq<nat>, start: nat, end: nat)
    requires Permuted(a, b, start, end)
    ensures multiset(a) == multiset(b)
  {
    assert a == a[..start] + a[start..end] + a[end..];
    assert b == b[..start] + b[start..end] + b[end..];
  }

  lemma PermutedTransitive(a: seq<nat>, b: seq<nat>, c: seq<nat>, start: nat, end: nat)
    requires Permuted(a, b, start, end) && Permuted(b, c, start, end)
    ensures Permuted(a, c, start, end)
  {
  }

  /** Permuting the lower half only. */
  lemma PermutedLower(a: seq<nat>, b: seq<nat>, start: nat, mid: nat, end: nat)
    requires Permuted(a, b, start, mid) && mid <= end <= |a|
    ensures b[mid..end] == a[mid..end] && Permuted(a, b, start, end)
  {
    forall k | mid <= k < |a| ensures a[k] == b[k] { assert a[mid..][k - mid] == b[mid..][k - mid]; }
    assert b[mid..end] == a[mid..end];
    assert a[start..end] == a[start..mid] + a[mid..end];
    assert b[start..end] == b[start..mid] + b[mid..end];
    assert a[end..] == b[end..];
  }

  /** Permuting the upper half only. */
  lemma PermutedUpper(a: seq<nat>, b: seq<nat>, start: nat, mid: nat, end: nat)
    requires Permuted(a, b, mid, end) && start <= mid
    ensures b[start..mid] == a[start..mid] && Permuted(a, b, start, end)
  {
    forall k | 0 <= k < mid ensures a[k] == b[k] { assert a[..mid][k] == b[..mid][k]; }
    assert b[start..mid] == a[start..mid];
    assert a[start..end] == a[start..mid] + a[mid..end];
    assert b[start..end] == b[start..mid] + b[mid..end];
    assert a[..start] == b[..start];
  }

  /** The two halves of a stretch after the second split. */
  lemma HalvesOf(a: seq<nat>, b: seq<nat>, c: seq<nat>, start: nat, mid: nat, end: nat)
    requires Permuted(a, b, start, mid) && Permuted(b, c, mid, end)
    ensures Permuted(a, c, start, end)
    ensures
      && c[start..mid] == b[start..mid] && multiset(c[start..mid]) == multiset(a[start..mid])
      && multiset(c[mid..end]) == multiset(a[mid..end])
  {
    PermutedLower(a, b, start, mid, end);
    PermutedUpper(b, c, start, mid, end);
    PermutedTransitive(a, b, c, start, end);
  }

  lemma PartsInRange(sc: Scene, l: multiset<nat>, r: multiset<nat>)
    requires InRange(sc, l + r)
    ensures InRange(sc, l) && InRange(sc, r)
  {
    forall i | i in l || i in r ensures i in l + r {}
  }

  /** What sorting gave the two halves of a stretch survives their being permuted. */
  lemma HalvesBounded(sc: Scene, bounds: Aabb, sorted: seq<nat>, sl: seq<nat>, sr: seq<nat>, ids: seq<nat>,
                      il: seq<nat>, ir: seq<nat>)
    requires sorted == sl + sr && ids == il + ir && multiset(sl) == multiset(il) && multiset(sr) == multiset(ir)
    requires Bounding(sc, multiset(sorted), bounds)
    requires Ascending(sorted, CentroidKey(sc, LongestAxis(bounds)))
    ensures Bounding(sc, multiset(ids), bounds) && InRange(sc, multiset(il)) && InRange(sc, multiset(ir))
    ensures Separated(sc, multiset(il), multiset(ir), LongestAxis(bounds))
  {
    assert multiset(sorted) == multiset(sl) + multiset(sr);
    PartsInRange(sc, multiset(sl), multiset(sr));
    AscendingSeparates(sc, sl, sr, LongestAxis(bounds));
  }

  lemma JoinHalves(sc: Scene, bounds: Aabb, l: Tree, r: Tree, a: seq<nat>, c: seq<nat>, start: nat, mid: nat, end: nat)
    requires |a| == |c| && start <= mid <= end <= |a| && mid == (start + end) / 2 && end - start > LeafSize
    requires multiset(c[start..mid]) == multiset(a[start..mid]) && multiset(c[mid..end]) == multiset(a[mid..end])
    requires Bounding(sc, multiset(a[start..end]), bounds)
    requires Ascending(a[start..end], CentroidKey(sc, LongestAxis(bounds)))
    requires WellBuilt(sc, l, c[start..mid], start) && WellBuilt(sc, r, c[mid..end], mid)
    ensures WellBuilt(sc, Fork(bounds, l, r), c[start..end], start)
  {
    Concat(a, start, mid, end);
    Concat(c, start, mid, end);
    HalvesBounded(sc, bounds, a[start..end], a[start..mid], a[mid..end], c[start..end], c[start..mid], c[mid..end]);
    BranchIsWellBuilt(sc, bounds, l, r, c[start..mid], c[mid..end], c[start..end], start, mid);
  }

  lemma Concat(s: seq<nat>, start: nat, mid: nat, end: nat)
    requires start <= mid <= end <= |s|
    ensures s[start..end] == s[start..mid] + s[mid..end]
  {
  }

  /** A branch appended over two nodes already in the arena. */
  lemma AppendBranch(nodes: seq<Node>, b: Aabb, left: nat, right: nat)
    requires Closed(nodes) && left < |nodes| && right < |nodes|
    ensures var nodes' := nodes + [Branch(b, left, right)];
      Closed(nodes') && TreeAt(nodes', |nodes|) == Fork(b, TreeAt(nodes, left), TreeAt(nodes, right))
  {
    TreeAtExtends(nodes, [Branch(b, left, right)], left);
    TreeAtExtends(nodes, [Branch(b, left, right)], right);
  }

  lemma TreeAtPrefix(nodes: seq<Node>, nodes': seq<Node>, n: nat)
    requires nodes <= nodes' && Closed(nodes) && Closed(nodes') && n < |nodes|
    ensures TreeAt(nodes', n) == TreeAt(nodes, n)
  {
    assert nodes' == nodes + nodes'[|nodes|..];
    TreeAtExtends(nodes, nodes'[|nodes|..], n);
  }

  lemma StretchInRange(sc: Scene, order: seq<nat>, start: nat, end: nat)
    requires start <= end <= |order| && InRange(sc, multiset(order))
    ensures InRange(sc, multiset(order[start..end]))
  {
    forall i | i in multiset(order[start..end]) ensures i in multiset(order) { assert i in order[start..end]; }
  }

  // ---------------------------------------------------------------- searching two trees

  /** Whether the search of two trees reports a touching pair of leaves. */
  ghost predicate Found(ta: Tree, tb: Tree, touch: (Tree, Tree) -> bool)
    decreases ta, tb
  {
    match ta
    case Fork(_, l, r) => Found(l, tb, touch) || Found(r, tb, touch)
    case Tip(_, _, _) =>
      match tb
      case Fork(_, l, r) => Found(ta, l, touch) || Found(ta, r, touch)
      case Tip(_, _, _) => Overlaps(ta.bounds, tb.bounds) && touch(ta, tb)
  }

  ghost predicate TipOf(u: Tree, t: Tree)
    decreases t
  {
    match t
    case Tip(_, _, _) => u == t
    case Fork(_, l, r) => TipOf(u, l) || TipOf(u, r)
  }

  /** The search finds exactly the leaf pairs that touch and whose boxes overlap. */
  lemma {:induction false} FoundIff(ta: Tree, tb: Tree, touch: (Tree, Tree) -> bool)
    ensures Found(ta, tb, touch) <==>
        exists u, v :: TipOf(u, ta) && TipOf(v, tb) && Overlaps(u.bounds, v.bounds) && touch(u, v)
    decreases ta, tb
  {
    match ta
    case Fork(_, l, r) =>
      FoundIff(l, tb, touch);
      FoundIff(r, tb, touch);
    case Tip(_, _, _) =>
      match tb
      case Fork(_, l, r) =>
        FoundIff(ta, l, touch);
        FoundIff(ta, r, touch);
      case Tip(_, _, _) =>
        assert TipOf(ta, ta) && TipOf(tb, tb);
  }

  /** A tree standing over some stretch of the order. */
  ghost predicate Seated(sc: Scene, order: seq<nat>, t: Tree) {
    exists lo: nat, hi: nat :: lo < hi <= |order| && WellBuilt(sc, t, order[lo..hi], lo)
  }

  lemma SeatedTip(sc: Scene, order: seq<nat>, t: Tree)
    requires Seated(sc, order, t) && t.Tip?
    ensures t.start + t.count <= |order|
  {
  }

  lemma SeatedChildren(sc: Scene, order: seq<nat>, t: Tree)
    requires Seated(sc, order, t) && t.Fork?
    ensures Seated(sc, order, t.left) && Seated(sc, order, t.right)
    ensures Within(t.left.bounds, t.bounds) && Within(t.right.bounds, t.bounds)
  {
    var lo: nat, hi: nat :| lo < hi <= |order| && WellBuilt(sc, t, order[lo..hi], lo);
    var mid := lo + (hi - lo) / 2;
    var ids := order[lo..hi];
    assert ids[..mid - lo] == order[lo..mid] && ids[mid - lo..] == order[mid..hi];
    assert ids == order[lo..mid] + order[mid..hi];
    HalvesAreWellBuilt(sc, t, t.left, t.right, ids, lo, order[lo..mid], order[mid..hi]);
    HalvesWithin(sc, ids, t.bounds, order[lo..mid], t.left.bounds, order[mid..hi], t.right.bounds);
  }

  lemma HalvesAreWellBuilt(sc: Scene, t: Tree, l: Tree, r: Tree, ids: seq<nat>, start: nat, lower: seq<nat>,
                           upper: seq<nat>)
    requires WellBuilt(sc, t, ids, start) && t.Fork? && l == t.left && r == t.right
    requires lower == ids[..|ids| / 2] && upper == ids[|ids| / 2..]
    ensures WellBuilt(sc, l, lower, start) && WellBuilt(sc, r, upper, start + |lower|)
    ensures
      && Bounding(sc, multiset(lower), l.bounds) && Bounding(sc, multiset(upper), r.bounds)
      && Bounding(sc, multiset(ids), t.bounds)
  {
  }

  lemma HalvesWithin(sc: Scene, ids: seq<nat>, b: Aabb, lower: seq<nat>, c: Aabb, upper: seq<nat>, d: Aabb)
    requires ids == lower + upper
    requires Bounding(sc, multiset(ids), b) && Bounding(sc, multiset(lower), c) && Bounding(sc, multiset(upper), d)
    ensures Within(c, b) && Within(d, b)
  {
    BoundsShrink(sc, multiset(ids), b, multiset(lower), c);
    BoundsShrink(sc, multiset(ids), b, multiset(upper), d);
  }

  /** The smallest box around fewer triangles lies within the box around more. */
  lemma BoundsShrink(sc: Scene, all: multiset<nat>, b: Aabb, some: multiset<nat>, c: Aabb)
    requires Bounding(sc, all, b) && Bounding(sc, some, c) && some <= all
    ensures Within(c, b)
  {
    forall a: Axis ensures Along(b.min, a) <= Along(c.min, a) && Along(c.max, a) <= Along(b.max, a) {
      var i :| i in some && Along(sc.boxes[i].min, a) == Along(c.min, a);
      var j :| j in some && Along(sc.boxes[j].max, a) == Along(c.max, a);
      assert Within(sc.boxes[i], b) && Within(sc.boxes[j], b);
    }
  }

  lemma OverlapsGrow(a: Aabb, b: Aabb, a': Aabb, b': Aabb)
    requires Overlaps(a, b) && Within(a, a') && Within(b, b')
    ensures Overlaps(a', b')
  {
    forall k: Axis ensures Along(a'.min, k) <= Along(b'.max, k) && Along(a'.max, k) >= Along(b'.min, k) {
      assert Along(a.min, k) <= Along(b.max, k) && Along(a.max, k) >= Along(b.min, k);
    }
  }

  lemma WithinItself(a: Aabb)
    ensures Within(a, a)
  {
  }

  /** Nothing is lost by skipping a pair of trees whose bounds do not overlap. */
  lemma {:induction false} FoundOverlaps(sa: Scene, oa: seq<nat>, ta: Tree, sb: Scene, ob: seq<nat>, tb: Tree,
                                         touch: (Tree, Tree) -> bool)
    requires Seated(sa, oa, ta) && Seated(sb, ob, tb) && Found(ta, tb, touch)
    ensures Overlaps(ta.bounds, tb.bounds)
    decreases ta, tb
  {
    match ta
    case Fork(_, l, r) =>
      SeatedChildren(sa, oa, ta);
      var c := if Found(l, tb, touch) then l else r;
      FoundOverlaps(sa, oa, c, sb, ob, tb, touch);
      WithinItself(tb.bounds);
      OverlapsGrow(c.bounds, tb.bounds, ta.bounds, tb.bounds);
    case Tip(_, _, _) =>
      match tb
      case Fork(_, l, r) =>
        SeatedChildren(sb, ob, tb);
        var c := if Found(ta, l, touch) then l else r;
        FoundOverlaps(sa, oa, ta, sb, ob, c, touch);
        WithinItself(ta.bounds);
        OverlapsGrow(ta.bounds, c.bounds, ta.bounds, tb.bounds);
      case Tip(_, _, _) =>
  }

  ghost function Weight(t: Tree): (w: nat)
    ensures w >= 1
  {
    match t case Tip(_, _, _) => 1 case Fork(_, l, r) => 1 + Weight(l) + Weight(r)
  }

  /** What is left to search, and how much work it is. */
  ghost predicate AnyFound(work: seq<(Tree, Tree)>, touch: (Tree, Tree) -> bool) {
    |work| > 0 && (Found(work[|work| - 1].0, work[|work| - 1].1, touch) || AnyFound(work[..|work| - 1], touch))
  }

  ghost function TotalWork(work: seq<(Tree, Tree)>): nat {
    if |work| == 0 then 0
    else Weight(work[|work| - 1].0) * Weight(work[|work| - 1].1) + TotalWork(work[..|work| - 1])
  }

  lemma PushTwo(work: seq<(Tree, Tree)>, p: (Tree, Tree), q: (Tree, Tree), touch: (Tree, Tree) -> bool)
    ensures
      AnyFound(work + [p, q], touch) <==> Found(p.0, p.1, touch) || Found(q.0, q.1, touch) || AnyFound(work, touch)
    ensures TotalWork(work + [p, q]) == Weight(p.0) * Weight(p.1) + Weight(q.0) * Weight(q.1) + TotalWork(work)
  {
    assert (work + [p, q])[..|work| + 1] == work + [p];
    assert (work + [p])[..|work|] == work;
  }

  lemma SplitProduct(b: nat, l: nat, r: nat, c: nat)
    requires b == 1 + l + r && c >= 1
    ensures l * c + r * c < b * c && c * l + c * r < c * b
  {
    assert b * c == c + l * c + r * c;
  }

  /** Replacing a pair by the pairs of one side's children keeps the answer and lessens the work. */
  lemma DescendFirst(work: seq<(Tree, Tree)>, ta: Tree, tb: Tree, touch: (Tree, Tree) -> bool, next: seq<(Tree, Tree)>)
    requires ta.Fork? && next == work + [(ta.left, tb), (ta.right, tb)]
    ensures AnyFound(next, touch) <==> Found(ta, tb, touch) || AnyFound(work, touch)
    ensures TotalWork(next) < TotalWork(work) + Weight(ta) * Weight(tb)
  {
    PushTwo(work, (ta.left, tb), (ta.right, tb), touch);
    SplitProduct(Weight(ta), Weight(ta.left), Weight(ta.right), Weight(tb));
  }

  lemma DescendSecond(work: seq<(Tree, Tree)>, ta: Tree, tb: Tree, touch: (Tree, Tree) -> bool, next: seq<(Tree, Tree)>)
    requires ta.Tip? && tb.Fork? && next == work + [(ta, tb.left), (ta, tb.right)]
    ensures AnyFound(next, touch) <==> Found(ta, tb, touch) || AnyFound(work, touch)
    ensures TotalWork(next) < TotalWork(work) + Weight(ta) * Weight(tb)
  {
    PushTwo(work, (ta, tb.left), (ta, tb.right), touch);
    SplitProduct(Weight(tb), Weight(tb.left), Weight(tb.right), Weight(ta));
  }

  // ---------------------------------------------------------------- leaves and triangles

  /** The triangles a part's order lists, with the order. */
  datatype Listing = Listing(tris: seq<Tri>, order: seq<nat>)

  ghost predicate Full(l: Listing) { multiset(l.order) == multiset(Indices(|l.tris|)) }

  /** A triangle listed in the leaf `u` of one part hits one listed in the leaf `v` of the other. */
  ghost predicate LeavesTouch(a: Listing, b: Listing, hit: (Tri, Tri) -> bool, u: Tree, v: Tree) {
    exists m, n ::
      && Lists(a, u, m) && Lists(b, v, n)
      && hit(a.tris[a.order[m]], b.tris[b.order[n]])
  }

  /** Position `m` of the order falls in leaf `u`. */
  ghost predicate Lists(l: Listing, u: Tree, m: int) {
    u.Tip? && u.start <= m < u.start + u.count && m < |l.order| && l.order[m] < |l.tris|
  }

  ghost function TouchOf(a: Listing, b: Listing, hit: (Tri, Tri) -> bool): (Tree, Tree) -> bool {
    (u: Tree, v: Tree) => LeavesTouch(a, b, hit, u, v)
  }

  ghost function Indices(n: nat): seq<nat> { seq(n, i => i) }

  lemma ListedSomewhere(l: Listing, i: nat) returns (k: nat)
    requires Full(l) && i < |l.tris|
    ensures k < |l.order| && l.order[k] == i
  {
    assert Indices(|l.tris|)[i] == i;
    assert i in multiset(Indices(|l.tris|));
    assert i in multiset(l.order);
    k :| 0 <= k < |l.order| && l.order[k] == i;
  }

  lemma {:induction false} IndicesAreUnique(n: nat, i: nat)
    ensures multiset(Indices(n))[i] == (if i < n then 1 else 0)
    decreases n
  {
    if n > 0 {
      IndicesAreUnique(n - 1, i);
      assert Indices(n) == Indices(n - 1) + [n - 1];
    }
  }

  lemma CountTwice(s: seq<nat>, i: nat, j: nat)
    requires i < j < |s| && s[i] == s[j]
    ensures multiset(s)[s[i]] >= 2
  {
    assert s == s[..i] + [s[i]] + s[i + 1..j] + [s[j]] + s[j + 1..];
  }

  /** Each triangle is listed exactly once. */
  lemma ListedOnce(l: Listing, i: nat, j: nat)
    requires Full(l) && i < j < |l.order|
    ensures l.order[i] != l.order[j]
  {
    IndicesAreUnique(|l.tris|, l.order[i]);
    if l.order[i] == l.order[j] { CountTwice(l.order, i, j); }
  }

  /** Every position of the order lies in a leaf, whose bounds hold its triangle. */
  lemma {:induction false} LeafOf(sc: Scene, t: Tree, ids: seq<nat>, start: nat, k: nat) returns (u: Tree)
    requires k < |ids| && WellBuilt(sc, t, ids, start)
    ensures u.Tip? && TipOf(u, t) && u.start <= start + k < u.start + u.count
    ensures ids[k] < |sc.boxes| && Within(sc.boxes[ids[k]], u.bounds)
    decreases t
  {
    if t.Tip? {
      u := t;
      HeldWithin(sc, ids, t.bounds, k);
    } else {
      var mid := |ids| / 2;
      var lower, upper := ids[..mid], ids[mid..];
      HalvesAreWellBuilt(sc, t, t.left, t.right, ids, start, lower, upper);
      if k < mid {
        assert lower[k] == ids[k];
        u := LeafOf(sc, t.left, lower, start, k);
      } else {
        assert upper[k - mid] == ids[k];
        u := LeafOf(sc, t.right, upper, start + mid, k - mid);
      }
    }
  }

  lemma HeldWithin(sc: Scene, ids: seq<nat>, b: Aabb, k: nat)
    requires k < |ids| && Bounding(sc, multiset(ids), b)
    ensures ids[k] < |sc.boxes| && Within(sc.boxes[ids[k]], b)
  {
    assert ids[k] in multiset(ids);
  }

  /** No position lies in two leaves. */
  lemma {:induction false} LeavesAreDisjoint(sc: Scene, t: Tree, ids: seq<nat>, start: nat, u: Tree, v: Tree)
    requires WellBuilt(sc, t, ids, start) && TipOf(u, t) && TipOf(v, t)
    ensures u.Tip? && v.Tip? && (u == v || u.start + u.count <= v.start || v.start + v.count <= u.start)
    decreases t
  {
    LeafStaysInRange(sc, t, ids, start, u);
    LeafStaysInRange(sc, t, ids, start, v);
    if t.Fork? {
      var mid := |ids| / 2;
      HalvesAreWellBuilt(sc, t, t.left, t.right, ids, start, ids[..mid], ids[mid..]);
      if TipOf(u, t.left) && TipOf(v, t.left) {
        LeavesAreDisjoint(sc, t.left, ids[..mid], start, u, v);
      } else if TipOf(u, t.right) && TipOf(v, t.right) {
        LeavesAreDisjoint(sc, t.right, ids[mid..], start + mid, u, v);
      } else {
        LeafStaysInRange(sc, t.left, ids[..mid], start, if TipOf(u, t.left) then u else v);
        LeafStaysInRange(sc, t.right, ids[mid..], start + mid, if TipOf(u, t.left) then v else u);
      }
    }
  }

  lemma {:induction false} LeafStaysInRange(sc: Scene, t: Tree, ids: seq<nat>, start: nat, u: Tree)
    requires WellBuilt(sc, t, ids, start) && TipOf(u, t)
    ensures u.Tip? && start <= u.start && u.start + u.count <= start + |ids|
    decreases t
  {
    if t.Fork? {
      var mid := |ids| / 2;
      HalvesAreWellBuilt(sc, t, t.left, t.right, ids, start, ids[..mid], ids[mid..]);
      if TipOf(u, t.left) {
        LeafStaysInRange(sc, t.left, ids[..mid], start, u);
      } else {
        LeafStaysInRange(sc, t.right, ids[mid..], start + mid, u);
      }
    }
  }

  // ---------------------------------------------------------------- agreement with all pairs

  /** Some triangle of one part hits some triangle of the other. */
  ghost predicate AnyPair(a: seq<Tri>, b: seq<Tri>, hit: (Tri, Tri) -> bool) {
    exists i, j :: 0 <= i < |a| && 0 <= j < |b| && hit(a[i], b[j])
  }

  /** A part: its listing and the tree over it. */
  ghost predicate Part(l: Listing, t: Tree) {
    Full(l) && WellBuilt(SceneOf(l.tris), t, l.order, 0)
  }

  /** Whatever the search reports is a pair that hits. */
  lemma FoundIsHit(a: Listing, ta: Tree, b: Listing, tb: Tree, hit: (Tri, Tri) -> bool)
    requires Found(ta, tb, TouchOf(a, b, hit))
    ensures AnyPair(a.tris, b.tris, hit)
  {
    FoundIff(ta, tb, TouchOf(a, b, hit));
    var u, v :| TipOf(u, ta) && TipOf(v, tb) && Overlaps(u.bounds, v.bounds) && TouchOf(a, b, hit)(u, v);
    assert LeavesTouch(a, b, hit, u, v);
    var m, n :| Lists(a, u, m) && Lists(b, v, n) && hit(a.tris[a.order[m]], b.tris[b.order[n]]);
  }

  /** A pair that hits and whose boxes overlap is never missed. */
  lemma OverlappingHitIsFound(a: Listing, ta: Tree, b: Listing, tb: Tree, hit: (Tri, Tri) -> bool, i: nat, j: nat)
    requires Part(a, ta) && Part(b, tb) && i < |a.tris| && j < |b.tris|
    requires hit(a.tris[i], b.tris[j]) && Overlaps(BoxOf(a.tris[i]), BoxOf(b.tris[j]))
    ensures Found(ta, tb, TouchOf(a, b, hit))
  {
    var m, u := LeafListing(a, ta, i);
    var n, v := LeafListing(b, tb, j);
    assert LeavesTouch(a, b, hit, u, v);
    OverlapsGrow(BoxOf(a.tris[i]), BoxOf(b.tris[j]), u.bounds, v.bounds);
    assert TouchOf(a, b, hit)(u, v);
    FoundIff(ta, tb, TouchOf(a, b, hit));
  }

  lemma LeafListing(l: Listing, t: Tree, i: nat) returns (k: nat, u: Tree)
    requires Part(l, t) && i < |l.tris|
    ensures TipOf(u, t) && Lists(l, u, k) && l.order[k] == i && Within(BoxOf(l.tris[i]), u.bounds)
  {
    k := ListedSomewhere(l, i);
    u := LeafOf(SceneOf(l.tris), t, l.order, 0, k);
  }

  /** A pair test that only accepts triangles whose boxes overlap. */
  ghost predicate BoxSound(a: seq<Tri>, b: seq<Tri>, hit: (Tri, Tri) -> bool) {
    forall i, j :: 0 <= i < |a| && 0 <= j < |b| && hit(a[i], b[j]) ==> Overlaps(BoxOf(a[i]), BoxOf(b[j]))
  }

  /** For a box-sound test the search is the all-pairs test. */
  lemma SearchIsAllPairs(a: Listing, ta: Tree, b: Listing, tb: Tree, hit: (Tri, Tri) -> bool)
    requires Part(a, ta) && Part(b, tb) && BoxSound(a.tris, b.tris, hit)
    ensures Found(ta, tb, TouchOf(a, b, hit)) <==> AnyPair(a.tris, b.tris, hit)
  {
    if Found(ta, tb, TouchOf(a, b, hit)) {
      FoundIsHit(a, ta, b, tb, hit);
    }
    if AnyPair(a.tris, b.tris, hit) {
      var i, j :| 0 <= i < |a.tris| && 0 <= j < |b.tris| && hit(a.tris[i], b.tris[j]);
      OverlappingHitIsFound(a, ta, b, tb, hit, i, j);
    }
  }

  /** What a search works on: two arenas with their scenes and orders, and the leaf test. */
  datatype Search = Search(na: seq<Node>, sa: Scene, oa: seq<nat>, nb: seq<Node>, sb: Scene, ob: seq<nat>,
    touch: (Tree, Tree) -> bool)
  {
    ghost predicate Ready() { Closed(na) && Closed(nb) }

    /** The trees a pair of node numbers stands for. */
    ghost predicate Pending(p: (nat, nat), w: (Tree, Tree))
      requires Ready()
    {
      && p.0 < |na| && p.1 < |nb|
      && w == (TreeAt(na, p.0), TreeAt(nb, p.1))
      && Seated(sa, oa, w.0) && Seated(sb, ob, w.1)
    }

    ghost predicate Stacked(stack: seq<(nat, nat)>, work: seq<(Tree, Tree)>)
      requires Ready()
    {
      |stack| == |work| && forall k :: 0 <= k < |stack| ==> Pending(stack[k], work[k])
    }
  }

  lemma PendingNodes(s: Search, p: (nat, nat), w: (Tree, Tree))
    requires s.Ready() && s.Pending(p, w)
    ensures w.0.bounds == s.na[p.0].bounds && w.1.bounds == s.nb[p.1].bounds
    ensures w.0.Fork? == s.na[p.0].Branch? && w.1.Fork? == s.nb[p.1].Branch?
    ensures
      w.0.Tip? ==> w.0 == Tip(s.na[p.0].bounds, s.na[p.0].start, s.na[p.0].count) && w.0.start + w.0.count <= |s.oa|
    ensures
      w.1.Tip? ==> w.1 == Tip(s.nb[p.1].bounds, s.nb[p.1].start, s.nb[p.1].count) && w.1.start + w.1.count <= |s.ob|
  {
    if w.0.Tip? { SeatedTip(s.sa, s.oa, w.0); }
    if w.1.Tip? { SeatedTip(s.sb, s.ob, w.1); }
  }

  lemma PushChildren(s: Search, p: (nat, nat), w: (Tree, Tree))
    requires s.Ready() && s.Pending(p, w)
    ensures w.0.Fork? ==>
        s.Pending((s.na[p.0].left, p.1), (w.0.left, w.1)) && s.Pending((s.na[p.0].right, p.1), (w.0.right, w.1))
    ensures w.1.Fork? ==>
        s.Pending((p.0, s.nb[p.1].left), (w.0, w.1.left)) && s.Pending((p.0, s.nb[p.1].right), (w.0, w.1.right))
  {
    if w.0.Fork? { SeatedChildren(s.sa, s.oa, w.0); }
    if w.1.Fork? { SeatedChildren(s.sb, s.ob, w.1); }
  }

  lemma PruneIsSafe(s: Search, p: (nat, nat), w: (Tree, Tree))
    requires s.Ready() && s.Pending(p, w) && !Overlaps(w.0.bounds, w.1.bounds)
    ensures !Found(w.0, w.1, s.touch)
  {
    if Found(w.0, w.1, s.touch) { FoundOverlaps(s.sa, s.oa, w.0, s.sb, s.ob, w.1, s.touch); }
  }

  lemma SeatedRoot(sc: Scene, order: seq<nat>, t: Tree)
    requires WellBuilt(sc, t, order, 0) && order != []
    ensures Seated(sc, order, t)
  {
    assert order[0..|order|] == order;
  }

  lemma FullIsInRange(l: Listing)
    ensures Full(l) ==> |l.order| == |l.tris| && forall k :: 0 <= k < |l.order| ==> l.order[k] < |l.tris|
  {
    if Full(l) {
      assert |multiset(l.order)| == |multiset(Indices(|l.tris|))|;
      forall k | 0 <= k < |l.order| ensures l.order[k] < |l.tris| {
        assert l.order[k] in multiset(Indices(|l.tris|));
      }
    }
  }

  lemma PopWork(work: seq<(Tree, Tree)>, touch: (Tree, Tree) -> bool)
    requires work != []
    ensures var last := |work| - 1;
      && (AnyFound(work, touch) <==> Found(work[last].0, work[last].1, touch) || AnyFound(work[..last], touch))
      && TotalWork(work) == Weight(work[last].0) * Weight(work[last].1) + TotalWork(work[..last])
      && Weight(work[last].0) * Weight(work[last].1) > 0
  {
  }

  /** Tests the triangles of one leaf against those of another. */
  method ScanLeaves(a: Listing, u: Tree, b: Listing, v: Tree, hit: (Tri, Tri) -> bool) returns (found: bool)
    requires Full(a) && Full(b) && u.Tip? && v.Tip?
    requires u.start + u.count <= |a.order| && v.start + v.count <= |b.order|
    ensures found <==> LeavesTouch(a, b, hit, u, v)
  {
    FullIsInRange(a);
    FullIsInRange(b);
    for m := u.start to u.start + u.count
      invariant forall k, n :: u.start <= k < m && Lists(b, v, n) ==> !hit(a.tris[a.order[k]], b.tris[b.order[n]])
    {
      for n := v.start to v.start + v.count
        invariant forall k :: v.start <= k < n ==> !hit(a.tris[a.order[m]], b.tris[b.order[k]])
      {
        if hit(a.tris[a.order[m]], b.tris[b.order[n]]) {
          assert Lists(a, u, m) && Lists(b, v, n);
          return true;
        }
      }
    }
    return false;
  }

  class PartBvh {
    const tris: seq<Tri>
    var order: seq<nat>
    var nodes: seq<Node>
    var root: nat

    /** The order is a permutation of the triangles, and the root is a correct tree over it. */
    ghost predicate Valid()
      reads this
    {
      && multiset(order) == multiset(Indices(|tris|))
      && Closed(nodes)
      && (tris != [] ==> root < |nodes| && WellBuilt(SceneOf(tris), TreeAt(nodes, root), order, 0))
    }

    /** Building reads the first triangle, so a mesh without triangles cannot be built. */
    constructor (tris: seq<Tri>)
      requires tris != []
      ensures Valid() && this.tris == tris
    {
      this.tris := tris;
      this.order := seq(|tris|, i => i);
      this.nodes := [];
      new;
      ghost var indices := order;
      assert indices == Indices(|tris|);
      var n := Split(SceneOf(tris), 0, |tris|);
      root := n;
      PermutedWhole(indices, order, 0, |tris|);
      assert order[0..|tris|] == order;
    }

    method Split(sc: Scene, start: nat, end: nat) returns (n: nat)
      requires start < end <= |order| && InRange(sc, multiset(order)) && Closed(nodes)
      modifies this`order, this`nodes
      ensures Permuted(old(order), order, start, end) && multiset(order) == multiset(old(order))
      ensures old(nodes) <= nodes && Closed(nodes) && n + 1 == |nodes|
      ensures WellBuilt(sc, TreeAt(nodes, n), order[start..end], start)
      decreases end - start
    {
      StretchInRange(sc, order, start, end);
      var bounds := BoundsOf(sc, order[start..end]);
      if end - start <= LeafSize {
        nodes := nodes + [Leaf(bounds, start, end - start)];
        return |nodes| - 1;
      }
      SortStretch(start, end, CentroidKey(sc, LongestAxis(bounds)));
      ghost var a := order;
      var mid := (start + end) / 2;
      var left := Split(sc, start, mid);
      ghost var b, l, nodes1 := order, TreeAt(nodes, left), nodes;
      var right := Split(sc, mid, end);
      TreeAtPrefix(nodes1, nodes, left);
      HalvesOf(a, b, order, start, mid, end);
      JoinHalves(sc, bounds, l, TreeAt(nodes, right), a, order, start, mid, end);
      AppendBranch(nodes, bounds, left, right);
      nodes := nodes + [Branch(bounds, left, right)];
      n := |nodes| - 1;
    }

    method SortStretch(start: nat, end: nat, key: nat -> real)
      requires start <= end <= |order|
      modifies this`order
      ensures Permuted(old(order), order, start, end) && multiset(order) == multiset(old(order))
      ensures Ascending(order[start..end], key)
    {
      var stretch := order[start..end];
      var sorted := Sort(stretch, ByKey(key));
      SortAscends(stretch, key);
      ghost var b := Splice(order, start, end, sorted);
      order := order[..start] + sorted + order[end..];
      PermutedWhole(old(order), order, start, end);
    }

    ghost function AsListing(): Listing
      reads this
    {
      Listing(tris, order)
    }

    /** True if any triangle of this part hits any of the other, as far as the boxes let the
        search look: exactly when a pair of leaves with overlapping bounds holds a hitting pair. */
    method Intersects(other: PartBvh, hit: (Tri, Tri) -> bool) returns (found: bool)
      requires Valid() && other.Valid()
      ensures found <==>
        && tris != [] && other.tris != []
        && Found(TreeAt(nodes, root), TreeAt(other.nodes, other.root), TouchOf(AsListing(), other.AsListing(), hit))
    {
      if tris == [] || other.tris == [] { return false; }
      ghost var ra, rb := TreeAt(nodes, root), TreeAt(other.nodes, other.root);
      ghost var s := Search(nodes, SceneOf(tris), order, other.nodes, SceneOf(other.tris), other.order,
          TouchOf(AsListing(), other.AsListing(), hit));
      FullIsInRange(AsListing());
      FullIsInRange(other.AsListing());
      SeatedRoot(s.sa, order, ra);
      SeatedRoot(s.sb, other.order, rb);
      found :=
        SearchPairs(s, Listing(tris, order), nodes, root, Listing(other.tris, other.order), other.nodes, other.root,
          hit);
    }
  }

  /** The loop over the stack of node pairs. */
  method SearchPairs(ghost s: Search, a: Listing, na: seq<Node>, ra: nat, b: Listing, nb: seq<Node>, rb: nat,
                     hit: (Tri, Tri) -> bool) returns (found: bool)
    requires
      s.Ready() && s.na == na && s.nb == nb && s.oa == a.order && s.ob == b.order && s.touch == TouchOf(a, b, hit)
    requires Full(a) && Full(b) && ra < |na| && rb < |nb|
    requires Seated(s.sa, a.order, TreeAt(na, ra)) && Seated(s.sb, b.order, TreeAt(nb, rb))
    ensures found <==> Found(TreeAt(na, ra), TreeAt(nb, rb), s.touch)
  {
    ghost var ta, tb := TreeAt(na, ra), TreeAt(nb, rb);
    var stack: seq<(nat, nat)> := [(ra, rb)];
    ghost var work := [(ta, tb)];
    while stack != []
      invariant s.Stacked(stack, work)
      invariant Found(ta, tb, s.touch) <==> AnyFound(work, s.touch)
      decreases TotalWork(work)
    {
      var last := |stack| - 1;
      PopWork(work, s.touch);
      ghost var rest := work[..last];
      var hits, more, moreWork := Visit(s, a, na, b, nb, hit, stack[last], work[last], rest);
      if hits { return true; }
      PushWork(s, stack[..last], rest, more, moreWork);
      stack, work := stack[..last] + more, rest + moreWork;
    }
    return false;
  }

  lemma PushWork(s: Search, stack: seq<(nat, nat)>, work: seq<(Tree, Tree)>, more: seq<(nat, nat)>,
                 moreWork: seq<(Tree, Tree)>)
    requires s.Ready() && s.Stacked(stack, work) && s.Stacked(more, moreWork)
    ensures s.Stacked(stack + more, work + moreWork)
  {
  }

  /** One pair off the stack: skip it, scan two leaves, or push the children of one side. */
  method Visit(ghost s: Search, a: Listing, na: seq<Node>, b: Listing, nb: seq<Node>, hit: (Tri, Tri) -> bool,
               p: (nat, nat), ghost w: (Tree, Tree), ghost rest: seq<(Tree, Tree)>)
    returns (found: bool, more: seq<(nat, nat)>, ghost moreWork: seq<(Tree, Tree)>)
    requires
      s.Ready() && s.na == na && s.nb == nb && s.oa == a.order && s.ob == b.order && s.touch == TouchOf(a, b, hit)
    requires Full(a) && Full(b) && s.Pending(p, w)
    ensures found ==> Found(w.0, w.1, s.touch)
    ensures !found ==>
      && s.Stacked(more, moreWork)
      && (AnyFound(rest + moreWork, s.touch) <==> Found(w.0, w.1, s.touch) || AnyFound(rest, s.touch))
      && TotalWork(rest + moreWork) < TotalWork(rest) + Weight(w.0) * Weight(w.1)
  {
    PendingNodes(s, p, w);
    assert rest + [] == rest;
    assert Weight(w.0) * Weight(w.1) > 0;
    if !Overlaps(na[p.0].bounds, nb[p.1].bounds) {
      PruneIsSafe(s, p, w);
      return false, [], [];
    }
    match (na[p.0], nb[p.1])
    case (Leaf(bu, su, cu), Leaf(bv, sv, cv)) =>
      found := ScanLeaves(a, Tip(bu, su, cu), b, Tip(bv, sv, cv), hit);
      return found, [], [];
    case (Branch(_, left, right), _) =>
      PushChildren(s, p, w);
      more, moreWork := [(left, p.1), (right, p.1)], [(w.0.left, w.1), (w.0.right, w.1)];
      DescendFirst(rest, w.0, w.1, s.touch, rest + moreWork);
      return false, more, moreWork;
    case (_, Branch(_, left, right)) =>
      PushChildren(s, p, w);
      more, moreWork := [(p.0, left), (p.0, right)], [(w.0, w.1.left), (w.0, w.1.right)];
      DescendSecond(rest, w.0, w.1, s.touch, rest + moreWork);
      return false, more, moreWork;
  }
}
