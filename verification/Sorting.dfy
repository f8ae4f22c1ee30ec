/** The stable sort behind the finalists and the hierarchy's stretches. */
module Sorting {
  ghost predicate Total<T(!new)>(le: (T, T) -> bool) { forall a, b :: le(a, b) || le(b, a) }

  ghost predicate Transitive<T(!new)>(le: (T, T) -> bool) { forall a, b, c :: le(a, b) && le(b, c) ==> le(a, c) }

  predicate Sorted<T>(s: seq<T>, le: (T, T) -> bool) { forall i, j :: 0 <= i < j < |s| ==> le(s[i], s[j]) }

  /** Inserts after every entry that comes no later, so equal entries keep their order. */
  function Insert<T>(s: seq<T>, le: (T, T) -> bool, x: T): (out: seq<T>)
    ensures multiset(out) == multiset(s) + multiset{x} && |out| == |s| + 1
  {
    if s == [] then [x]
    else
      var last := s[|s| - 1];
      assert s == s[..|s| - 1] + [last];
      if le(last, x) then s + [x] else Insert(s[..|s| - 1], le, x) + [last]
  }

  function Sort<T>(s: seq<T>, le: (T, T) -> bool): (out: seq<T>)
    ensures multiset(out) == multiset(s) && |out| == |s|
  {
    if s == [] then []
    else
      assert s == s[..|s| - 1] + [s[|s| - 1]];
      Insert(Sort(s[..|s| - 1], le), le, s[|s| - 1])
  }

  lemma {:induction false} InsertSorts<T(!new)>(s: seq<T>, le: (T, T) -> bool, x: T)
    requires Total(le) && Transitive(le) && Sorted(s, le)
    ensures Sorted(Insert(s, le, x), le)
    decreases |s|
  {
    if s != [] {
      var init, last := s[..|s| - 1], s[|s| - 1];
      assert s == init + [last];
      if le(last, x) {
        forall i | 0 <= i < |init| ensures le(s[i], x) { assert le(s[i], last); }
      } else {
        InsertSorts(init, le, x);
        var out := Insert(init, le, x);
        forall i | 0 <= i < |out| ensures le(out[i], last) {
          assert out[i] in multiset(out);
          assert out[i] in init || out[i] == x;
        }
      }
    }
  }

  lemma {:induction false} SortSorts<T(!new)>(s: seq<T>, le: (T, T) -> bool)
    requires Total(le) && Transitive(le)
    ensures Sorted(Sort(s, le), le)
    decreases |s|
  {
    if s != [] {
      SortSorts(s[..|s| - 1], le);
      InsertSorts(Sort(s[..|s| - 1], le), le, s[|s| - 1]);
    }
  }

  function Kept<T>(x: T, p: T -> bool): seq<T> { if p(x) then [x] else [] }

  function Filter<T>(s: seq<T>, p: T -> bool): seq<T> {
    if s == [] then [] else Filter(s[..|s| - 1], p) + Kept(s[|s| - 1], p)
  }

  lemma FilterAppend<T>(s: seq<T>, x: T, p: T -> bool)
    ensures Filter(s + [x], p) == Filter(s, p) + Kept(x, p)
  {
    assert (s + [x])[..|s|] == s;
  }

  lemma Swap<T>(a: seq<T>, b: seq<T>, c: seq<T>)
    requires b == [] || c == []
    ensures (a + b) + c == (a + c) + b
  {
  }

  /** Entries of one rank. */
  ghost predicate Tied<T(!new)>(le: (T, T) -> bool, p: T -> bool) { forall a, b :: p(a) && p(b) ==> le(a, b) }

  lemma {:induction false} InsertKeepsOrder<T(!new)>(s: seq<T>, le: (T, T) -> bool, x: T, p: T -> bool)
    requires Tied(le, p)
    ensures Filter(Insert(s, le, x), p) == Filter(s + [x], p)
    decreases |s|
  {
    FilterAppend(s, x, p);
    if s == [] {
      assert s + [x] == [x];
    } else {
      var init, last := s[..|s| - 1], s[|s| - 1];
      if !le(last, x) {
        InsertKeepsOrder(init, le, x, p);
        FilterAppend(Insert(init, le, x), last, p);
        FilterAppend(init, x, p);
        Swap(Filter(init, p), Kept(x, p), Kept(last, p));
      }
    }
  }

  /** The sort is stable: entries of one rank keep their order. */
  lemma {:induction false} SortIsStable<T(!new)>(s: seq<T>, le: (T, T) -> bool, p: T -> bool)
    requires Tied(le, p)
    ensures Filter(Sort(s, le), p) == Filter(s, p)
    decreases |s|
  {
    if s != [] {
      var init, x := s[..|s| - 1], s[|s| - 1];
      SortIsStable(init, le, p);
      InsertKeepsOrder(Sort(init, le), le, x, p);
      FilterAppend(Sort(init, le), x, p);
    }
  }
}
