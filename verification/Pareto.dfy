/** The Pareto front of evaluated candidates and the finalists drawn from it. */
module Pareto {
  import opened Sorting

  datatype Metrics = Metrics(score: real, enduranceMin: real, massG: real)

  datatype Candidate = Candidate(id: string, snapshotSha: string, metrics: Metrics, admitted: bool, nativeMs: real,
    rolloutMs: real)

  predicate Dominates(a: Metrics, b: Metrics) {
    && a.score >= b.score && a.enduranceMin >= b.enduranceMin && a.massG <= b.massG
    && (a.score > b.score || a.enduranceMin > b.enduranceMin || a.massG < b.massG)
  }

  /** Candidate `i` is admitted and no admitted candidate dominates it. */
  ghost predicate OnFront(cs: seq<Candidate>, i: int) {
    && 0 <= i < |cs| && cs[i].admitted
    && forall j :: 0 <= j < |cs| && cs[j].admitted ==> !Dominates(cs[j].metrics, cs[i].metrics)
  }

  /** The non-dominated admitted candidates among the first `n`, in their given order. */
  ghost function FrontOf(cs: seq<Candidate>, n: nat): seq<Candidate>
    requires n <= |cs|
  {
    if n == 0 then [] else FrontOf(cs, n - 1) + if OnFront(cs, n - 1) then [cs[n - 1]] else []
  }

  /** At least as good in score, endurance and mass. */
  predicate NoWorse(a: Metrics, b: Metrics) {
    a.score >= b.score && a.enduranceMin >= b.enduranceMin && a.massG <= b.massG
  }

  /** A front of the candidates: admitted ones of theirs, no two of which compare as at least as
      good in everything and better in something, such that every admitted candidate has one at
      least as good on it. */
  ghost predicate IsFront(cs: seq<Candidate>, front: seq<Candidate>) {
    && (forall c :: c in front ==> c in cs && c.admitted)
    && (forall i, j :: 0 <= i < |front| && 0 <= j < |front| && NoWorse(front[i].metrics, front[j].metrics) ==>
          && front[i].metrics.score == front[j].metrics.score
          && front[i].metrics.enduranceMin == front[j].metrics.enduranceMin
          && front[i].metrics.massG == front[j].metrics.massG)
    && (forall c :: c in cs && c.admitted ==> exists k :: 0 <= k < |front| && NoWorse(front[k].metrics, c.metrics))
  }

  lemma FrontIsFront(cs: seq<Candidate>)
    ensures IsFront(cs, FrontOf(cs, |cs|))
  {
    var front := FrontOf(cs, |cs|);
    forall c | c in front ensures c in cs && c.admitted { FrontMembers(cs, |cs|, c); }
    forall i, j | 0 <= i < |front| && 0 <= j < |front| && NoWorse(front[i].metrics, front[j].metrics)
      ensures !Dominates(front[i].metrics, front[j].metrics)
    {
      FrontMembers(cs, |cs|, front[i]);
      FrontMembers(cs, |cs|, front[j]);
    }
    forall c | c in cs && c.admitted ensures exists k :: 0 <= k < |front| && NoWorse(front[k].metrics, c.metrics) {
      var i :| 0 <= i < |cs| && cs[i] == c;
      var m := OffFrontIsDominated(cs, i);
      FrontMembers(cs, |cs|, cs[m]);
      var k :| 0 <= k < |front| && front[k] == cs[m];
    }
  }

  method ParetoFront(cs: seq<Candidate>) returns (front: seq<Candidate>)
    ensures front == FrontOf(cs, |cs|) && IsFront(cs, front)
  {
    front := [];
    for i := 0 to |cs|
      invariant front == FrontOf(cs, i)
    {
      if cs[i].admitted {
        var dominated := false;
        for j := 0 to |cs|
          invariant !dominated
          invariant forall k :: 0 <= k < j && cs[k].admitted ==> !Dominates(cs[k].metrics, cs[i].metrics)
        {
          if j != i && cs[j].admitted && Dominates(cs[j].metrics, cs[i].metrics) {
            dominated := true;
            break;
          }
        }
        if !dominated { front := front + [cs[i]]; }
      }
    }
    FrontIsFront(cs);
  }

  /** The front is exactly the set of non-dominated admitted candidates. */
  lemma {:induction false} FrontMembers(cs: seq<Candidate>, n: nat, c: Candidate)
    requires n <= |cs|
    ensures c in FrontOf(cs, n) <==> exists i :: 0 <= i < n && OnFront(cs, i) && cs[i] == c
  {
    if n > 0 {
      FrontMembers(cs, n - 1, c);
      if OnFront(cs, n - 1) {
        assert FrontOf(cs, n)[|FrontOf(cs, n)| - 1] == cs[n - 1];
        assert forall x :: x in FrontOf(cs, n) <==> x in FrontOf(cs, n - 1) || x == cs[n - 1];
      }
    }
  }

  /** The admitted candidates dominating `m`. */
  ghost function Dominators(cs: seq<Candidate>, m: Metrics): set<int> {
    set j | 0 <= j < |cs| && cs[j].admitted && Dominates(cs[j].metrics, m)
  }

  /** Every admitted candidate off the front is dominated by a member of it. */
  lemma {:induction false} OffFrontIsDominated(cs: seq<Candidate>, i: int) returns (k: int)
    requires 0 <= i < |cs| && cs[i].admitted
    ensures OnFront(cs, k) && (k == i || Dominates(cs[k].metrics, cs[i].metrics))
    ensures OnFront(cs, i) ==> k == i
    decreases Dominators(cs, cs[i].metrics)
  {
    if OnFront(cs, i) {
      k := i;
    } else {
      var j :| 0 <= j < |cs| && cs[j].admitted && Dominates(cs[j].metrics, cs[i].metrics);
      assert
        && j in Dominators(cs, cs[i].metrics) && j !in Dominators(cs, cs[j].metrics)
        && Dominators(cs, cs[j].metrics) <= Dominators(cs, cs[i].metrics);
      k := OffFrontIsDominated(cs, j);
    }
  }

  // ---------------------------------------------------------------- finalists

  datatype Ref = Ref(id: string, snapshotSha: string, metrics: Metrics)

  function RefOf(c: Candidate): Ref { Ref(c.id, c.snapshotSha, c.metrics) }

  ghost function ParetoRefs(cs: seq<Candidate>): seq<Ref> {
    var front := FrontOf(cs, |cs|);
    seq(|front|, i requires 0 <= i < |front| => RefOf(front[i]))
  }

  /** Code-point order of strings. */
  predicate TextLe(a: string, b: string) {
    a == [] || (b != [] && (a[0] < b[0] || (a[0] == b[0] && TextLe(a[1..], b[1..]))))
  }

  /** At least as good by score, then endurance, then lower mass. */
  predicate LexBest(a: Metrics, b: Metrics) {
    || a.score > b.score
    || (&& a.score == b.score
        && (a.enduranceMin > b.enduranceMin || (a.enduranceMin == b.enduranceMin && a.massG <= b.massG)))
  }

  /** The sort key of the finalists, ascending. */
  predicate RankedBefore(a: Ref, b: Ref) {
    LexBest(a.metrics, b.metrics) && (a.metrics == b.metrics ==> TextLe(a.id, b.id))
  }

  lemma {:induction false} TextLeTotal(a: string, b: string)
    ensures TextLe(a, b) || TextLe(b, a)
  {
    if a != [] && b != [] { TextLeTotal(a[1..], b[1..]); }
  }

  lemma {:induction false} TextLeTransitive(a: string, b: string, c: string)
    requires TextLe(a, b) && TextLe(b, c)
    ensures TextLe(a, c)
  {
    if a != [] && b != [] && c != [] && a[0] == b[0] == c[0] { TextLeTransitive(a[1..], b[1..], c[1..]); }
  }

  /** Text order: a prefix comes first, else the first character that differs decides. */
  lemma {:induction false} TextLeIff(a: string, b: string)
    ensures TextLe(a, b) <==> a <= b || exists k :: 0 <= k < |a| && k < |b| && a[..k] == b[..k] && a[k] < b[k]
  {
    if a != [] && b != [] && a[0] == b[0] {
      var s, t := a[1..], b[1..];
      TextLeIff(s, t);
      assert a == [a[0]] + s && b == [b[0]] + t;
      if k :| 0 <= k < |s| && k < |t| && s[..k] == t[..k] && s[k] < t[k] {
        assert a[..k + 1] == [a[0]] + s[..k] && b[..k + 1] == [b[0]] + t[..k];
      }
      if k :| 0 <= k < |a| && k < |b| && a[..k] == b[..k] && a[k] < b[k] {
        assert a[..k][1..] == s[..k - 1] && b[..k][1..] == t[..k - 1];
      }
    }
  }

  /** One of two refs ranks first: by the higher score, then the longer endurance, then the lower
      mass, then the id. */
  ghost predicate RanksFirst(a: Ref, b: Ref) {
    && a.metrics.score >= b.metrics.score
    && (a.metrics.score == b.metrics.score ==>
          && a.metrics.enduranceMin >= b.metrics.enduranceMin
          && (a.metrics.enduranceMin == b.metrics.enduranceMin ==>
                && a.metrics.massG <= b.metrics.massG
                && (a.metrics.massG == b.metrics.massG ==> TextLe(a.id, b.id))))
  }

  lemma RankedBeforeTransitive(a: Ref, b: Ref, c: Ref)
    requires RankedBefore(a, b) && RankedBefore(b, c)
    ensures RankedBefore(a, c)
  {
    if a.metrics == b.metrics == c.metrics { TextLeTransitive(a.id, b.id, c.id); }
  }

  function Ranking(): (Ref, Ref) -> bool { (a: Ref, b: Ref) => RankedBefore(a, b) }

  ghost predicate Ranked(refs: seq<Ref>) { forall i, j :: 0 <= i < j < |refs| ==> RankedBefore(refs[i], refs[j]) }

  lemma RankingOrders()
    ensures Total(Ranking()) && Transitive(Ranking())
  {
    forall a, b ensures Ranking()(a, b) || Ranking()(b, a) { TextLeTotal(a.id, b.id); }
    forall a, b, c | Ranking()(a, b) && Ranking()(b, c) ensures Ranking()(a, c) { RankedBeforeTransitive(a, b, c); }
  }

  lemma SortRanks(refs: seq<Ref>)
    ensures Ranked(Sort(refs, Ranking()))
  {
    RankingOrders();
    SortSorts(refs, Ranking());
    var t := Sort(refs, Ranking());
    forall i, j | 0 <= i < j < |t| ensures RankedBefore(t[i], t[j]) { assert Ranking()(t[i], t[j]); }
  }

  datatype Finalist = Finalist(rank: nat, id: string, snapshotSha: string)

  function Finalists(pareto: seq<Ref>): seq<Finalist> {
    var ranked := Sort(pareto, Ranking());
    var top := if |ranked| <= 3 then ranked else ranked[..3];
    seq(|top|, i requires 0 <= i < |top| => Finalist(i + 1, top[i].id, top[i].snapshotSha))
  }

  /** The finalists are the three (or all, when fewer) best-ranked members of the front. */
  lemma FinalistsAreTopRanked(cs: seq<Candidate>) returns (ranked: seq<Ref>)
    ensures multiset(ranked) == multiset(ParetoRefs(cs)) && Ranked(ranked)
    ensures forall i, j :: 0 <= i < j < |ranked| ==> RanksFirst(ranked[i], ranked[j])
    ensures var f := Finalists(ParetoRefs(cs));
      && |f| == (if |ranked| < 3 then |ranked| else 3)
      && forall i :: 0 <= i < |f| ==> f[i] == Finalist(i + 1, ranked[i].id, ranked[i].snapshotSha)
  {
    ranked := Sort(ParetoRefs(cs), Ranking());
    SortRanks(ParetoRefs(cs));
  }

  /** With any candidate admitted there is a rank-1 finalist, a member of the front that is
      lexicographically best among all admitted candidates, not only among the front. */
  lemma FirstFinalistIsBest(cs: seq<Candidate>, i: int) returns (k: int)
    requires 0 <= i < |cs| && cs[i].admitted
    ensures OnFront(cs, k) && |Finalists(ParetoRefs(cs))| > 0
    ensures Finalists(ParetoRefs(cs))[0] == Finalist(1, cs[k].id, cs[k].snapshotSha)
    ensures forall j :: 0 <= j < |cs| && cs[j].admitted ==> LexBest(cs[k].metrics, cs[j].metrics)
  {
    var ranked := FinalistsAreTopRanked(cs);
    var m := OffFrontIsDominated(cs, i);
    FrontRefIsRanked(cs, m, ranked);
    k := HeadIsOnFront(cs, ranked);
    forall j | 0 <= j < |cs| && cs[j].admitted ensures LexBest(cs[k].metrics, cs[j].metrics) {
      var d := OffFrontIsDominated(cs, j);
      FrontRefIsRanked(cs, d, ranked);
    }
  }

  lemma HeadIsOnFront(cs: seq<Candidate>, ranked: seq<Ref>) returns (k: int)
    requires ranked != [] && multiset(ranked) == multiset(ParetoRefs(cs))
    ensures OnFront(cs, k) && RefOf(cs[k]) == ranked[0]
  {
    assert ranked[0] in multiset(ranked);
    var front := FrontOf(cs, |cs|);
    var p :| 0 <= p < |front| && ParetoRefs(cs)[p] == ranked[0];
    FrontMembers(cs, |cs|, front[p]);
    k :| OnFront(cs, k) && cs[k] == front[p];
  }

  lemma FrontRefIsRanked(cs: seq<Candidate>, m: int, ranked: seq<Ref>)
    requires OnFront(cs, m) && multiset(ranked) == multiset(ParetoRefs(cs)) && Ranked(ranked)
    ensures ranked != [] && LexBest(ranked[0].metrics, cs[m].metrics)
  {
    FrontMembers(cs, |cs|, cs[m]);
    var front := FrontOf(cs, |cs|);
    var q :| 0 <= q < |front| && front[q] == cs[m];
    assert ParetoRefs(cs)[q] == RefOf(cs[m]);
    assert RefOf(cs[m]) in multiset(ranked);
  }
}
