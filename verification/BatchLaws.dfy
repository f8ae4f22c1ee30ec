/** What the validator lets through and what the derived evidence says. */
module BatchLaws {
  import opened Common
  import opened Pareto
  import opened Batch
  import opened BatchTheorems

  // ---------------------------------------------------------------- attempts

  /** The rules of an attempt list, one by one: numbered from one, each starting where the last
      one ended, counting what it covers, within the plan, with a limit and a runtime that are not
      negative; a cancelled attempt evaluated nothing and a complete one reached the end. */
  ghost predicate Continuous(plan: Plan, attempts: seq<Attempt>) {
    forall i :: 0 <= i < |attempts| ==> RulesAt(plan, attempts, i)
  }

  predicate RulesAt(plan: Plan, attempts: seq<Attempt>, i: int)
    requires 0 <= i < |attempts|
  {
    var a := attempts[i];
    && a.sequence == i + 1 && a.start == (if i == 0 then 0 else attempts[i - 1].end)
    && a.evaluated == a.end - a.start && 0 <= a.end && a.end <= plan.total
    && (a.requestedLimit.Some? ==> a.requestedLimit.value >= 0)
    && a.runtimeMs >= 0.0
    && (a.outcome == AttemptCancelled ==> a.evaluated == 0)
    && (a.outcome == AttemptComplete ==> a.end == plan.total)
  }

  lemma ContinuousPrefix(plan: Plan, attempts: seq<Attempt>, n: nat)
    requires Continuous(plan, attempts) && n <= |attempts|
    ensures Continuous(plan, attempts[..n])
  {
    forall i | 0 <= i < n ensures RulesAt(plan, attempts[..n], i) { assert RulesAt(plan, attempts, i); }
  }

  /** The outcome of the last attempt that each state needs. */
  predicate Fits(state: State, last: Outcome) {
    match state
    case Ready => last != AttemptRunning
    case Running => last == AttemptRunning
    case Paused => last == AttemptPaused || last == AttemptInterrupted
    case Cancelled => last == AttemptCancelled
    case Complete => last == AttemptComplete
  }

  lemma AttemptsOkIff(plan: Plan, c: Core)
    ensures AttemptsOk(plan, c) <==>
      && Continuous(plan, c.attempts)
      && c.nextOrdinal == (if c.attempts == [] then 0 else c.attempts[|c.attempts| - 1].end)
      && (if c.attempts == [] then c.state == Ready else Fits(c.state, c.attempts[|c.attempts| - 1].outcome))
  {
    forall i | 0 <= i < |c.attempts| ensures AttemptOk(plan, c.attempts, i) <==> RulesAt(plan, c.attempts, i) {}
  }

  /** The attempts go forward: none counts a negative number of candidates. */
  ghost predicate Forward(attempts: seq<Attempt>) { forall i :: 0 <= i < |attempts| ==> attempts[i].evaluated >= 0 }

  predicate Covers(a: Attempt, o: int) { a.start <= o < a.end }

  predicate HandsBack(a: Attempt, o: int) { a.end <= o < a.start }

  /** How many attempts cover an ordinal. */
  function Covering(s: seq<Attempt>, o: int): nat {
    if s == [] then 0 else Covering(s[..|s| - 1], o) + if Covers(s[|s| - 1], o) then 1 else 0
  }

  /** How many hand it back. */
  function HandingBack(s: seq<Attempt>, o: int): nat {
    if s == [] then 0 else HandingBack(s[..|s| - 1], o) + if HandsBack(s[|s| - 1], o) then 1 else 0
  }

  function EndOf(s: seq<Attempt>): int { if s == [] then 0 else s[|s| - 1].end }

  /** An ordinal is covered once more than it is handed back when it lies before the end, and as
      often otherwise. */
  lemma {:induction false} Telescopes(plan: Plan, s: seq<Attempt>, o: nat)
    requires Continuous(plan, s)
    ensures Covering(s, o) == HandingBack(s, o) + if o < EndOf(s) then 1 else 0
    decreases |s|
  {
    if s != [] {
      var n := |s| - 1;
      ContinuousPrefix(plan, s, n);
      Telescopes(plan, s[..n], o);
      assert RulesAt(plan, s, n);
      assert EndOf(s[..n]) == s[n].start;
    }
  }

  lemma {:induction false} HandingBackIff(s: seq<Attempt>, o: int)
    ensures HandingBack(s, o) > 0 <==> exists i :: 0 <= i < |s| && HandsBack(s[i], o)
  {
    if s != [] {
      var n := |s| - 1;
      HandingBackIff(s[..n], o);
      if HandingBack(s[..n], o) > 0 {
        var i :| 0 <= i < n && HandsBack(s[..n][i], o);
        assert HandsBack(s[i], o);
      }
      if i :| 0 <= i < |s| && HandsBack(s[i], o) { assert i < n ==> HandsBack(s[..n][i], o); }
    }
  }

  /** Every ordinal before the end is covered exactly once, and no other at all. */
  ghost predicate Tiles(s: seq<Attempt>) { forall o: nat :: Covering(s, o) == if o < EndOf(s) then 1 else 0 }

  /** Accepted attempts tile the evaluated ordinals exactly when all of them go forward. */
  lemma TilesIffForward(plan: Plan, s: seq<Attempt>)
    requires Continuous(plan, s)
    ensures Tiles(s) <==> Forward(s)
  {
    forall o: nat ensures Covering(s, o) == HandingBack(s, o) + if o < EndOf(s) then 1 else 0 {
      Telescopes(plan, s, o);
    }
    if Forward(s) {
      forall o: nat ensures HandingBack(s, o) == 0 {
        HandingBackIff(s, o);
        forall i | 0 <= i < |s| ensures !HandsBack(s[i], o) { assert RulesAt(plan, s, i); }
      }
    } else {
      var i :| 0 <= i < |s| && s[i].evaluated < 0;
      assert RulesAt(plan, s, i);
      assert HandsBack(s[i], s[i].end);
      HandingBackIff(s, s[i].end);
    }
  }

  /** The validator does not ask that they do: a checkpoint one of whose attempts hands an ordinal
      back is let through, and its attempts do not tile. */
  lemma BackwardIsAccepted(plan: Plan) returns (c: Checkpoint)
    requires 4 <= plan.total && Accepting(plan, 0, 3)
    ensures Valid(plan, c) && !Forward(c.core.attempts) && !Tiles(c.core.attempts)
  {
    var s := BackAndForth(plan);
    c := Sealed(plan, Core(Paused, 3, s, Results(plan, 0, 3)));
    AttemptsOkIff(plan, c.core);
    TilesIffForward(plan, s);
  }

  /** Two ordinals, one handed back, and two again. */
  lemma BackAndForth(plan: Plan) returns (s: seq<Attempt>)
    requires 3 <= plan.total
    ensures Continuous(plan, s) && !Forward(s) && |s| == 3 && s[2].end == 3 && s[2].outcome == AttemptPaused
  {
    var a := Attempt(1, 0, 2, 2, None, AttemptPaused, 0.0);
    var b := Attempt(2, 2, 1, -1, None, AttemptPaused, 0.0);
    var c := Attempt(3, 1, 3, 2, None, AttemptPaused, 0.0);
    s := [a, b, c];
    assert s[1].evaluated == -1;
  }

  /** The scheduler itself only goes forward: after any calls with any limits, cancellations and
      crashes the attempts of the durable checkpoint tile. */
  lemma SessionTiles(plan: Plan, calls: seq<Call>)
    requires 1 <= plan.total
    ensures var d := Session(plan, None, calls); d.Some? ==> Tiles(d.value.core.attempts)
  {
    SessionSound(plan, calls);
    var d := Session(plan, None, calls);
    if d.Some? {
      var s := d.value.core.attempts;
      forall i | 0 <= i < |s| ensures RulesAt(plan, s, i) && s[i].evaluated >= 0 { assert TileOk(plan, s, i); }
      TilesIffForward(plan, s);
    }
  }

  // ---------------------------------------------------------------- checkpoints

  /** What the validator asks of a checkpoint, one by one. */
  lemma ValidMeans(plan: Plan, c: Checkpoint)
    ensures Valid(plan, c) <==>
      && 0 <= c.core.nextOrdinal && c.core.nextOrdinal <= plan.total && AttemptsOk(plan, c.core)
      && |c.core.candidates| == c.core.nextOrdinal
      && (forall i :: 0 <= i < |c.core.candidates| ==> plan.accepts(i, c.core.candidates[i]))
      && (c.core.state == Ready ==> c.core.attempts == [])
      && (c.core.state == Complete <==> c.core.nextOrdinal == plan.total)
      && c.evidence == plan.derive(c.core)
  {
  }

  // ---------------------------------------------------------------- evidence

  ghost function AdmittedAt(cs: seq<Candidate>): set<int> { set i | 0 <= i < |cs| && cs[i].admitted }

  lemma {:induction false} CountIsCardinality(cs: seq<Candidate>)
    ensures CountAdmitted(cs) == |AdmittedAt(cs)|
  {
    if cs != [] {
      var init := cs[..|cs| - 1];
      CountIsCardinality(init);
      if cs[|cs| - 1].admitted {
        assert AdmittedAt(cs) == AdmittedAt(init) + {|cs| - 1};
      } else {
        assert AdmittedAt(cs) == AdmittedAt(init);
      }
    }
  }

  function Total<T>(s: seq<T>, f: T -> real): real { if s == [] then 0.0 else Total(s[..|s| - 1], f) + f(s[|s| - 1]) }

  lemma {:induction false} RuntimesAreTotals(cs: seq<Candidate>, attempts: seq<Attempt>)
    ensures NativeMs(cs) == Total(cs, (c: Candidate) => c.nativeMs)
    ensures RolloutMs(cs) == Total(cs, (c: Candidate) => c.rolloutMs)
    ensures AttemptMs(attempts) == Total(attempts, (a: Attempt) => a.runtimeMs)
    decreases |cs| + |attempts|
  {
    if cs != [] { RuntimesAreTotals(cs[..|cs| - 1], attempts); }
    if attempts != [] { RuntimesAreTotals(cs, attempts[..|attempts| - 1]); }
  }

  /** The derived evidence, field by field: how many candidates there are and how many of them are
      admitted, whether a later attempt resumed the work or one was cancelled, the front and its
      finalists once everything is in and nothing of them before, and the summed runtimes. */
  lemma EvidenceIs(total: nat, c: Core)
    ensures var e := EvidenceOf(total, c);
      && e.completedCandidates == |c.candidates| && e.benchmark.evaluated == |c.candidates|
      && e.benchmark.admitted == |AdmittedAt(c.candidates)|
      && (e.resumeObserved <==> exists a :: a in c.attempts && a.start > 0 && a.evaluated > 0)
      && (e.cancellationObserved <==> exists a :: a in c.attempts && a.outcome == AttemptCancelled)
      && (e.benchmark.complete <==> c.nextOrdinal == total)
      && (c.nextOrdinal == total ==>
            e.pareto == ParetoRefs(c.candidates) && e.finalists == Finalists(ParetoRefs(c.candidates)))
      && (c.nextOrdinal != total ==> e.pareto == [] && e.finalists == [])
      && e.benchmark.paretoPoints == |e.pareto| && e.benchmark.selectedFinalists == |e.finalists|
      && e.cost.nativeMs == Total(c.candidates, (c: Candidate) => c.nativeMs)
      && e.cost.rolloutMs == Total(c.candidates, (c: Candidate) => c.rolloutMs)
      && e.cost.attemptMs == Total(c.attempts, (a: Attempt) => a.runtimeMs)
  {
    CountIsCardinality(c.candidates);
    RuntimesAreTotals(c.candidates, c.attempts);
    ObservedAre(c.attempts);
  }

  lemma ObservedAre(attempts: seq<Attempt>)
    ensures Resumed(attempts) <==> exists a :: a in attempts && a.start > 0 && a.evaluated > 0
    ensures EverCancelled(attempts) <==> exists a :: a in attempts && a.outcome == AttemptCancelled
  {
    if Resumed(attempts) {
      var i :| 0 <= i < |attempts| && attempts[i].start > 0 && attempts[i].evaluated > 0;
      assert attempts[i] in attempts;
    }
    if EverCancelled(attempts) {
      var i :| 0 <= i < |attempts| && attempts[i].outcome.AttemptCancelled?;
      assert attempts[i] in attempts;
    }
  }

  // ---------------------------------------------------------------- writes

  /** The write after the candidate at ordinal start + k. */
  ghost predicate Written(plan: Plan, c: Core, k: nat, w: Core) {
    && 0 <= c.nextOrdinal && w.nextOrdinal == c.nextOrdinal + k + 1 && w.state == c.state
    && w.candidates == c.candidates + Results(plan, c.nextOrdinal, c.nextOrdinal + k + 1)
  }

  lemma WrittenNext(plan: Plan, c: Core, ms: real, k: nat, w: Core)
    requires c.attempts != [] && 0 <= c.nextOrdinal
    requires Written(plan, Extended(c, plan.evaluate(c.nextOrdinal), ms), k, w)
    ensures Written(plan, c, k + 1, w)
  {
    ResultsSplit(plan, c.nextOrdinal, c.nextOrdinal + k + 2);
  }

  lemma WrittenFirst(plan: Plan, c: Core, ms: real)
    requires c.attempts != [] && 0 <= c.nextOrdinal
    ensures Written(plan, c, 0, Extended(c, plan.evaluate(c.nextOrdinal), ms))
  {
  }

  /** The evaluation loop writes after every candidate, and once more at the end: nothing evaluated
      is more than one write away from being durable. */
  lemma {:induction false} EveryCandidateIsWritten(plan: Plan, c: Core, end: int, clock: nat -> Millis, k: nat)
    requires c.attempts != [] && 0 <= c.nextOrdinal <= end && Accepting(plan, c.nextOrdinal, end)
    ensures |LoopTrace(plan, c, end, clock)| == end - c.nextOrdinal + 1
    ensures k < end - c.nextOrdinal ==> Written(plan, c, k, LoopTrace(plan, c, end, clock)[k])
    decreases end - c.nextOrdinal
  {
    if c.nextOrdinal < end {
      var next := Extended(c, plan.evaluate(c.nextOrdinal), clock(c.nextOrdinal));
      EveryCandidateIsWritten(plan, next, end, clock, if k == 0 then 0 else k - 1);
      var rest := LoopTrace(plan, next, end, clock);
      assert LoopTrace(plan, c, end, clock) == [next] + rest;
      if k == 0 {
        WrittenFirst(plan, c, clock(c.nextOrdinal));
      } else if k < end - c.nextOrdinal {
        WrittenNext(plan, c, clock(c.nextOrdinal), k - 1, rest[k - 1]);
      }
    }
  }
}
