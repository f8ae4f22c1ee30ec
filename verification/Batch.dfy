/** The checkpointed batch scheduler: pause, cancel, crash and resume over any number of
    proposals, with a validator that re-derives the whole checkpoint. */
module Batch {
  import opened Common
  import opened Pareto

  type Millis = r: real | 0.0 <= r

  datatype State = Ready | Running | Paused | Cancelled | Complete

  datatype Outcome = AttemptRunning | AttemptPaused | AttemptCancelled | AttemptInterrupted | AttemptComplete

  datatype Attempt = Attempt(sequence: int, start: int, end: int, evaluated: int, requestedLimit: Option<int>,
    outcome: Outcome, runtimeMs: real)

  datatype Benchmark = Benchmark(evaluated: nat, admitted: nat, paretoPoints: nat, selectedFinalists: nat,
    complete: bool)

  datatype Cost = Cost(nativeMs: real, rolloutMs: real, attemptMs: real)

  /** The part of a checkpoint the scheduler edits. */
  datatype Core = Core(state: State, nextOrdinal: int, attempts: seq<Attempt>, candidates: seq<Candidate>)

  /** The part `_refresh` re-derives from it. */
  datatype Evidence = Evidence(
    completedCandidates: int, resumeObserved: bool, cancellationObserved: bool,
    pareto: seq<Ref>, finalists: seq<Finalist>, benchmark: Benchmark, cost: Cost)

  datatype Checkpoint = Checkpoint(core: Core, evidence: Evidence)

  /** The batch inputs: how many proposals there are, the deterministic evaluator, the
      per-candidate evidence check, and a name for the derivation `_refresh` applies. */
  datatype Plan = Plan(total: nat, evaluate: nat -> Candidate, accepts: (nat, Candidate) -> bool,
    derive: Core -> Evidence)

  // ---------------------------------------------------------------- derived evidence

  function CountAdmitted(cs: seq<Candidate>): nat {
    if cs == [] then 0 else CountAdmitted(cs[..|cs| - 1]) + if cs[|cs| - 1].admitted then 1 else 0
  }

  function NativeMs(cs: seq<Candidate>): real {
    if cs == [] then 0.0 else NativeMs(cs[..|cs| - 1]) + cs[|cs| - 1].nativeMs
  }

  function RolloutMs(cs: seq<Candidate>): real {
    if cs == [] then 0.0 else RolloutMs(cs[..|cs| - 1]) + cs[|cs| - 1].rolloutMs
  }

  function AttemptMs(attempts: seq<Attempt>): real {
    if attempts == [] then 0.0 else AttemptMs(attempts[..|attempts| - 1]) + attempts[|attempts| - 1].runtimeMs
  }

  predicate Resumed(attempts: seq<Attempt>) {
    exists i :: 0 <= i < |attempts| && attempts[i].start > 0 && attempts[i].evaluated > 0
  }

  predicate EverCancelled(attempts: seq<Attempt>) {
    exists i :: 0 <= i < |attempts| && attempts[i].outcome.AttemptCancelled?
  }

  function EvidenceWith(total: nat, c: Core, pareto: seq<Ref>): Evidence {
    var complete := c.nextOrdinal == total;
    var finalists := if complete then Finalists(pareto) else [];
    Evidence(|c.candidates|, Resumed(c.attempts), EverCancelled(c.attempts), pareto, finalists,
             Benchmark(|c.candidates|, CountAdmitted(c.candidates), |pareto|, |finalists|, complete),
             Cost(NativeMs(c.candidates), RolloutMs(c.candidates), AttemptMs(c.attempts)))
  }

  ghost function EvidenceOf(total: nat, c: Core): Evidence {
    EvidenceWith(total, c, if c.nextOrdinal == total then ParetoRefs(c.candidates) else [])
  }

  /** `_refresh`: the Pareto list and the finalists exist exactly once every proposal is in. */
  method DeriveEvidence(total: nat, c: Core) returns (e: Evidence)
    ensures e == EvidenceOf(total, c)
  {
    var pareto := [];
    if c.nextOrdinal == total {
      var front := ParetoFront(c.candidates);
      pareto := seq(|front|, i requires 0 <= i < |front| => RefOf(front[i]));
    }
    e := EvidenceWith(total, c, pareto);
  }

  /** The plan derives evidence as `_refresh` does. */
  ghost predicate Standard(plan: Plan) {
    forall c {:trigger EvidenceOf(plan.total, c)} :: plan.derive(c) == EvidenceOf(plan.total, c)
  }

  function Sealed(plan: Plan, c: Core): Checkpoint { Checkpoint(c, plan.derive(c)) }

  /** `_refresh` on the edited part of a checkpoint. */
  method Refresh(plan: Plan, c: Core) returns (value: Checkpoint)
    requires Standard(plan)
    ensures value == Sealed(plan, c)
  {
    var e := DeriveEvidence(plan.total, c);
    value := Checkpoint(c, e);
  }

  const FRESH := Core(Ready, 0, [], [])

  // ---------------------------------------------------------------- validation

  function Cursor(attempts: seq<Attempt>, i: int): int
    requires 0 <= i <= |attempts|
  {
    if i == 0 then 0 else attempts[i - 1].end
  }

  predicate AttemptOk(plan: Plan, attempts: seq<Attempt>, i: int)
    requires 0 <= i < |attempts|
  {
    var a := attempts[i];
    && a.sequence == i + 1 && a.start == Cursor(attempts, i)
    && a.end - a.start == a.evaluated && 0 <= a.end <= plan.total
    && (a.requestedLimit.Some? ==> 0 <= a.requestedLimit.value) && 0.0 <= a.runtimeMs
    && (a.outcome.AttemptCancelled? ==> a.evaluated == 0)
    && (a.outcome.AttemptComplete? ==> a.end == plan.total)
  }

  /** The last attempt's outcome fits the scheduler state. */
  predicate StateFits(state: State, attempts: seq<Attempt>) {
    if attempts == [] then state.Ready?
    else
      match attempts[|attempts| - 1].outcome
      case AttemptRunning => state.Running?
      case AttemptPaused => state.Paused? || state.Ready?
      case AttemptInterrupted => state.Paused? || state.Ready?
      case AttemptCancelled => state.Cancelled? || state.Ready?
      case AttemptComplete => state.Complete? || state.Ready?
  }

  predicate AttemptsOk(plan: Plan, c: Core) {
    && (forall i :: 0 <= i < |c.attempts| ==> AttemptOk(plan, c.attempts, i))
    && Cursor(c.attempts, |c.attempts|) == c.nextOrdinal
    && StateFits(c.state, c.attempts)
  }

  method ValidateAttempts(plan: Plan, c: Core) returns (ok: bool)
    ensures ok <==> AttemptsOk(plan, c)
  {
    var cursor := 0;
    for sequence := 0 to |c.attempts|
      invariant cursor == Cursor(c.attempts, sequence)
      invariant forall i :: 0 <= i < sequence ==> AttemptOk(plan, c.attempts, i)
    {
      var a := c.attempts[sequence];
      ghost var expected := AttemptOk(plan, c.attempts, sequence);
      if a.sequence != sequence + 1 || a.start != cursor { return false; }
      if a.end - cursor != a.evaluated || !(0 <= a.end <= plan.total) { return false; }
      if a.requestedLimit.Some? && a.requestedLimit.value < 0 { return false; }
      if a.runtimeMs < 0.0 { return false; }
      if a.outcome.AttemptCancelled? && a.evaluated != 0 { return false; }
      if a.outcome.AttemptComplete? && a.end != plan.total { return false; }
      cursor := a.end;
    }
    if cursor != c.nextOrdinal { return false; }
    if c.attempts != [] && c.attempts[|c.attempts| - 1].outcome.AttemptRunning? && !c.state.Running? { return false; }
    if !c.state.Ready? {
      if c.attempts == [] { return false; }
      var last := c.attempts[|c.attempts| - 1].outcome;
      match c.state {
        case Running => return last.AttemptRunning?;
        case Paused => return last.AttemptPaused? || last.AttemptInterrupted?;
        case Cancelled => return last.AttemptCancelled?;
        case Complete => return last.AttemptComplete?;
        case Ready =>
      }
    }
    return true;
  }

  /** The checks of `validate_checkpoint` on everything but the derived evidence. */
  predicate CoreOk(plan: Plan, c: Core) {
    && 0 <= c.nextOrdinal <= plan.total
    && AttemptsOk(plan, c)
    && |c.candidates| == c.nextOrdinal
    && (forall i :: 0 <= i < |c.candidates| ==> plan.accepts(i, c.candidates[i]))
    && (c.state.Ready? ==> c.attempts == [])
    && (c.state.Complete? <==> c.nextOrdinal == plan.total)
  }

  /** `validate_checkpoint` accepts. */
  predicate Valid(plan: Plan, c: Checkpoint) { CoreOk(plan, c.core) && c == Sealed(plan, c.core) }

  method ValidateCheckpoint(plan: Plan, c: Checkpoint) returns (ok: bool)
    requires Standard(plan)
    ensures ok <==> Valid(plan, c)
  {
    var core := c.core;
    if !(0 <= core.nextOrdinal <= plan.total) { return false; }
    var attemptsOk := ValidateAttempts(plan, core);
    if !attemptsOk || |core.candidates| != core.nextOrdinal { return false; }
    for ordinal := 0 to |core.candidates|
      invariant forall i :: 0 <= i < ordinal ==> plan.accepts(i, core.candidates[i])
    {
      if !plan.accepts(ordinal, core.candidates[ordinal]) { return false; }
    }
    var derived := Refresh(plan, core);
    if derived != c { return false; }
    if core.state.Ready? && core.attempts != [] { return false; }
    if core.state.Complete? && core.nextOrdinal != plan.total { return false; }
    if !core.state.Complete? && core.nextOrdinal == plan.total { return false; }
    return true;
  }

  // ---------------------------------------------------------------- advance_batch

  predicate LeftRunning(c: Core) {
    c.attempts != [] && c.attempts[|c.attempts| - 1].outcome.AttemptRunning?
  }

  function WithLast(attempts: seq<Attempt>, a: Attempt): seq<Attempt>
    requires attempts != []
  {
    attempts[..|attempts| - 1] + [a]
  }

  /** A checkpoint left running by a crash is first marked interrupted. */
  function Interrupted(c: Core): Core
    requires LeftRunning(c)
  {
    c.(state := Paused, attempts := WithLast(c.attempts, c.attempts[|c.attempts| - 1].(outcome := AttemptInterrupted)))
  }

  /** A new, empty attempt is appended. */
  function Opened(c: Core, limit: Option<int>, state: State, outcome: Outcome, ms: real): Core {
    c.(state := state,
      attempts := c.attempts + [Attempt(|c.attempts| + 1, c.nextOrdinal, c.nextOrdinal, 0, limit, outcome, ms)])
  }

  /** One more candidate evaluated in the running attempt. */
  function Extended(c: Core, candidate: Candidate, ms: real): Core
    requires c.attempts != []
  {
    var a := c.attempts[|c.attempts| - 1];
    var next := c.nextOrdinal + 1;
    c.(candidates := c.candidates + [candidate], nextOrdinal := next,
       attempts := WithLast(c.attempts, a.(end := next, evaluated := next - a.start, runtimeMs := ms)))
  }

  function Finished(c: Core, done: bool, ms: real): Core
    requires c.attempts != []
  {
    var a := c.attempts[|c.attempts| - 1];
    c.(state := if done then Complete else Paused,
       attempts := WithLast(c.attempts,
         a.(outcome := if done then AttemptComplete else AttemptPaused, runtimeMs := ms)))
  }

  function LimitOf(plan: Plan, start: int, limit: Option<int>): int {
    var end := start + if limit.Some? then limit.value else plan.total;
    if end < plan.total then end else plan.total
  }

  /** What the evaluation loop persists from `c` up to ordinal `end`; it stops early, with an
      exception, at a candidate whose evidence is refused. */
  function LoopTrace(plan: Plan, c: Core, end: int, clock: nat -> Millis): seq<Core>
    requires c.attempts != [] && 0 <= c.nextOrdinal <= end
    decreases end - c.nextOrdinal
  {
    if c.nextOrdinal == end then [Finished(c, end == plan.total, clock(end))]
    else if !plan.accepts(c.nextOrdinal, plan.evaluate(c.nextOrdinal)) then []
    else
      var next := Extended(c, plan.evaluate(c.nextOrdinal), clock(c.nextOrdinal));
      [next] + LoopTrace(plan, next, end, clock)
  }

  /** Everything one call persists, starting from an accepted, incomplete checkpoint. */
  function Trace(plan: Plan, c: Core, limit: Option<int>, cancel: bool, clock: nat -> Millis): seq<Core>
    requires 0 <= c.nextOrdinal <= plan.total && (limit.Some? ==> 0 <= limit.value)
  {
    if LeftRunning(c) then [Interrupted(c)] + AttemptTrace(plan, Interrupted(c), limit, cancel, clock)
    else AttemptTrace(plan, c, limit, cancel, clock)
  }

  function AttemptTrace(plan: Plan, c: Core, limit: Option<int>, cancel: bool, clock: nat -> Millis): seq<Core>
    requires 0 <= c.nextOrdinal <= plan.total && (limit.Some? ==> 0 <= limit.value)
  {
    if cancel then [Opened(c, limit, Cancelled, AttemptCancelled, clock(0))]
    else
      var first := Opened(c, limit, Running, AttemptRunning, 0.0);
      [first] + LoopTrace(plan, first, LimitOf(plan, c.nextOrdinal, limit), clock)
  }

  /** Everything one call persists, from whatever durable checkpoint it finds. */
  function CallTrace(plan: Plan, durable: Option<Checkpoint>, limit: Option<int>, cancel: bool,
                     clock: nat -> Millis): seq<Core> {
    if durable.Some? && !Valid(plan, durable.value) then []
    else
      var c := if durable.Some? then durable.value.core else FRESH;
      if c.state.Complete? || (limit.Some? && limit.value < 0) then [] else Trace(plan, c, limit, cancel, clock)
  }

  function SealAll(plan: Plan, cores: seq<Core>): seq<Checkpoint> {
    seq(|cores|, i requires 0 <= i < |cores| => Sealed(plan, cores[i]))
  }

  datatype Refusal = InvalidCheckpoint | InvalidLimit | RefusedCandidate

  // ---------------------------------------------------------------- what a call keeps

  /** The checks of the validator that do not look at the state. */
  predicate Based(plan: Plan, c: Core) {
    && 0 <= c.nextOrdinal <= plan.total
    && (forall i :: 0 <= i < |c.attempts| ==> AttemptOk(plan, c.attempts, i))
    && Cursor(c.attempts, |c.attempts|) == c.nextOrdinal
    && |c.candidates| == c.nextOrdinal
    && forall i :: 0 <= i < |c.candidates| ==> plan.accepts(i, c.candidates[i])
  }

  lemma LastReplaced(plan: Plan, attempts: seq<Attempt>, a: Attempt, i: int)
    requires attempts != [] && 0 <= i < |attempts| - 1 && AttemptOk(plan, attempts, i)
    ensures AttemptOk(plan, WithLast(attempts, a), i)
  {
    assert WithLast(attempts, a)[i] == attempts[i];
    if i > 0 { assert WithLast(attempts, a)[i - 1] == attempts[i - 1]; }
  }

  /** Rewriting the last attempt of a checkpoint. */
  lemma RewrittenIsBased(plan: Plan, c: Core, a: Attempt, next: Core)
    requires Based(plan, c) && c.attempts != [] && next.attempts == WithLast(c.attempts, a)
    requires AttemptOk(plan, next.attempts, |c.attempts| - 1) && a.end == next.nextOrdinal == |next.candidates|
    requires forall i :: 0 <= i < |next.candidates| ==> plan.accepts(i, next.candidates[i])
    ensures Based(plan, next)
  {
    forall i | 0 <= i < |next.attempts| ensures AttemptOk(plan, next.attempts, i) {
      if i < |next.attempts| - 1 { LastReplaced(plan, c.attempts, a, i); }
    }
  }

  predicate InAttempt(plan: Plan, c: Core) { Based(plan, c) && c.state.Running? && LeftRunning(c) }

  lemma OpenedIsBased(plan: Plan, c: Core, limit: Option<int>, state: State, outcome: Outcome, ms: Millis)
    requires Based(plan, c) && (limit.Some? ==> 0 <= limit.value) && !outcome.AttemptComplete?
    ensures Based(plan, Opened(c, limit, state, outcome, ms))
  {
    var o := Opened(c, limit, state, outcome, ms);
    forall i | 0 <= i < |o.attempts| ensures AttemptOk(plan, o.attempts, i) {
      if i < |c.attempts| { assert AttemptOk(plan, c.attempts, i); }
    }
  }

  lemma InterruptedIsBased(plan: Plan, c: Core)
    requires Based(plan, c) && LeftRunning(c)
    ensures Based(plan, Interrupted(c))
  {
    var last := |c.attempts| - 1;
    assert AttemptOk(plan, c.attempts, last);
    RewrittenIsBased(plan, c, c.attempts[last].(outcome := AttemptInterrupted), Interrupted(c));
  }

  lemma ExtendedInAttempt(plan: Plan, c: Core, candidate: Candidate, ms: Millis)
    requires InAttempt(plan, c) && c.nextOrdinal < plan.total && plan.accepts(c.nextOrdinal, candidate)
    ensures InAttempt(plan, Extended(c, candidate, ms))
  {
    var last, next := |c.attempts| - 1, c.nextOrdinal + 1;
    assert AttemptOk(plan, c.attempts, last);
    var a := c.attempts[last];
    RewrittenIsBased(plan, c, a.(end := next, evaluated := next - a.start, runtimeMs := ms),
      Extended(c, candidate, ms));
  }

  lemma FinishedIsOk(plan: Plan, c: Core, ms: Millis)
    requires InAttempt(plan, c)
    ensures CoreOk(plan, Finished(c, c.nextOrdinal == plan.total, ms))
  {
    var last, done := |c.attempts| - 1, c.nextOrdinal == plan.total;
    assert AttemptOk(plan, c.attempts, last);
    var a := c.attempts[last].(outcome := if done then AttemptComplete else AttemptPaused, runtimeMs := ms);
    RewrittenIsBased(plan, c, a, Finished(c, done, ms));
  }

  // ---------------------------------------------------------------- the call

  /** Every candidate from one ordinal up to another is accepted. */
  predicate Accepting(plan: Plan, start: int, end: int) {
    forall i: nat :: start <= i < end ==> plan.accepts(i, plan.evaluate(i))
  }

  /** How a call ends: an error, or none and then a checkpoint. */
  function RefusalOf(plan: Plan, checkpoint: Option<Checkpoint>, limit: Option<int>, cancel: bool): Option<Refusal> {
    if checkpoint.Some? && !Valid(plan, checkpoint.value) then Some(InvalidCheckpoint)
    else
      var c := if checkpoint.Some? then checkpoint.value.core else FRESH;
      if c.state.Complete? then None
      else if limit.Some? && limit.value < 0 then Some(InvalidLimit)
      else if cancel || Accepting(plan, c.nextOrdinal, LimitOf(plan, c.nextOrdinal, limit)) then None
      else Some(RefusedCandidate)
  }

  /** The evaluator's results for a range of ordinals. */
  function Results(plan: Plan, start: nat, end: nat): seq<Candidate>
    requires start <= end
  {
    seq(end - start, i requires 0 <= i < end - start => plan.evaluate(start + i))
  }

  /** Where a call from ordinal `start` stops: as many candidates further as the limit allows, at
      the end of the plan without a limit, and where it is when cancelled. */
  ghost predicate StopsAt(plan: Plan, start: int, limit: Option<int>, cancel: bool, end: int) {
    if cancel then end == start
    else
      match limit
      case None => end == plan.total
      case Some(n) => start <= end <= start + n && end <= plan.total && (end == start + n || end == plan.total)
  }

  /** A call's effect on an incomplete checkpoint, in terms of its arguments: one more attempt with
      the requested limit, the results of the range it covers, the state of where it stops; an
      attempt that a crash left running is marked interrupted and every other one is kept. */
  ghost predicate Advanced(plan: Plan, c: Core, limit: Option<int>, cancel: bool, c': Core) {
    && 0 <= c.nextOrdinal <= c'.nextOrdinal && StopsAt(plan, c.nextOrdinal, limit, cancel, c'.nextOrdinal)
    && c'.candidates == c.candidates + Results(plan, c.nextOrdinal, c'.nextOrdinal)
    && c'.state == (if cancel then Cancelled else if c'.nextOrdinal == plan.total then Complete else Paused)
    && |c'.attempts| == |c.attempts| + 1
    && (forall i :: 0 <= i < |c.attempts| ==>
          c'.attempts[i] == if i == |c.attempts| - 1 && c.attempts[i].outcome.AttemptRunning?
                            then c.attempts[i].(outcome := AttemptInterrupted) else c.attempts[i])
    && var a := c'.attempts[|c.attempts|];
       && a.sequence == |c.attempts| + 1 && a.start == c.nextOrdinal && a.end == c'.nextOrdinal
       && a.evaluated == c'.nextOrdinal - c.nextOrdinal && a.requestedLimit == limit
       && a.outcome
          == if cancel then AttemptCancelled else if a.end == plan.total then AttemptComplete else AttemptPaused
  }

  /** How the evaluation loop leaves the core of the running attempt. */
  ghost predicate Looped(plan: Plan, c: Core, end: int, c': Core)
    requires c.attempts != []
  {
    var a := c.attempts[|c.attempts| - 1];
    && 0 <= c.nextOrdinal <= end && c'.nextOrdinal == end
    && c'.candidates == c.candidates + Results(plan, c.nextOrdinal, end)
    && c'.state == (if end == plan.total then Complete else Paused)
    && |c'.attempts| == |c.attempts| && c'.attempts[..|c.attempts| - 1] == c.attempts[..|c.attempts| - 1]
    && var b := c'.attempts[|c.attempts| - 1];
       && b.sequence == a.sequence && b.start == a.start && b.end == end && b.evaluated == end - a.start
       && b.requestedLimit == a.requestedLimit
       && b.outcome == if end == plan.total then AttemptComplete else AttemptPaused
  }

  ghost predicate InStep(c: Core) {
    && c.attempts != []
    && var a := c.attempts[|c.attempts| - 1]; a.end == c.nextOrdinal && a.evaluated == c.nextOrdinal - a.start
  }

  lemma ResultsSplit(plan: Plan, start: nat, end: nat)
    requires start < end
    ensures Results(plan, start, end) == [plan.evaluate(start)] + Results(plan, start + 1, end)
  {
  }

  lemma LoopedExtends(plan: Plan, c: Core, end: int, ms: real, c': Core)
    requires InStep(c) && 0 <= c.nextOrdinal < end
    requires Looped(plan, Extended(c, plan.evaluate(c.nextOrdinal), ms), end, c')
    ensures Looped(plan, c, end, c')
  {
    var next := Extended(c, plan.evaluate(c.nextOrdinal), ms);
    ResultsSplit(plan, c.nextOrdinal, end);
    assert next.attempts[..|c.attempts| - 1] == c.attempts[..|c.attempts| - 1];
  }

  lemma FinishedLoops(plan: Plan, c: Core, ms: real)
    requires InStep(c) && 0 <= c.nextOrdinal
    ensures Looped(plan, c, c.nextOrdinal, Finished(c, c.nextOrdinal == plan.total, ms))
  {
  }

  lemma {:induction false} LoopEnds(plan: Plan, c: Core, end: int, clock: nat -> Millis)
    requires InStep(c) && 0 <= c.nextOrdinal <= end && Accepting(plan, c.nextOrdinal, end)
    ensures var t := LoopTrace(plan, c, end, clock); t != [] && Looped(plan, c, end, t[|t| - 1])
    decreases end - c.nextOrdinal
  {
    if c.nextOrdinal == end {
      FinishedLoops(plan, c, clock(end));
    } else {
      var next := Extended(c, plan.evaluate(c.nextOrdinal), clock(c.nextOrdinal));
      LoopEnds(plan, next, end, clock);
      var t := LoopTrace(plan, next, end, clock);
      assert LoopTrace(plan, c, end, clock)[|t|] == t[|t| - 1];
      LoopedExtends(plan, c, end, clock(c.nextOrdinal), t[|t| - 1]);
    }
  }

  lemma AttemptAdvances(plan: Plan, c: Core, limit: Option<int>, cancel: bool, clock: nat -> Millis)
    requires 0 <= c.nextOrdinal <= plan.total && (limit.Some? ==> 0 <= limit.value) && !LeftRunning(c)
    requires cancel || Accepting(plan, c.nextOrdinal, LimitOf(plan, c.nextOrdinal, limit))
    ensures var t := AttemptTrace(plan, c, limit, cancel, clock);
      t != [] && Advanced(plan, c, limit, cancel, t[|t| - 1])
  {
    if !cancel {
      var first, end := Opened(c, limit, Running, AttemptRunning, 0.0), LimitOf(plan, c.nextOrdinal, limit);
      LoopEnds(plan, first, end, clock);
      var u := LoopTrace(plan, first, end, clock);
      assert AttemptTrace(plan, c, limit, cancel, clock)[|u|] == u[|u| - 1];
      LoopedAdvances(plan, c, limit, first, end, u[|u| - 1]);
    }
  }

  lemma LoopedAdvances(plan: Plan, c: Core, limit: Option<int>, first: Core, end: int, c': Core)
    requires 0 <= c.nextOrdinal <= plan.total && (limit.Some? ==> 0 <= limit.value) && !LeftRunning(c)
    requires first == Opened(c, limit, Running, AttemptRunning, 0.0) && end == LimitOf(plan, c.nextOrdinal, limit)
    requires Looped(plan, first, end, c')
    ensures Advanced(plan, c, limit, false, c')
  {
    assert first.attempts[..|c.attempts|] == c.attempts;
    forall i | 0 <= i < |c.attempts| ensures c'.attempts[i] == c.attempts[i] {
      assert c'.attempts[..|c.attempts|][i] == c.attempts[i];
    }
  }

  /** From an interrupted attempt on, as from the checkpoint that the crash left. */
  lemma InterruptedAdvances(plan: Plan, c: Core, limit: Option<int>, cancel: bool, c': Core)
    requires LeftRunning(c) && Advanced(plan, Interrupted(c), limit, cancel, c')
    ensures Advanced(plan, c, limit, cancel, c')
  {
    var d := Interrupted(c);
    assert |d.attempts| == |c.attempts|;
    forall i | 0 <= i < |c.attempts| - 1 ensures d.attempts[i] == c.attempts[i] {}
  }

  lemma TraceAdvances(plan: Plan, c: Core, limit: Option<int>, cancel: bool, clock: nat -> Millis)
    requires 0 <= c.nextOrdinal <= plan.total && (limit.Some? ==> 0 <= limit.value)
    requires cancel || Accepting(plan, c.nextOrdinal, LimitOf(plan, c.nextOrdinal, limit))
    ensures var t := Trace(plan, c, limit, cancel, clock); t != [] && Advanced(plan, c, limit, cancel, t[|t| - 1])
  {
    if LeftRunning(c) {
      var d := Interrupted(c);
      AttemptAdvances(plan, d, limit, cancel, clock);
      var t := AttemptTrace(plan, d, limit, cancel, clock);
      assert Trace(plan, c, limit, cancel, clock)[|t|] == t[|t| - 1];
      InterruptedAdvances(plan, c, limit, cancel, t[|t| - 1]);
    } else {
      AttemptAdvances(plan, c, limit, cancel, clock);
    }
  }

  /** Returns a checkpoint exactly when the given one is valid and either complete or, with a
      limit that is not negative, cancelled or without a refused candidate in the call's range. */
  method AdvanceBatch(plan: Plan, checkpoint: Option<Checkpoint>, limit: Option<int>, cancel: bool,
                      clock: nat -> Millis)
    returns (r: Result<Checkpoint, Refusal>, persisted: seq<Checkpoint>)
    requires Standard(plan)
    ensures persisted == SealAll(plan, CallTrace(plan, checkpoint, limit, cancel, clock))
    ensures checkpoint.Some? && !Valid(plan, checkpoint.value) ==> r == Err(InvalidCheckpoint)
    ensures 1 <= plan.total ==>
      match RefusalOf(plan, checkpoint, limit, cancel) case Some(e) => r == Err(e) case None => r.Ok?
    ensures r.Ok? ==> Valid(plan, r.value)
    ensures r.Ok? ==> if persisted == [] then checkpoint == Some(r.value) else r.value == persisted[|persisted| - 1]
    ensures r.Ok? ==>
      var c := if checkpoint.Some? then checkpoint.value.core else FRESH;
      if c.state.Complete? then checkpoint == Some(r.value) else Advanced(plan, c, limit, cancel, r.value.core)
  {
    var value: Checkpoint;
    if checkpoint.Some? {
      var ok := ValidateCheckpoint(plan, checkpoint.value);
      if !ok { return Err(InvalidCheckpoint), []; }
      value := checkpoint.value;
    } else {
      value := Refresh(plan, FRESH);
    }
    if value.core.state.Complete? { return Ok(value), []; }
    if limit.Some? && limit.value < 0 { return Err(InvalidLimit), []; }
    r, persisted := Continue(plan, value.core, limit, cancel, clock);
  }

  /** A call past its checks: what a crash left running is interrupted first, then one attempt
      is made and its last write validated. */
  method Continue(plan: Plan, c: Core, limit: Option<int>, cancel: bool, clock: nat -> Millis)
    returns (r: Result<Checkpoint, Refusal>, persisted: seq<Checkpoint>)
    requires Standard(plan) && Based(plan, c) && (limit.Some? ==> 0 <= limit.value)
    ensures persisted == SealAll(plan, Trace(plan, c, limit, cancel, clock)) && persisted != []
    ensures c.nextOrdinal < plan.total ==>
      if cancel || Accepting(plan, c.nextOrdinal, LimitOf(plan, c.nextOrdinal, limit)) then r.Ok?
      else r == Err(RefusedCandidate)
    ensures r.Ok? ==> Valid(plan, r.value) && r.value == persisted[|persisted| - 1]
    ensures r.Ok? ==> Advanced(plan, c, limit, cancel, r.value.core)
  {
    var core, early := Resume(plan, c);
    var refused, written := RunAttempt(plan, core, limit, cancel, clock);
    persisted := early + written;
    SealTrace(plan, c, limit, cancel, clock);
    var value := written[|written| - 1];
    assert persisted[|persisted| - 1] == value;
    if !refused { TraceAdvances(plan, c, limit, cancel, clock); }
    r := Answer(plan, refused, value);
  }

  lemma SealTrace(plan: Plan, c: Core, limit: Option<int>, cancel: bool, clock: nat -> Millis)
    requires 0 <= c.nextOrdinal <= plan.total && (limit.Some? ==> 0 <= limit.value)
    ensures var core := if LeftRunning(c) then Interrupted(c) else c;
      SealAll(plan, Trace(plan, c, limit, cancel, clock))
      == (if LeftRunning(c) then [Sealed(plan, core)] else [])
      + SealAll(plan, AttemptTrace(plan, core, limit, cancel, clock))
  {
  }

  /** A refused candidate raises; otherwise the last write is validated and returned. */
  method Answer(plan: Plan, refused: bool, value: Checkpoint) returns (r: Result<Checkpoint, Refusal>)
    requires Standard(plan)
    ensures
      r == if refused then Err(RefusedCandidate) else if Valid(plan, value) then Ok(value) else Err(InvalidCheckpoint)
  {
    if refused { return Err(RefusedCandidate); }
    var ok := ValidateCheckpoint(plan, value);
    r := if ok then Ok(value) else Err(InvalidCheckpoint);
  }

  /** What a crash left running is marked interrupted and written. */
  method Resume(plan: Plan, c: Core) returns (core: Core, persisted: seq<Checkpoint>)
    requires Standard(plan) && Based(plan, c)
    ensures core == (if LeftRunning(c) then Interrupted(c) else c) && Based(plan, core)
    ensures persisted == if LeftRunning(c) then [Sealed(plan, core)] else []
  {
    if !LeftRunning(c) { return c, []; }
    InterruptedIsBased(plan, c);
    core := Interrupted(c);
    var value := Refresh(plan, core);
    persisted := [value];
  }

  /** One attempt: a cancellation, or the evaluation loop and its final write. */
  method RunAttempt(plan: Plan, c: Core, limit: Option<int>, cancel: bool, clock: nat -> Millis)
    returns (refused: bool, persisted: seq<Checkpoint>)
    requires Standard(plan) && Based(plan, c) && (limit.Some? ==> 0 <= limit.value)
    ensures persisted == SealAll(plan, AttemptTrace(plan, c, limit, cancel, clock)) && persisted != []
    ensures refused <==> !cancel && !Accepting(plan, c.nextOrdinal, LimitOf(plan, c.nextOrdinal, limit))
    ensures !refused && c.nextOrdinal < plan.total ==> Valid(plan, persisted[|persisted| - 1])
  {
    if cancel {
      OpenedIsBased(plan, c, limit, Cancelled, AttemptCancelled, clock(0));
      var value := Refresh(plan, Opened(c, limit, Cancelled, AttemptCancelled, clock(0)));
      return false, [value];
    }
    OpenedIsBased(plan, c, limit, Running, AttemptRunning, 0.0);
    var core := Opened(c, limit, Running, AttemptRunning, 0.0);
    var value := Refresh(plan, core);
    var written;
    refused, written := EvaluateUpTo(plan, core, LimitOf(plan, c.nextOrdinal, limit), clock);
    persisted := [value] + written;
  }

  lemma SealAppend(plan: Plan, cores: seq<Core>, core: Core)
    ensures SealAll(plan, cores + [core]) == SealAll(plan, cores) + [Sealed(plan, core)]
  {
  }

  /** The evaluation loop: one write per candidate and one at the end, none after a refusal. */
  method EvaluateUpTo(plan: Plan, first: Core, end: int, clock: nat -> Millis)
    returns (refused: bool, persisted: seq<Checkpoint>)
    requires Standard(plan) && InAttempt(plan, first) && first.nextOrdinal <= end <= plan.total
    ensures persisted == SealAll(plan, LoopTrace(plan, first, end, clock))
    ensures refused <==> !Accepting(plan, first.nextOrdinal, end)
    ensures !refused ==> persisted != [] && Valid(plan, persisted[|persisted| - 1])
  {
    var core := first;
    persisted := [];
    ghost var cores: seq<Core> := [];
    ghost var whole := LoopTrace(plan, first, end, clock);
    assert cores + whole == whole;
    for ordinal := first.nextOrdinal to end
      invariant InAttempt(plan, core) && core.nextOrdinal == ordinal
      invariant Accepting(plan, first.nextOrdinal, ordinal)
      invariant persisted == SealAll(plan, cores)
      invariant cores + LoopTrace(plan, core, end, clock) == whole
    {
      var candidate := plan.evaluate(ordinal);
      if !plan.accepts(ordinal, candidate) {
        assert cores + [] == cores;
        return true, persisted;
      }
      ExtendedInAttempt(plan, core, candidate, clock(ordinal));
      core := Extended(core, candidate, clock(ordinal));
      SealAppend(plan, cores, core);
      Regroup(cores, core, LoopTrace(plan, core, end, clock));
      cores := cores + [core];
      var value := Refresh(plan, core);
      persisted := persisted + [value];
    }
    FinishedIsOk(plan, core, clock(end));
    core := Finished(core, end == plan.total, clock(end));
    SealAppend(plan, cores, core);
    var value := Refresh(plan, core);
    return false, persisted + [value];
  }

  lemma Regroup(cores: seq<Core>, core: Core, rest: seq<Core>)
    ensures (cores + [core]) + rest == cores + ([core] + rest)
  {
  }
}
