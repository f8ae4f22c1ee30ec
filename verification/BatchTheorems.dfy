/** What holds of the batch scheduler over every sequence of calls, limits, cancellations and
    crashes. */
module BatchTheorems {
  import opened Common
  import opened Pareto
  import opened Batch

  // ---------------------------------------------------------------- what every write satisfies

  ghost predicate TileOk(plan: Plan, attempts: seq<Attempt>, i: int)
    requires 0 <= i < |attempts|
  {
    && AttemptOk(plan, attempts, i) && 0 <= attempts[i].evaluated
    && (attempts[i].outcome.AttemptRunning? ==> i == |attempts| - 1)
  }

  /** The attempts tile [0, next) in order and only the last can be running. */
  ghost predicate Tiled(plan: Plan, attempts: seq<Attempt>, next: int) {
    (forall i :: 0 <= i < |attempts| ==> TileOk(plan, attempts, i)) && Cursor(attempts, |attempts|) == next
  }

  /** The state is the one the last attempt's outcome stands for. */
  ghost predicate StateIsLastOutcome(state: State, attempts: seq<Attempt>) {
    if attempts == [] then state.Ready?
    else
      match attempts[|attempts| - 1].outcome
      case AttemptRunning => state.Running?
      case AttemptPaused => state.Paused?
      case AttemptInterrupted => state.Paused?
      case AttemptCancelled => state.Cancelled?
      case AttemptComplete => state.Complete?
  }

  /** The candidates are the evaluator's results for the first `next` proposals. */
  ghost predicate Faithful(plan: Plan, candidates: seq<Candidate>, next: int) {
    && 0 <= next <= plan.total && |candidates| == next
    && forall i :: 0 <= i < |candidates| ==> candidates[i] == plan.evaluate(i) && plan.accepts(i, candidates[i])
  }

  ghost predicate Sound(plan: Plan, c: Core) {
    && Faithful(plan, c.candidates, c.nextOrdinal) && Tiled(plan, c.attempts, c.nextOrdinal)
    && StateIsLastOutcome(c.state, c.attempts)
    && (c.nextOrdinal == plan.total ==> c.state.Running? || c.state.Complete?)
  }

  /** Written after the last candidate, before the completing write. */
  predicate Wedged(plan: Plan, c: Core) { c.state.Running? && c.nextOrdinal == plan.total }

  lemma SoundAccepted(plan: Plan, c: Core)
    requires Sound(plan, c)
    ensures CoreOk(plan, c) <==> !Wedged(plan, c)
  {
    forall i | 0 <= i < |c.attempts| ensures AttemptOk(plan, c.attempts, i) { assert TileOk(plan, c.attempts, i); }
    if c.attempts != [] { LastTile(plan, c); }
  }

  /** Rewriting the last tile keeps the tiling. */
  lemma WithLastTiled(plan: Plan, attempts: seq<Attempt>, a: Attempt)
    requires attempts != [] && Tiled(plan, attempts, attempts[|attempts| - 1].end)
    requires var last := attempts[|attempts| - 1];
      && a.sequence == last.sequence && a.start == last.start && a.evaluated == a.end - a.start
      && last.end <= a.end <= plan.total
      && a.requestedLimit == last.requestedLimit && 0.0 <= a.runtimeMs
      && !a.outcome.AttemptCancelled? && (a.outcome.AttemptComplete? ==> a.end == plan.total)
    ensures Tiled(plan, WithLast(attempts, a), a.end)
  {
    var after := WithLast(attempts, a);
    forall i | 0 <= i < |after| ensures TileOk(plan, after, i) {
      assert TileOk(plan, attempts, i);
    }
  }

  /** Appending an empty tile keeps the tiling. */
  lemma OpenedTiled(plan: Plan, attempts: seq<Attempt>, a: Attempt, next: int)
    requires Tiled(plan, attempts, next) && 0 <= next <= plan.total
    requires attempts != [] ==> !attempts[|attempts| - 1].outcome.AttemptRunning?
    requires a.sequence == |attempts| + 1 && a.start == a.end == next && a.evaluated == 0 && 0.0 <= a.runtimeMs
    requires (a.requestedLimit.Some? ==> 0 <= a.requestedLimit.value) && !a.outcome.AttemptComplete?
    ensures Tiled(plan, attempts + [a], next)
  {
    var after := attempts + [a];
    forall i | 0 <= i < |after| ensures TileOk(plan, after, i) {
      if i < |attempts| { assert TileOk(plan, attempts, i); }
    }
  }

  lemma OpenedSound(plan: Plan, c: Core, limit: Option<int>, ms: Millis)
    requires Sound(plan, c) && !LeftRunning(c) && c.nextOrdinal < plan.total && (limit.Some? ==> 0 <= limit.value)
    ensures Sound(plan, Opened(c, limit, Running, AttemptRunning, 0.0))
    ensures Sound(plan, Opened(c, limit, Cancelled, AttemptCancelled, ms))
  {
    OpenedTiled(plan, c.attempts,
      Attempt(|c.attempts| + 1, c.nextOrdinal, c.nextOrdinal, 0, limit, AttemptRunning, 0.0), c.nextOrdinal);
    OpenedTiled(plan, c.attempts,
      Attempt(|c.attempts| + 1, c.nextOrdinal, c.nextOrdinal, 0, limit, AttemptCancelled, ms), c.nextOrdinal);
  }

  lemma LastTile(plan: Plan, c: Core)
    requires Sound(plan, c) && c.attempts != []
    ensures var last := c.attempts[|c.attempts| - 1];
      last.end == c.nextOrdinal && last.evaluated == last.end - last.start && 0.0 <= last.runtimeMs
      && (last.outcome.AttemptComplete? ==> last.end == plan.total)
  {
    assert TileOk(plan, c.attempts, |c.attempts| - 1);
  }

  lemma InterruptedSound(plan: Plan, c: Core)
    requires Sound(plan, c) && LeftRunning(c) && c.nextOrdinal < plan.total
    ensures Sound(plan, Interrupted(c)) && !LeftRunning(Interrupted(c))
  {
    LastTile(plan, c);
    WithLastTiled(plan, c.attempts, c.attempts[|c.attempts| - 1].(outcome := AttemptInterrupted));
  }

  lemma ExtendedSound(plan: Plan, c: Core, ms: Millis)
    requires
      && Sound(plan, c) && c.state.Running? && c.nextOrdinal < plan.total
      && plan.accepts(c.nextOrdinal, plan.evaluate(c.nextOrdinal))
    ensures
      && c.attempts != [] && Sound(plan, Extended(c, plan.evaluate(c.nextOrdinal), ms))
      && Extended(c, plan.evaluate(c.nextOrdinal), ms).state.Running?
  {
    var last := c.attempts[|c.attempts| - 1];
    LastTile(plan, c);
    var next := c.nextOrdinal + 1;
    WithLastTiled(plan, c.attempts, last.(end := next, evaluated := next - last.start, runtimeMs := ms));
    assert Faithful(plan, c.candidates + [plan.evaluate(c.nextOrdinal)], next);
  }

  lemma FinishedSound(plan: Plan, c: Core, ms: Millis)
    requires Sound(plan, c) && c.state.Running?
    ensures c.attempts != [] && Sound(plan, Finished(c, c.nextOrdinal == plan.total, ms))
    ensures !Wedged(plan, Finished(c, c.nextOrdinal == plan.total, ms))
  {
    var last := c.attempts[|c.attempts| - 1];
    LastTile(plan, c);
    WithLastTiled(plan, c.attempts,
      last.(outcome := if c.nextOrdinal == plan.total then AttemptComplete else AttemptPaused, runtimeMs := ms));
  }

  lemma {:induction false} LoopTraceSound(plan: Plan, c: Core, end: int, clock: nat -> Millis, k: int)
    requires Sound(plan, c) && c.state.Running? && c.nextOrdinal <= end <= plan.total
    requires c.attempts != [] && 0 <= k < |LoopTrace(plan, c, end, clock)|
    ensures Sound(plan, LoopTrace(plan, c, end, clock)[k])
    decreases end - c.nextOrdinal
  {
    if c.nextOrdinal == end {
      FinishedSound(plan, c, clock(end));
    } else {
      ExtendedSound(plan, c, clock(c.nextOrdinal));
      if k > 0 {
        LoopTraceSound(plan, Extended(c, plan.evaluate(c.nextOrdinal), clock(c.nextOrdinal)), end, clock, k - 1);
      }
    }
  }

  lemma AttemptTraceSound(plan: Plan, c: Core, limit: Option<int>, cancel: bool, clock: nat -> Millis, k: int)
    requires Sound(plan, c) && !LeftRunning(c) && c.nextOrdinal < plan.total && (limit.Some? ==> 0 <= limit.value)
    requires 0 <= k < |AttemptTrace(plan, c, limit, cancel, clock)|
    ensures Sound(plan, AttemptTrace(plan, c, limit, cancel, clock)[k])
  {
    OpenedSound(plan, c, limit, clock(0));
    if !cancel && k > 0 {
      LoopTraceSound(plan, Opened(c, limit, Running, AttemptRunning, 0.0), LimitOf(plan, c.nextOrdinal, limit),
        clock, k - 1);
    }
  }

  /** Every checkpoint a call persists holds the evaluator's own results, tiles its attempts,
      and is accepted by the validator unless it is the one written right after the last
      candidate while still running. */
  lemma PersistedAccepted(plan: Plan, c: Core, limit: Option<int>, cancel: bool, clock: nat -> Millis, k: int)
    requires Sound(plan, c) && c.nextOrdinal < plan.total && (limit.Some? ==> 0 <= limit.value)
    requires 0 <= k < |Trace(plan, c, limit, cancel, clock)|
    ensures var p := Trace(plan, c, limit, cancel, clock)[k];
      Sound(plan, p) && (Valid(plan, Sealed(plan, p)) <==> !(p.state.Running? && p.nextOrdinal == plan.total))
  {
    if LeftRunning(c) {
      InterruptedSound(plan, c);
      if k > 0 { AttemptTraceSound(plan, Interrupted(c), limit, cancel, clock, k - 1); }
    } else {
      AttemptTraceSound(plan, c, limit, cancel, clock, k);
    }
    SoundAccepted(plan, Trace(plan, c, limit, cancel, clock)[k]);
  }

  // ---------------------------------------------------------------- sessions

  /** One invocation; `crashAfter` kills the process after that many writes. */
  datatype Call = Call(limit: Option<int>, cancel: bool, clock: nat -> Millis, crashAfter: Option<nat>)

  /** The atomic writer keeps the last value written. */
  function AfterCall(plan: Plan, durable: Option<Checkpoint>, call: Call): Option<Checkpoint> {
    var trace := CallTrace(plan, durable, call.limit, call.cancel, call.clock);
    var written := if call.crashAfter.Some? && call.crashAfter.value < |trace| then call.crashAfter.value else |trace|;
    if written == 0 then durable else Some(Sealed(plan, trace[written - 1]))
  }

  function Session(plan: Plan, durable: Option<Checkpoint>, calls: seq<Call>): Option<Checkpoint> {
    if calls == [] then durable else AfterCall(plan, Session(plan, durable, calls[..|calls| - 1]), calls[|calls| - 1])
  }

  ghost predicate DurableSound(plan: Plan, durable: Option<Checkpoint>) {
    durable.Some? ==> Sound(plan, durable.value.core) && durable.value == Sealed(plan, durable.value.core)
  }

  lemma AfterCallSound(plan: Plan, durable: Option<Checkpoint>, call: Call)
    requires 1 <= plan.total && DurableSound(plan, durable)
    ensures DurableSound(plan, AfterCall(plan, durable, call))
  {
    var trace := CallTrace(plan, durable, call.limit, call.cancel, call.clock);
    var written := if call.crashAfter.Some? && call.crashAfter.value < |trace| then call.crashAfter.value else |trace|;
    if written > 0 {
      var c := if durable.Some? then durable.value.core else FRESH;
      assert Sound(plan, FRESH);
      PersistedAccepted(plan, c, call.limit, call.cancel, call.clock, written - 1);
    }
  }

  lemma {:induction false} SessionSound(plan: Plan, calls: seq<Call>)
    requires 1 <= plan.total
    ensures DurableSound(plan, Session(plan, None, calls))
  {
    if calls != [] {
      SessionSound(plan, calls[..|calls| - 1]);
      AfterCallSound(plan, Session(plan, None, calls[..|calls| - 1]), calls[|calls| - 1]);
    }
  }

  function AllCandidates(plan: Plan): seq<Candidate> {
    seq(plan.total, i requires 0 <= i < plan.total => plan.evaluate(i))
  }

  /** Crash/resume confluence: however the calls were limited, cancelled, crashed and resumed,
      a batch that reaches `complete` holds the results of evaluating every proposal once, in
      order, and the Pareto list and finalists of exactly those. */
  lemma Confluence(plan: Plan, calls: seq<Call>)
    requires 1 <= plan.total && Standard(plan)
    requires Session(plan, None, calls).Some? && Session(plan, None, calls).value.core.state.Complete?
    ensures var done := Session(plan, None, calls).value; var all := AllCandidates(plan);
      && done.core.candidates == all && done.evidence.pareto == ParetoRefs(all)
      && done.evidence.finalists == Finalists(ParetoRefs(all))
  {
    SessionSound(plan, calls);
    var done := Session(plan, None, calls).value;
    CompleteHoldsAll(plan, done.core);
    assert plan.derive(done.core) == EvidenceOf(plan.total, done.core);
  }

  lemma CompleteHoldsAll(plan: Plan, c: Core)
    requires Sound(plan, c) && c.state.Complete?
    ensures c.nextOrdinal == plan.total && c.candidates == AllCandidates(plan)
  {
    LastTile(plan, c);
  }

  // ---------------------------------------------------------------- resumption

  ghost predicate AllAccepted(plan: Plan) { forall i: nat :: i < plan.total ==> plan.accepts(i, plan.evaluate(i)) }

  lemma {:induction false} LoopTraceShape(plan: Plan, c: Core, end: int, clock: nat -> Millis)
    requires c.attempts != [] && 0 <= c.nextOrdinal <= end <= plan.total && AllAccepted(plan)
    ensures var t := LoopTrace(plan, c, end, clock);
      && |t| == end - c.nextOrdinal + 1
      && (forall k :: 0 <= k < |t| - 1 ==> t[k].state == c.state && t[k].nextOrdinal == c.nextOrdinal + k + 1)
      && t[|t| - 1].nextOrdinal == end && t[|t| - 1].state == if end == plan.total then Complete else Paused
    decreases end - c.nextOrdinal
  {
    if c.nextOrdinal < end {
      LoopTraceShape(plan, Extended(c, plan.evaluate(c.nextOrdinal), clock(c.nextOrdinal)), end, clock);
    }
  }

  lemma UnlimitedCompletes(plan: Plan, c: Core, clock: nat -> Millis)
    requires 0 <= c.nextOrdinal <= plan.total && AllAccepted(plan)
    ensures var t := Trace(plan, c, None, false, clock); t != [] && t[|t| - 1].state.Complete?
  {
    var from := if LeftRunning(c) then Interrupted(c) else c;
    LoopTraceShape(plan, Opened(from, None, Running, AttemptRunning, 0.0), plan.total, clock);
  }

  /** From any durable checkpoint a session can leave behind, an uninterrupted call completes
      the batch exactly when that checkpoint is not the one written between the last candidate
      and the completing write. */
  lemma ResumableIff(plan: Plan, calls: seq<Call>, clock: nat -> Millis)
    requires 1 <= plan.total && AllAccepted(plan)
    ensures
      var durable := Session(plan, None, calls); var after := AfterCall(plan, durable, Call(None, false, clock, None));
      (after.Some? && after.value.core.state.Complete?) <==> !(durable.Some? && Wedged(plan, durable.value.core))
  {
    SessionSound(plan, calls);
    var durable := Session(plan, None, calls);
    if durable.Some? { SoundAccepted(plan, durable.value.core); }
    var c := if durable.Some? then durable.value.core else FRESH;
    if 0 <= c.nextOrdinal <= plan.total { UnlimitedCompletes(plan, c, clock); }
  }

  /** One call without limit, cancellation or crash. */
  function Uninterrupted(plan: Plan, clock: nat -> Millis): Option<Checkpoint> {
    Session(plan, None, [Call(None, false, clock, None)])
  }

  lemma CompleteWasAccepted(plan: Plan, c: Core)
    requires Sound(plan, c) && c.state.Complete?
    ensures AllAccepted(plan)
  {
    SoundAccepted(plan, c);
    CompleteHoldsAll(plan, c);
    forall i: nat | i < plan.total
      ensures plan.accepts(i, plan.evaluate(i))
    {
      assert c.candidates[i] == plan.evaluate(i);
    }
  }

  /** Every session that completes agrees with the one uninterrupted run, which then completes
      too: the same candidates, the same Pareto list, the same finalists. */
  lemma AgreesWithUninterrupted(plan: Plan, calls: seq<Call>, clock: nat -> Millis)
    requires 1 <= plan.total && Standard(plan)
    requires Session(plan, None, calls).Some? && Session(plan, None, calls).value.core.state.Complete?
    ensures Uninterrupted(plan, clock).Some? && Uninterrupted(plan, clock).value.core.state.Complete?
    ensures var done := Session(plan, None, calls).value; var one := Uninterrupted(plan, clock).value;
      && one.core.candidates == done.core.candidates && one.evidence.pareto == done.evidence.pareto
      && one.evidence.finalists == done.evidence.finalists
  {
    SessionSound(plan, calls);
    CompleteWasAccepted(plan, Session(plan, None, calls).value.core);
    UninterruptedCompletes(plan, clock);
    Confluence(plan, calls);
    Confluence(plan, [Call(None, false, clock, None)]);
  }

  lemma UninterruptedCompletes(plan: Plan, clock: nat -> Millis)
    requires 1 <= plan.total && AllAccepted(plan)
    ensures Uninterrupted(plan, clock).Some? && Uninterrupted(plan, clock).value.core.state.Complete?
  {
    var call := Call(None, false, clock, None);
    assert [call][..0] == [];
    assert Session(plan, None, []) == None;
    UnlimitedCompletes(plan, FRESH, clock);
  }

  /** Such a checkpoint is refused by every later call, which leaves it in place for good. */
  lemma {:induction false} WedgedForever(plan: Plan, durable: Checkpoint, calls: seq<Call>)
    requires Wedged(plan, durable.core)
    ensures Session(plan, Some(durable), calls) == Some(durable)
  {
    if calls != [] { WedgedForever(plan, durable, calls[..|calls| - 1]); }
  }

  /** It does occur: a crash right after the write of the last candidate leaves it. */
  lemma WedgeOccurs(plan: Plan, clock: nat -> Millis)
    requires 1 <= plan.total && AllAccepted(plan)
    ensures var durable := Session(plan, None, [Call(None, false, clock, Some(plan.total + 1))]);
      durable.Some? && Wedged(plan, durable.value.core)
  {
    var call := Call(None, false, clock, Some(plan.total + 1));
    assert [call][..0] == [];
    assert Session(plan, None, []) == None;
    LoopTraceShape(plan, Opened(FRESH, None, Running, AttemptRunning, 0.0), plan.total, clock);
  }
}
