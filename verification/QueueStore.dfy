/** Retry policy of worker faults. */
module Faults {
  import opened Common

  const MIN_RETRY_DELAY_SECONDS := 1.0
  const MAX_RETRY_DELAY_SECONDS := 900.0

  /** A provider's retry hint: absent, not a number, infinite or NaN, or finite. */
  datatype Hint = NoHint | Unparseable | NonFinite | Seconds(seconds: real)

  function PowerOfTwo(n: nat): (p: real)
    ensures 1.0 <= p
  {
    if n == 0 then 1.0 else 2.0 * PowerOfTwo(n - 1)
  }

  function RetryDelay(attempt: int, hint: Hint): (delay: real)
    ensures MIN_RETRY_DELAY_SECONDS <= delay <= MAX_RETRY_DELAY_SECONDS
  {
    var exponent := if attempt - 1 < 0 then 0 else if attempt - 1 < 8 then attempt - 1 else 8;
    var backoff := Min(5.0 * PowerOfTwo(exponent), MAX_RETRY_DELAY_SECONDS);
    var hinted := match hint
      case Seconds(s) => Max(backoff, s)
      case Unparseable => Max(backoff, MIN_RETRY_DELAY_SECONDS)
      case _ => backoff;
    Max(MIN_RETRY_DELAY_SECONDS, Min(hinted, MAX_RETRY_DELAY_SECONDS))
  }

  lemma {:induction false} PowerOfTwoMonotone(m: nat, n: nat)
    requires m <= n
    ensures PowerOfTwo(m) <= PowerOfTwo(n)
  {
    if m < n { PowerOfTwoMonotone(m, n - 1); }
  }

  /** Feeding a computed delay back as the hint, as the store does, changes nothing; the
      delay never decreases with the attempt number. */
  lemma RetryDelayLaws(attempt: int, later: int, hint: Hint)
    requires attempt <= later
    ensures RetryDelay(attempt, Seconds(RetryDelay(attempt, hint))) == RetryDelay(attempt, hint)
    ensures RetryDelay(attempt, hint) <= RetryDelay(later, hint)
  {
    var low := if attempt - 1 < 0 then 0 else if attempt - 1 < 8 then attempt - 1 else 8;
    var high := if later - 1 < 0 then 0 else if later - 1 < 8 then later - 1 else 8;
    PowerOfTwoMonotone(low, high);
  }

  /** The whole policy: five seconds at first, twice as long after each attempt, fifteen minutes at
      most; a finite hint lengthens the delay up to that maximum and never shortens it, and any
      other hint changes nothing. */
  lemma RetryDelayPolicy(attempt: int, hint: Hint)
    ensures attempt <= 1 ==> RetryDelay(attempt, NoHint) == 5.0
    ensures 1 <= attempt ==> RetryDelay(attempt + 1, NoHint) == Min(2.0 * RetryDelay(attempt, NoHint), 900.0)
    ensures RetryDelay(attempt, hint) ==
      if hint.Seconds? then Min(Max(RetryDelay(attempt, NoHint), hint.seconds), 900.0) else RetryDelay(attempt, NoHint)
  {
    if 8 <= attempt {
      PowersByEight();
    } else if 1 <= attempt {
      assert PowerOfTwo(attempt) == 2.0 * PowerOfTwo(attempt - 1);
    }
  }

  lemma PowersByEight()
    ensures PowerOfTwo(7) == 128.0 && PowerOfTwo(8) == 256.0
  {
    assert PowerOfTwo(1) == 2.0 && PowerOfTwo(2) == 4.0 && PowerOfTwo(3) == 8.0 && PowerOfTwo(4) == 16.0;
    assert PowerOfTwo(5) == 32.0 && PowerOfTwo(6) == 64.0;
  }

  predicate CodeHead(c: char) { 'a' <= c <= 'z' || '0' <= c <= '9' }

  /** The code rule of `RetryableJobError`; the observation schema uses the same one. */
  predicate ValidCode(code: string) {
    && 0 < |code| <= 80 && CodeHead(code[0])
    && forall i :: 0 <= i < |code| ==> CodeHead(code[i]) || code[i] == '-'
  }

  type FaultCode = c: string | ValidCode(c) witness "x"
}

/** The Postgres store: tables as maps, one method per transaction. */
module QueueStore {
  import opened Common
  import opened QueueRows
  import opened Faults

  /** A claimed job as the worker holds it; recording a provider call updates it in place. */
  class Job {
    const id: JobId
    const leaseToken: Option<Token>
    const attempts: nat
    const attemptId: string
    var providerCallId: Option<CallId>

    constructor (id: JobId, leaseToken: Option<Token>, attempts: nat, attemptId: string, providerCallId: Option<CallId>)
      ensures this.id == id && this.leaseToken == leaseToken && this.attempts == attempts
      ensures this.attemptId == attemptId && this.providerCallId == providerCallId
    {
      this.id, this.leaseToken, this.attempts := id, leaseToken, attempts;
      this.attemptId, this.providerCallId := attemptId, providerCallId;
    }

    function Memory(): Lease
      requires leaseToken.Some?
      reads this
    {
      Lease(id, leaseToken.value, attempts, attemptId, providerCallId)
    }
  }

  /** What becomes of the policy upload inside `mark_succeeded`, outside any transaction. */
  datatype Upload = Stored | UploadRetryable(code: FaultCode, hint: Hint) | UploadRejected

  datatype Completion = Answer(accepted: bool) | RaisesRetryable(code: FaultCode, hint: Hint) | RaisesOther

  class PostgresQueueStore {
    var jobs: Jobs
    var attempts: Attempts
    var calls: Calls
    var materialized: Materialized

    function Rows(): Db reads this { Db(jobs, attempts, calls, materialized) }

    constructor ()
      ensures Rows() == Db(map[], map[], map[], [])
    {
      jobs, attempts, calls, materialized := map[], map[], map[], [];
    }

    method ClaimOne(tasks: set<string>, now: Time, locked: set<JobId>, token: Token, attemptId: string)
      returns (job: Option<Job>, ghost pick: Option<JobId>)
      modifies this
      ensures tasks == {} ==> job.None? && Rows() == old(Rows())
      ensures tasks != {} ==>
        && IsNext(ExhaustAll(old(Rows()), tasks, now).jobs, tasks, now, locked, pick)
        && Rows() == ClaimDb(old(Rows()), tasks, now, pick, token, attemptId)
        && (job.Some? <==> pick.Some?)
      ensures job.Some? ==>
        && fresh(job.value) && pick.Some? && pick.value in old(jobs)
        && job.value.leaseToken == Some(token)
        && job.value.Memory() == ClaimLease(old(Rows()), pick.value, token, attemptId)
        && pick.value in jobs && jobs[pick.value].attempts == old(jobs)[pick.value].attempts + 1
        && jobs[pick.value].leaseExpiresAt == Some(now + old(jobs)[pick.value].timeoutSeconds as real)
    {
      job, pick := None, None;
      if tasks == {} { return; }
      FailExhausted(tasks, now);
      var due := set j | j in jobs && j !in locked && Claimable(jobs[j], tasks, now);
      if due == {} {
        assert forall j :: j in jobs && j !in locked && Claimable(jobs[j], tasks, now) ==> j in due;
        return;
      }
      var id := FirstRow(due);
      pick := Some(id);
      var claimed := TakeRow(id, now, token, attemptId);
      job := Some(claimed);
    }

    /** What other connections committed in the meantime: any change of the tables at all. */
    method Elsewhere(others: Db -> Db)
      modifies this
      ensures Rows() == others(old(Rows()))
    {
      var db := others(Rows());
      jobs, attempts, calls, materialized := db.jobs, db.attempts, db.calls, db.materialized;
    }

    /** First statement of the claim. */
    method FailExhausted(tasks: set<string>, now: Time)
      modifies this
      ensures Rows() == ExhaustAll(old(Rows()), tasks, now)
    {
      var before := jobs;
      jobs := map j | j in before ::
        if Exhausted(before[j], tasks, now)
        then FinishRow(before[j], Failed, Some("worker-crash-exhausted"), now) else before[j];
      attempts := map k | k in attempts ::
        if k.0 in before && Exhausted(before[k.0], tasks, now) && k.1 == before[k.0].attempts
          && attempts[k].outcome.Open?
        then Closed(attempts[k], AttemptFailed, Some("worker-crash-exhausted"), now) else attempts[k];
    }

    /** Second statement of the claim, for the row it selected. */
    method TakeRow(id: JobId, now: Time, token: Token, attemptId: string) returns (job: Job)
      requires id in jobs
      modifies this
      ensures Rows() == TakePick(old(Rows()), id, token, attemptId, now)
      ensures
        fresh(job) && job.leaseToken == Some(token) && job.Memory() == ClaimLease(old(Rows()), id, token, attemptId)
    {
      var row := jobs[id];
      if row.status.Running? && (id, row.attempts) in attempts && attempts[(id, row.attempts)].outcome.Open? {
        var k := (id, row.attempts);
        attempts := attempts[k := Closed(attempts[k], Expired, Some("attempt-lease-expired"), now)];
      }
      jobs := jobs[id := ClaimRow(row, token, now)];
      attempts := attempts[(id, row.attempts + 1) := AttemptRow(attemptId, Open, None, None)];
      job := new Job(id, Some(token), row.attempts + 1, attemptId, row.providerCallId);
    }

    /** `ORDER BY ... LIMIT 1`. */
    method FirstRow(due: set<JobId>) returns (first: JobId)
      requires due != {} && due <= jobs.Keys
      ensures first in due && forall j :: j in due ==> OrderedBefore(jobs[first], jobs[j])
    {
      first :| first in due;
      var rest := due - {first};
      while rest != {}
        invariant first in due && rest <= due
        invariant forall j :: j in due - rest ==> OrderedBefore(jobs[first], jobs[j])
        decreases rest
      {
        var j :| j in rest;
        if !OrderedBefore(jobs[first], jobs[j]) { first := j; }
        rest := rest - {j};
      }
    }

    method RecordProviderCall(job: Job, call: CallId, now: Time) returns (raised: bool)
      modifies this, job
      ensures raised <==> !(job.leaseToken.Some? && CallAccepted(old(Rows()), old(job.Memory()), call, now))
      ensures raised ==> Rows() == old(Rows()) && job.providerCallId == old(job.providerCallId)
      ensures !raised ==>
          Rows() == RecordCallDb(old(Rows()), old(job.Memory()), call, now) && job.providerCallId == Some(call)
    {
      if job.leaseToken.None? { return true; }
      var token := job.leaseToken.value;
      if !Current(jobs, job.id, token, now) || !jobs[job.id].provider.Modal? || jobs[job.id].providerCallId.Some? {
        return true;
      }
      if exists j :: j in jobs && jobs[j].providerCallId == Some(call) { return true; }
      var savepoint := jobs;
      jobs := jobs[job.id := jobs[job.id].(providerCallId := Some(call))];
      if call in calls || exists c :: c in calls && calls[c].jobId == job.id && calls[c].attempt == job.attempts {
        jobs := savepoint;
        return true;
      }
      calls := calls[call := CallRow(job.id, job.attempts, Submitted)];
      job.providerCallId := Some(call);
      return false;
    }

    /** The shared read of `_job_cancellation_requested` and `_current_job_authority`. */
    method HasAuthority(job: Job, now: Time) returns (authorized: bool)
      ensures authorized <==> job.leaseToken.Some? && Current(jobs, job.id, job.leaseToken.value, now)
    {
      if job.leaseToken.None? { return false; }
      return Current(jobs, job.id, job.leaseToken.value, now);
    }

    method RecordProviderCancelled(id: JobId, call: CallId)
      modifies this`calls
      ensures Rows() == RecordCancelledDb(old(Rows()), id, call)
    {
      if call in calls && calls[call].jobId == id {
        calls := calls[call := calls[call].(status := CallCancelled)];
      }
    }

    /** `mark_succeeded` after its authority read, which other transactions may separate from
        the commit: the upload, then one transaction that is rolled back if materializing raises. */
    method MarkSucceeded(job: Job, output: Output, authorized: bool, upload: Upload, now: Time) returns (r: Completion)
      modifies this
      ensures r.Answer? && r.accepted <==>
        && job.leaseToken.Some? && authorized && upload.Stored?
        && Current(old(jobs), job.id, job.leaseToken.value, now) && output.materializable
      ensures !r.Answer? <==>
        && job.leaseToken.Some? && authorized
        && (!upload.Stored? || (Current(old(jobs), job.id, job.leaseToken.value, now) && !output.materializable))
      ensures !r.Answer? ==>
          r == if upload.UploadRetryable? then RaisesRetryable(upload.code, upload.hint) else RaisesOther
      ensures r == Answer(true) ==> Rows() == SucceedDb(old(Rows()), old(job.Memory()), output, now)
      ensures r != Answer(true) ==> Rows() == old(Rows())
    {
      if job.leaseToken.None? || !authorized { return Answer(false); }
      match upload {
        case UploadRetryable(code, hint) => return RaisesRetryable(code, hint);
        case UploadRejected => return RaisesOther;
        case Stored =>
      }
      if !Current(jobs, job.id, job.leaseToken.value, now) { return Answer(false); }
      var savepoint := (jobs, attempts, calls);
      jobs := jobs[job.id := FinishRow(jobs[job.id], Succeeded, None, now).(output := Some(output))];
      CloseOwn(job, AttemptSucceeded, None, now);
      calls := SetCall(calls, job.id, output.evidence, CallSucceeded);
      if !output.materializable {
        jobs, attempts, calls := savepoint.0, savepoint.1, savepoint.2;
        return RaisesOther;
      }
      materialized := materialized + Tagged(job.id, output.rows);
      return Answer(true);
    }

    method CloseOwn(job: Job, outcome: AttemptOutcome, code: Option<string>, now: Time)
      requires job.leaseToken.Some?
      modifies this`attempts
      ensures attempts == CloseOwnAttempt(old(attempts), job.Memory(), outcome, code, now)
    {
      var key := (job.id, job.attempts);
      if key in attempts && attempts[key].attemptId == job.attemptId && attempts[key].outcome.Open? {
        attempts := attempts[key := Closed(attempts[key], outcome, code, now)];
      }
    }

    method MarkFailed(job: Job, code: string, now: Time) returns (accepted: bool)
      modifies this
      ensures accepted <==> job.leaseToken.Some? && Current(old(jobs), job.id, job.leaseToken.value, now)
      ensures Rows() == if accepted then FailDb(old(Rows()), old(job.Memory()), code, now) else old(Rows())
    {
      if job.leaseToken.None? || !Current(jobs, job.id, job.leaseToken.value, now) { return false; }
      jobs := jobs[job.id := FinishRow(jobs[job.id], Failed, Some(code), now)];
      CloseOwn(job, AttemptFailed, Some(code), now);
      calls := map c | c in calls ::
        if calls[c].jobId == job.id && calls[c].status.Submitted?
        then calls[c].(status := CallFailed) else calls[c];
      return true;
    }

    method MarkRetryable(job: Job, code: string, retryAfterSeconds: real, now: Time)
      returns (disposition: Option<Status>)
      modifies this
      ensures disposition.Some? <==> job.leaseToken.Some? && Current(old(jobs), job.id, job.leaseToken.value, now)
      ensures disposition.None? ==> Rows() == old(Rows())
      ensures disposition.Some? ==>
        && Rows()
           == RetryDb(old(Rows()), old(job.Memory()), code, RetryDelay(job.attempts, Seconds(retryAfterSeconds)), now)
        && disposition == Some(jobs[job.id].status)
    {
      if job.leaseToken.None? || !Current(jobs, job.id, job.leaseToken.value, now) { return None; }
      var delay := RetryDelay(job.attempts, Seconds(retryAfterSeconds));
      var preserve := code == RECOVERY_PENDING;
      jobs := jobs[job.id := RetryRow(jobs[job.id], code, delay, preserve, now)];
      CloseOwn(job, if jobs[job.id].status.Queued? then RetryScheduled else AttemptFailed, Some(code), now);
      if !preserve {
        calls := map c | c in calls ::
          if calls[c].jobId == job.id && calls[c].status.Submitted?
            && (calls[c].attempt == job.attempts || job.providerCallId == Some(c))
          then calls[c].(status := CallFailed) else calls[c];
      }
      return Some(jobs[job.id].status);
    }
  }
}

/** `run_once` after the claim: what it reports agrees with what it committed. */
module Worker {
  import opened Common
  import opened QueueRows
  import opened Faults
  import opened QueueStore

  datatype HandlerResult =
    | Returned(output: Output, upload: Upload)
    | RaisedRetryable(code: FaultCode, hint: Hint)
    | RaisedOther

  datatype ObservedOutcome = ObservedSucceeded | ObservedRetry | ObservedFailed | ObservedDiscarded

  datatype Level = Info | Warn | Error

  datatype Observation = Observation(outcome: ObservedOutcome, level: Level, errorCode: Option<string>,
    retryAfter: Option<real>)

  function CompletedObservation(outcome: ObservedOutcome, errorCode: Option<string>,
                                retryAfter: Option<real>): Observation {
    Observation(outcome,
      if outcome.ObservedSucceeded? then Info else if outcome.ObservedFailed? then Error else Warn, errorCode,
      retryAfter)
  }

  function LevelRule(outcome: ObservedOutcome): Level {
    match outcome
    case ObservedSucceeded => Info
    case ObservedRetry => Warn
    case ObservedFailed => Error
    case ObservedDiscarded => Warn
  }

  /** The outcome, level, error and retry rules of `validate_worker_observation`. */
  predicate Lawful(o: Observation) {
    && o.level == LevelRule(o.outcome)
    && (o.errorCode.Some? ==> ValidCode(o.errorCode.value))
    && (o.retryAfter.Some? ==> 0.0 <= o.retryAfter.value <= 900.0)
    && (o.outcome.ObservedSucceeded? ==> o.errorCode.None? && o.retryAfter.None?)
    && (o.outcome.ObservedRetry? ==> o.errorCode.Some? && o.retryAfter.Some?)
    && (o.outcome.ObservedFailed? || o.outcome.ObservedDiscarded? ==> o.errorCode.Some? && o.retryAfter.None?)
  }

  /** The committed row of `id` is what the observation says happened to it. */
  predicate RowMatches(o: Observation, id: JobId, before: Db, after: Db, result: HandlerResult, now: Time) {
    match o.outcome
    case ObservedDiscarded => after == before
    case ObservedSucceeded =>
      && id in after.jobs && after.jobs[id].status.Succeeded? && result.Returned?
      && after.jobs[id].output == Some(result.output)
      && after.jobs[id].lastErrorCode.None?
      && after.materialized == before.materialized + Tagged(id, result.output.rows)
    case ObservedFailed =>
      && id in after.jobs && after.jobs[id].status.Failed? && after.jobs[id].lastErrorCode == o.errorCode
      && after.materialized == before.materialized
    case ObservedRetry =>
      && id in after.jobs && after.jobs[id].status.Queued? && after.jobs[id].lastErrorCode == o.errorCode
      && o.retryAfter.Some? && after.jobs[id].availableAt == now + o.retryAfter.value
      && after.materialized == before.materialized
  }

  lemma FixedCodesAreValid()
    ensures ValidCode("lease-not-current") && ValidCode("handler-failed")
  {
  }

  const DISCARDED := CompletedObservation(ObservedDiscarded, Some("lease-not-current"), None)

  /** A non-discarded outcome was committed under a lease current at `now`. */
  ghost predicate CommittedUnderLease(o: Observation, job: Job, before: Db, after: Db, now: Time) {
    !o.outcome.ObservedDiscarded? ==>
      after != before && job.leaseToken.Some? && Current(before.jobs, job.id, job.leaseToken.value, now)
  }

  method FinishRetryable(store: PostgresQueueStore, job: Job, code: FaultCode, hint: Hint, ghost result: HandlerResult,
                         now: Time) returns (o: Observation)
    modifies store
    ensures Lawful(o) && RetryReported(o, job, code, hint, old(store.Rows()), now)
    ensures RowMatches(o, job.id, old(store.Rows()), store.Rows(), result, now)
    ensures CommittedUnderLease(o, job, old(store.Rows()), store.Rows(), now) && !o.outcome.ObservedSucceeded?
  {
    FixedCodesAreValid();
    var delay := RetryDelay(job.attempts, hint);
    RetryDelayLaws(job.attempts, job.attempts, hint);
    var disposition := store.MarkRetryable(job, code, delay, now);
    if disposition == Some(Queued) {
      o := CompletedObservation(ObservedRetry, Some(code), Some(delay));
    } else if disposition == Some(Failed) {
      o := CompletedObservation(ObservedFailed, Some(code), None);
    } else {
      o := DISCARDED;
    }
  }

  method FinishFailed(store: PostgresQueueStore, job: Job, ghost result: HandlerResult, now: Time)
    returns (o: Observation)
    modifies store
    ensures Lawful(o) && FailureReported(o, job, old(store.Rows()), now)
    ensures RowMatches(o, job.id, old(store.Rows()), store.Rows(), result, now)
    ensures CommittedUnderLease(o, job, old(store.Rows()), store.Rows(), now) && !o.outcome.ObservedSucceeded?
  {
    FixedCodesAreValid();
    var accepted := store.MarkFailed(job, "handler-failed", now);
    o := if accepted then CompletedObservation(ObservedFailed, Some("handler-failed"), None) else DISCARDED;
  }

  /** Whether completing a returned output raises, so that a fault is written afterwards. */
  predicate CompletionRaises(job: Job, result: HandlerResult, authorized: bool, jobs: Jobs, now: Time) {
    && result.Returned? && job.leaseToken.Some? && authorized
    && (!result.upload.Stored? || (Current(jobs, job.id, job.leaseToken.value, now) && !result.output.materializable))
  }

  /** The lease is current in these tables. */
  predicate Holds(job: Job, jobs: Jobs, now: Time) {
    job.leaseToken.Some? && Current(jobs, job.id, job.leaseToken.value, now)
  }

  /** The report of a retryable fault met by the tables `db`: discarded exactly when the lease is
      lost, else a retry after the policy's delay while attempts are left, and then a failure. */
  ghost predicate RetryReported(o: Observation, job: Job, code: FaultCode, hint: Hint, db: Db, now: Time) {
    if !Holds(job, db.jobs, now) then o.outcome.ObservedDiscarded?
    else
      && o.errorCode == Some(code)
      && if db.jobs[job.id].attempts < db.jobs[job.id].maxAttempts
         then o.outcome.ObservedRetry? && o.retryAfter == Some(RetryDelay(job.attempts, hint))
         else o.outcome.ObservedFailed?
  }

  /** The report of any other fault. */
  ghost predicate FailureReported(o: Observation, job: Job, db: Db, now: Time) {
    if !Holds(job, db.jobs, now) then o.outcome.ObservedDiscarded?
    else o.outcome.ObservedFailed? && o.errorCode == Some("handler-failed")
  }

  /** What each result of a handler must be reported as: a returned output succeeds exactly when it
      was authorized, stored, still leased at the commit and materializable; it is discarded when
      the lease went missing, and otherwise is a fault like one that the handler raised itself. */
  ghost predicate Reported(o: Observation, job: Job, result: HandlerResult, authorized: bool, start: Db,
                           commitNow: Time, db: Db, faultNow: Time) {
    match result
    case RaisedRetryable(code, hint) => RetryReported(o, job, code, hint, db, faultNow)
    case RaisedOther => FailureReported(o, job, db, faultNow)
    case Returned(output, upload) =>
      if job.leaseToken.None? || !authorized then o.outcome.ObservedDiscarded?
      else if upload.UploadRetryable? then RetryReported(o, job, upload.code, upload.hint, db, faultNow)
      else if upload.UploadRejected? then FailureReported(o, job, db, faultNow)
      else if !Holds(job, start.jobs, commitNow) then o.outcome.ObservedDiscarded?
      else if !output.materializable then FailureReported(o, job, db, faultNow)
      else o.outcome.ObservedSucceeded?
  }

  /** For every handler result or fault and any state of the store: the observation breaks no
      rule and says what the result calls for, a non-discarded outcome was committed under a
      current lease exactly as reported (same code, same delay), and a discarded one left every
      row as it was. Other connections may commit anything between a completion that raises and
      the fault written for it; the write then answers to the tables as they left them. */
  method FinishAttempt(store: PostgresQueueStore, job: Job, result: HandlerResult, authorized: bool, others: Db -> Db,
                       commitNow: Time, faultNow: Time)
    returns (o: Observation, ghost before: Db)
    modifies store
    ensures
      before == if CompletionRaises(job, result, authorized, old(store.jobs), commitNow)
                then others(old(store.Rows())) else old(store.Rows())
    ensures Lawful(o)
    ensures Reported(o, job, result, authorized, old(store.Rows()), commitNow, before, faultNow)
    ensures RowMatches(o, job.id, before, store.Rows(), result, faultNow)
    ensures
      CommittedUnderLease(o, job, before, store.Rows(), if o.outcome.ObservedSucceeded? then commitNow else faultNow)
  {
    FixedCodesAreValid();
    before := store.Rows();
    match result {
      case RaisedRetryable(code, hint) => o := FinishRetryable(store, job, code, hint, result, faultNow);
      case RaisedOther => o := FinishFailed(store, job, result, faultNow);
      case Returned(output, upload) =>
        var completion := store.MarkSucceeded(job, output, authorized, upload, commitNow);
        match completion {
          case Answer(accepted) =>
            o := if accepted then CompletedObservation(ObservedSucceeded, None, None) else DISCARDED;
          case RaisesRetryable(code, hint) =>
            store.Elsewhere(others);
            before := store.Rows();
            o := FinishRetryable(store, job, code, hint, result, faultNow);
          case RaisesOther =>
            store.Elsewhere(others);
            before := store.Rows();
            o := FinishFailed(store, job, result, faultNow);
        }
    }
  }
}
