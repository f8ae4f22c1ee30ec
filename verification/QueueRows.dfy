/** The rows behind the job queue and the effect of each database transaction on them.

    Every `with self._conn.transaction()` block of the Postgres store is one function from
    rows to rows.  `now` is the clock reading of that transaction; nothing relates two
    readings, so every result below holds for an arbitrary clock. */
module QueueRows {
  import opened Common

  type JobId = string
  type Token = string
  type CallId = string
  type Time = real

  datatype Status = Queued | Running | Succeeded | Failed | Cancelled

  predicate Terminal(s: Status) { s.Succeeded? || s.Failed? || s.Cancelled? }

  datatype Provider = Fixture | Local | Modal

  /** A handler's result: the rows it materializes, the provider call it names as evidence,
      and whether materialization goes through (otherwise it raises and rolls back). */
  datatype Output = Output(rows: seq<string>, evidence: Option<CallId>, materializable: bool)

  datatype JobRow = JobRow(
    kind: string, provider: Provider, status: Status,
    attempts: nat, maxAttempts: nat, timeoutSeconds: nat,
    createdAt: Time, availableAt: Time,
    leaseToken: Option<Token>, leaseExpiresAt: Option<Time>,
    providerCallId: Option<CallId>, lastErrorCode: Option<string>,
    output: Option<Output>, finishedAt: Option<Time>)

  datatype AttemptOutcome = Open | AttemptSucceeded | RetryScheduled | AttemptFailed | AttemptCancelled | Expired

  datatype AttemptRow = AttemptRow(attemptId: string, outcome: AttemptOutcome, errorCode: Option<string>,
    finishedAt: Option<Time>)

  datatype CallStatus = Submitted | CallSucceeded | CallFailed | CancellationRequested | CallCancelled

  datatype CallRow = CallRow(jobId: JobId, attempt: nat, status: CallStatus)

  type Jobs = map<JobId, JobRow>
  type Attempts = map<(JobId, nat), AttemptRow>
  type Calls = map<CallId, CallRow>
  type Materialized = seq<(JobId, string)>

  datatype Db = Db(jobs: Jobs, attempts: Attempts, calls: Calls, materialized: Materialized)

  /** What a worker remembers of its claim; it survives the loss of the lease. */
  datatype Lease = Lease(jobId: JobId, token: Token, attempt: nat, attemptId: string, providerCallId: Option<CallId>)

  // ---------------------------------------------------------------- fences

  /** The guard of every worker-side update: running, under this token, not yet expired. */
  predicate Current(jobs: Jobs, id: JobId, token: Token, now: Time) {
    && id in jobs
    && jobs[id].status.Running?
    && jobs[id].leaseToken == Some(token)
    && jobs[id].leaseExpiresAt.Some?
    && now < jobs[id].leaseExpiresAt.value
  }

  predicate LeaseElapsed(r: JobRow, now: Time) {
    r.status.Running? && r.leaseExpiresAt.Some? && r.leaseExpiresAt.value <= now
  }

  predicate Served(r: JobRow, tasks: set<string>) { !r.provider.Fixture? && r.kind in tasks }

  predicate Exhausted(r: JobRow, tasks: set<string>, now: Time) {
    Served(r, tasks) && LeaseElapsed(r, now) && r.maxAttempts <= r.attempts
  }

  predicate Claimable(r: JobRow, tasks: set<string>, now: Time) {
    && Served(r, tasks)
    && r.attempts < r.maxAttempts
    && ((r.status.Queued? && r.availableAt <= now) || LeaseElapsed(r, now))
  }

  // ---------------------------------------------------------------- row edits

  function FinishRow(r: JobRow, status: Status, code: Option<string>, now: Time): JobRow {
    r.(status := status, lastErrorCode := code, finishedAt := Some(now), leaseToken := None, leaseExpiresAt := None)
  }

  function ClaimRow(r: JobRow, token: Token, now: Time): JobRow {
    r.(status := Running, attempts := r.attempts + 1, finishedAt := None, lastErrorCode := None,
       leaseToken := Some(token), leaseExpiresAt := Some(now + r.timeoutSeconds as real))
  }

  function RetryRow(r: JobRow, code: string, delay: real, preserveCall: bool, now: Time): JobRow {
    if r.attempts < r.maxAttempts then
      r.(status := Queued, availableAt := now + delay, lastErrorCode := Some(code), finishedAt := None,
         leaseToken := None, leaseExpiresAt := None,
         providerCallId := if preserveCall then r.providerCallId else None)
    else
      FinishRow(r, Failed, Some(code), now)
  }

  function Closed(a: AttemptRow, outcome: AttemptOutcome, code: Option<string>, now: Time): AttemptRow {
    a.(outcome := outcome, errorCode := code, finishedAt := Some(now))
  }

  /** Closes the attempt row at `key` when it is open. */
  function CloseAttempt(attempts: Attempts, key: (JobId, nat), outcome: AttemptOutcome, code: Option<string>,
                        now: Time): Attempts {
    if key in attempts && attempts[key].outcome.Open? then attempts[key := Closed(attempts[key], outcome, code, now)]
    else attempts
  }

  /** The worker's own form: the attempt id it remembers must match as well. */
  function CloseOwnAttempt(attempts: Attempts, lease: Lease, outcome: AttemptOutcome, code: Option<string>,
                           now: Time): Attempts {
    var key := (lease.jobId, lease.attempt);
    if key in attempts && attempts[key].attemptId == lease.attemptId then
      CloseAttempt(attempts, key, outcome, code, now)
    else attempts
  }

  function SetCall(calls: Calls, id: JobId, call: Option<CallId>, status: CallStatus): Calls {
    if call.Some? && call.value in calls && calls[call.value].jobId == id
    then calls[call.value := calls[call.value].(status := status)] else calls
  }

  /** Fails every submitted call of `id` selected by `pick`. */
  function FailSubmitted(calls: Calls, id: JobId, pick: (CallId, CallRow) -> bool): Calls {
    map c | c in calls ::
      if calls[c].jobId == id && calls[c].status.Submitted? && pick(c, calls[c])
      then calls[c].(status := CallFailed) else calls[c]
  }

  function RowsOf(materialized: Materialized, id: JobId): (rows: seq<string>) {
    if materialized == [] then []
    else
      var last := materialized[|materialized| - 1];
      RowsOf(materialized[..|materialized| - 1], id) + if last.0 == id then [last.1] else []
  }

  function Tagged(id: JobId, rows: seq<string>): Materialized {
    seq(|rows|, i requires 0 <= i < |rows| => (id, rows[i]))
  }

  // ---------------------------------------------------------------- claim_one

  /** First statement of `claim_one`: fail every job whose last permitted lease elapsed. */
  function ExhaustAll(db: Db, tasks: set<string>, now: Time): Db {
    db.(
      jobs := map j | j in db.jobs ::
        if Exhausted(db.jobs[j], tasks, now)
        then FinishRow(db.jobs[j], Failed, Some("worker-crash-exhausted"), now) else db.jobs[j],
      attempts := map k | k in db.attempts ::
        if k.0 in db.jobs && Exhausted(db.jobs[k.0], tasks, now) && k.1 == db.jobs[k.0].attempts
          && db.attempts[k].outcome.Open?
        then Closed(db.attempts[k], AttemptFailed, Some("worker-crash-exhausted"), now) else db.attempts[k])
  }

  /** The `ORDER BY` of the claim: expired leases first, then the due time, then age. */
  predicate OrderedBefore(a: JobRow, b: JobRow) {
    var dueA := if a.leaseExpiresAt.Some? then a.leaseExpiresAt.value else a.availableAt;
    var dueB := if b.leaseExpiresAt.Some? then b.leaseExpiresAt.value else b.availableAt;
    if a.status.Running? != b.status.Running? then a.status.Running?
    else dueA < dueB || (dueA == dueB && a.createdAt <= b.createdAt)
  }

  /** `pick` is a row the claim may take: first in order among due rows no other
      transaction has locked, or nothing when there is none. */
  ghost predicate IsNext(jobs: Jobs, tasks: set<string>, now: Time, locked: set<JobId>, pick: Option<JobId>) {
    match pick
    case None => forall j :: j in jobs && j !in locked ==> !Claimable(jobs[j], tasks, now)
    case Some(p) =>
      && p in jobs && p !in locked && Claimable(jobs[p], tasks, now)
      && forall j :: j in jobs && j !in locked && Claimable(jobs[j], tasks, now) ==> OrderedBefore(jobs[p], jobs[j])
  }

  function TakePick(db: Db, p: JobId, token: Token, attemptId: string, now: Time): Db
    requires p in db.jobs
  {
    var r := db.jobs[p];
    var closed :=
      if r.status.Running? then CloseAttempt(db.attempts, (p, r.attempts), Expired, Some("attempt-lease-expired"), now)
      else db.attempts;
    db.(jobs := db.jobs[p := ClaimRow(r, token, now)],
        attempts := closed[(p, r.attempts + 1) := AttemptRow(attemptId, Open, None, None)])
  }

  function ClaimDb(db: Db, tasks: set<string>, now: Time, pick: Option<JobId>, token: Token, attemptId: string): Db {
    var e := ExhaustAll(db, tasks, now);
    if pick.Some? && pick.value in e.jobs then TakePick(e, pick.value, token, attemptId, now) else e
  }

  function ClaimLease(db: Db, p: JobId, token: Token, attemptId: string): Lease
    requires p in db.jobs
  {
    Lease(p, token, db.jobs[p].attempts + 1, attemptId, db.jobs[p].providerCallId)
  }

  // ---------------------------------------------------------------- provider calls

  /** `_record_provider_call` commits: the row update matches and no unique key of
      `job_provider_calls` or of `jobs.provider_call_id` is violated. */
  predicate CallAccepted(db: Db, lease: Lease, call: CallId, now: Time) {
    && Current(db.jobs, lease.jobId, lease.token, now)
    && db.jobs[lease.jobId].provider.Modal?
    && db.jobs[lease.jobId].providerCallId.None?
    && UniqueKeysAdmit(db, lease, call)
  }

  predicate UniqueKeysAdmit(db: Db, lease: Lease, call: CallId) {
    && call !in db.calls
    && (forall c :: c in db.calls ==> db.calls[c].jobId != lease.jobId || db.calls[c].attempt != lease.attempt)
    && (forall j :: j in db.jobs ==> db.jobs[j].providerCallId != Some(call))
  }

  function RecordCallDb(db: Db, lease: Lease, call: CallId, now: Time): Db {
    if CallAccepted(db, lease, call, now) then
      db.(jobs := db.jobs[lease.jobId := db.jobs[lease.jobId].(providerCallId := Some(call))],
          calls := db.calls[call := CallRow(lease.jobId, lease.attempt, Submitted)])
    else db
  }

  function RecordCancelledDb(db: Db, id: JobId, call: CallId): Db {
    db.(calls := SetCall(db.calls, id, Some(call), CallCancelled))
  }

  // ---------------------------------------------------------------- completion

  function SucceedDb(db: Db, lease: Lease, output: Output, now: Time): Db {
    if Current(db.jobs, lease.jobId, lease.token, now) && output.materializable then
      Db(db.jobs[lease.jobId := FinishRow(db.jobs[lease.jobId], Succeeded, None, now).(output := Some(output))],
         CloseOwnAttempt(db.attempts, lease, AttemptSucceeded, None, now),
         SetCall(db.calls, lease.jobId, output.evidence, CallSucceeded),
         db.materialized + Tagged(lease.jobId, output.rows))
    else db
  }

  function FailDb(db: Db, lease: Lease, code: string, now: Time): Db {
    if Current(db.jobs, lease.jobId, lease.token, now) then
      db.(jobs := db.jobs[lease.jobId := FinishRow(db.jobs[lease.jobId], Failed, Some(code), now)],
          attempts := CloseOwnAttempt(db.attempts, lease, AttemptFailed, Some(code), now),
          calls := FailSubmitted(db.calls, lease.jobId, (c, r) => true))
    else db
  }

  const RECOVERY_PENDING := "provider-recovery-pending"

  function RetryDb(db: Db, lease: Lease, code: string, delay: real, now: Time): Db {
    if Current(db.jobs, lease.jobId, lease.token, now) then
      var preserve := code == RECOVERY_PENDING;
      var r := RetryRow(db.jobs[lease.jobId], code, delay, preserve, now);
      db.(jobs := db.jobs[lease.jobId := r],
          attempts := CloseOwnAttempt(db.attempts, lease,
            if r.status.Queued? then RetryScheduled else AttemptFailed, Some(code), now),
          calls := if preserve then db.calls
                   else FailSubmitted(db.calls, lease.jobId,
                     (c, row: CallRow) => row.attempt == lease.attempt || lease.providerCallId == Some(c)))
    else db
  }

  // ---------------------------------------------------------------- environment

  predicate Cancellable(db: Db, id: JobId) {
    id in db.jobs && (db.jobs[id].status.Queued? || db.jobs[id].status.Running?)
  }

  /** The owner cancels: the row, its open attempt and its submitted call are all settled. */
  function OwnerCancelDb(db: Db, id: JobId, now: Time): Db {
    if Cancellable(db, id) then
      var r := db.jobs[id];
      db.(jobs := db.jobs[id := FinishRow(r, Cancelled, Some("owner-cancelled"), now)],
          attempts := if r.status.Running?
                      then CloseAttempt(db.attempts, (id, r.attempts), AttemptCancelled, Some("owner-cancelled"), now)
                      else db.attempts,
          calls := if r.providerCallId.Some? && r.providerCallId.value in db.calls
                     && db.calls[r.providerCallId.value].status.Submitted?
                   then SetCall(db.calls, id, r.providerCallId, CancellationRequested) else db.calls)
    else db
  }

  /** A consent withdrawal cancels the row and touches nothing else. */
  function WithdrawDb(db: Db, id: JobId, now: Time): Db {
    if Cancellable(db, id) then
      db.(jobs := db.jobs[id := FinishRow(db.jobs[id], Cancelled, Some("consent-withdrawn"), now)])
    else db
  }

  function NewRow(kind: string, provider: Provider, maxAttempts: nat, timeoutSeconds: nat, now: Time): JobRow {
    JobRow(kind, provider, Queued, 0, maxAttempts, timeoutSeconds, now, now, None, None, None, None, None, None)
  }

  function EnqueueDb(db: Db, id: JobId, row: JobRow): Db {
    if id in db.jobs then db else db.(jobs := db.jobs[id := row])
  }
}
