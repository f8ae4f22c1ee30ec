/** The queue as a state machine: any number of workers, each remembering the lease it was
    handed, interleave transactions with the environment.  A worker whose lease was lost
    keeps its memory and may act on it at any later time. */
module QueueProtocol {
  import opened Common
  import opened QueueRows

  /** Rows, every lease ever handed out (one per worker attempt), and the jobs whose running
      attempt was abandoned by a consent withdrawal. */
  datatype World = World(db: Db, leases: map<Token, Lease>, orphans: set<JobId>)

  datatype Step =
    | Enqueue(id: JobId, row: JobRow)
    | Claim(tasks: set<string>, now: Time, locked: set<JobId>, pick: Option<JobId>, token: Token, attemptId: string)
    | RecordCall(token: Token, call: CallId, now: Time)
    | RecordCancelled(token: Token, call: CallId)
    | Succeed(token: Token, output: Output, now: Time)
    | Fail(token: Token, code: string, now: Time)
    | Retry(token: Token, code: string, delay: real, now: Time)
    | OwnerCancel(id: JobId, now: Time)
    | Withdraw(id: JobId, now: Time)

  /** What the environment guarantees about a step: claims draw a fresh token and take a
      permitted row; inserted rows satisfy the table's checks. */
  ghost predicate Legal(w: World, s: Step) {
    match s
    case Claim(tasks, now, locked, pick, token, attemptId) =>
      token !in w.leases && IsNext(ExhaustAll(w.db, tasks, now).jobs, tasks, now, locked, pick)
    case Enqueue(id, row) =>
      && row.status.Queued? && row.attempts == 0 && 1 <= row.maxAttempts <= 10 && 1 <= row.timeoutSeconds <= 28800
      && row.leaseToken.None? && row.leaseExpiresAt.None? && row.providerCallId.None? && row.output.None?
    case _ => true
  }

  function NextDb(w: World, s: Step): Db {
    match s
    case Enqueue(id, row) => EnqueueDb(w.db, id, row)
    case Claim(tasks, now, locked, pick, token, attemptId) => ClaimDb(w.db, tasks, now, pick, token, attemptId)
    case OwnerCancel(id, now) => OwnerCancelDb(w.db, id, now)
    case Withdraw(id, now) => WithdrawDb(w.db, id, now)
    case _ =>
      if s.token !in w.leases then w.db
      else
        var l := w.leases[s.token];
        match s
        case RecordCall(_, call, now) => RecordCallDb(w.db, l, call, now)
        case RecordCancelled(_, call) => RecordCancelledDb(w.db, l.jobId, call)
        case Succeed(_, output, now) => SucceedDb(w.db, l, output, now)
        case Fail(_, code, now) => FailDb(w.db, l, code, now)
        case Retry(_, code, delay, now) => RetryDb(w.db, l, code, delay, now)
        case _ => w.db
  }

  function NextLeases(w: World, s: Step): map<Token, Lease> {
    match s
    case Claim(tasks, now, _, pick, token, attemptId) =>
      var e := ExhaustAll(w.db, tasks, now);
      if pick.Some? && pick.value in e.jobs then w.leases[token := ClaimLease(e, pick.value, token, attemptId)]
      else w.leases
    case RecordCall(token, call, now) =>
      if token in w.leases && CallAccepted(w.db, w.leases[token], call, now)
      then w.leases[token := w.leases[token].(providerCallId := Some(call))] else w.leases
    case _ => w.leases
  }

  function Next(w: World, s: Step): World {
    World(NextDb(w, s), NextLeases(w, s),
          if s.Withdraw? && s.id in w.db.jobs && w.db.jobs[s.id].status.Running? then w.orphans + {s.id} else w.orphans)
  }

  /** The store's answer to a worker: did the fenced update of `s` match a row? */
  predicate Accepted(w: World, s: Step) {
    match s
    case RecordCall(token, call, now) => token in w.leases && CallAccepted(w.db, w.leases[token], call, now)
    case Succeed(token, output, now) =>
      token in w.leases && Current(w.db.jobs, w.leases[token].jobId, token, now) && output.materializable
    case Fail(token, _, now) => token in w.leases && Current(w.db.jobs, w.leases[token].jobId, token, now)
    case Retry(token, _, _, now) => token in w.leases && Current(w.db.jobs, w.leases[token].jobId, token, now)
    case _ => true
  }

  /** The updates that only the current lease may perform. */
  predicate Fenced(s: Step) { s.RecordCall? || s.Succeed? || s.Fail? || s.Retry? }

  const EMPTY := World(Db(map[], map[], map[], []), map[], {})

  function Run(w: World, steps: seq<Step>): World {
    if steps == [] then w else Next(Run(w, steps[..|steps| - 1]), steps[|steps| - 1])
  }

  ghost predicate LegalRun(w: World, steps: seq<Step>) {
    steps != [] ==> LegalRun(w, steps[..|steps| - 1]) && Legal(Run(w, steps[..|steps| - 1]), steps[|steps| - 1])
  }

  // ---------------------------------------------------------------- invariant

  ghost predicate RowInv(r: JobRow) {
    && (r.status.Running? <==> r.leaseToken.Some?)
    && (r.status.Running? <==> r.leaseExpiresAt.Some?)
    && (r.status.Succeeded? <==> r.output.Some?)
    && 1 <= r.maxAttempts && 1 <= r.timeoutSeconds && r.attempts <= r.maxAttempts
    && (r.status.Queued? ==> r.attempts < r.maxAttempts)
    && (r.status.Running? ==> 1 <= r.attempts)
    && (r.providerCallId.Some? ==> r.provider.Modal?)
  }

  /** Attempt rows are exactly 1..attempts, and only the newest can be open: it is open iff
      the job runs or its running attempt was orphaned. */
  ghost predicate AttemptsInv(w: World, j: JobId, r: JobRow) {
    && (forall a: nat :: (j, a) in w.db.attempts <==> 1 <= a <= r.attempts)
    && (forall a: nat :: (j, a) in w.db.attempts ==>
          (w.db.attempts[(j, a)].outcome.Open? <==> a == r.attempts && (r.status.Running? || j in w.orphans)))
    && (j in w.orphans ==> r.status.Cancelled? && 1 <= r.attempts)
  }

  /** Leases of a job are numbered by attempt; the holder named by a running row is the newest
      one and its memory agrees with the rows it will fence on. */
  ghost predicate LeasesInv(w: World, j: JobId, r: JobRow) {
    && (forall t :: t in w.leases && w.leases[t].jobId == j ==> 1 <= w.leases[t].attempt <= r.attempts)
    && (forall t, u ::
          && t in w.leases && u in w.leases && w.leases[t].jobId == j && w.leases[u].jobId == j
          && w.leases[t].attempt == w.leases[u].attempt ==>
            t == u)
    && (r.leaseToken.Some? ==>
          var t := r.leaseToken.value;
          && t in w.leases && w.leases[t].jobId == j && w.leases[t].attempt == r.attempts
          && w.leases[t].providerCallId == r.providerCallId
          && (j, r.attempts) in w.db.attempts && w.db.attempts[(j, r.attempts)].attemptId == w.leases[t].attemptId)
  }

  /** A submitted call is the job's recorded call; no attempt records two. */
  ghost predicate CallsInv(db: Db, j: JobId, r: JobRow) {
    && (forall c :: c in db.calls && db.calls[c].jobId == j ==>
          && 1 <= db.calls[c].attempt <= r.attempts
          && (db.calls[c].status.Submitted? ==> r.providerCallId == Some(c))
          && (r.status.Running? && db.calls[c].attempt == r.attempts ==> r.providerCallId == Some(c)))
    && (r.providerCallId.Some? ==> r.providerCallId.value in db.calls && db.calls[r.providerCallId.value].jobId == j)
  }

  function OutputOf(jobs: Jobs, j: JobId): Option<Output> { if j in jobs then jobs[j].output else None }

  function CommittedRows(jobs: Jobs, j: JobId): seq<string> {
    if OutputOf(jobs, j).Some? then OutputOf(jobs, j).value.rows else []
  }

  ghost predicate JobInv(w: World, j: JobId)
    requires j in w.db.jobs
  {
    var r := w.db.jobs[j];
    && RowInv(r) && AttemptsInv(w, j, r) && LeasesInv(w, j, r) && CallsInv(w.db, j, r)
  }

  /** Attempt rows, leases, calls, orphans and output rows all refer to existing jobs. */
  ghost predicate RefsInv(w: World) {
    && (forall k :: k in w.db.attempts ==> k.0 in w.db.jobs)
    && (forall t :: t in w.leases ==> w.leases[t].token == t && w.leases[t].jobId in w.db.jobs)
    && (forall c :: c in w.db.calls ==> w.db.calls[c].jobId in w.db.jobs)
    && w.orphans <= w.db.jobs.Keys
  }

  ghost predicate MaterializedInv(db: Db) {
    forall j :: RowsOf(db.materialized, j) == CommittedRows(db.jobs, j)
  }

  ghost predicate Consistent(w: World) {
    RefsInv(w) && forall j :: j in w.db.jobs ==> JobInv(w, j)
  }

  ghost predicate Inv(w: World) { Consistent(w) && MaterializedInv(w.db) }

  /** `v` and `w` hold the same facts about job `i`. */
  ghost predicate Agree(v: World, w: World, i: JobId) {
    && (i in v.db.jobs <==> i in w.db.jobs) && (i in v.db.jobs ==> v.db.jobs[i] == w.db.jobs[i])
    && (forall a: nat :: (i, a) in v.db.attempts <==> (i, a) in w.db.attempts)
    && (forall a: nat :: (i, a) in v.db.attempts ==> v.db.attempts[(i, a)] == w.db.attempts[(i, a)])
    && (forall t :: t in v.leases && v.leases[t].jobId == i ==> t in w.leases && w.leases[t] == v.leases[t])
    && (forall t :: t in w.leases && w.leases[t].jobId == i ==> t in v.leases && v.leases[t] == w.leases[t])
    && (forall c :: c in v.db.calls && v.db.calls[c].jobId == i ==> c in w.db.calls && w.db.calls[c] == v.db.calls[c])
    && (forall c :: c in w.db.calls && w.db.calls[c].jobId == i ==> c in v.db.calls && v.db.calls[c] == w.db.calls[c])
    && (i in v.orphans <==> i in w.orphans)
  }

  lemma AgreeKeeps(v: World, w: World, i: JobId)
    requires Agree(v, w, i) && i in v.db.jobs && JobInv(v, i)
    ensures JobInv(w, i)
  {
  }

  lemma RowsOfAppend(m: Materialized, id: JobId, rows: seq<string>, j: JobId)
    ensures RowsOf(m + Tagged(id, rows), j) == RowsOf(m, j) + if j == id then rows else []
    decreases |rows|
  {
    var all := m + Tagged(id, rows);
    if rows == [] {
      assert all == m;
    } else {
      var init := rows[..|rows| - 1];
      assert all[..|all| - 1] == m + Tagged(id, init);
      RowsOfAppend(m, id, init, j);
      assert rows == init + [rows[|rows| - 1]];
    }
  }

  lemma CloseOwnEffect(w: World, l: Lease, outcome: AttemptOutcome, code: Option<string>, now: Time)
    requires l.jobId in w.db.jobs && JobInv(w, l.jobId) && Current(w.db.jobs, l.jobId, l.token, now)
    requires l.token in w.leases && w.leases[l.token] == l && !outcome.Open?
    ensures var k := (l.jobId, l.attempt);
      && k in w.db.attempts
      && CloseOwnAttempt(w.db.attempts, l, outcome, code, now)
         == w.db.attempts[k := Closed(w.db.attempts[k], outcome, code, now)]
  {
  }

  /** `v` and `w` differ at most in what they hold about job `j`. */
  ghost predicate EditedAt(v: World, w: World, j: JobId) {
    && w.db.jobs.Keys == v.db.jobs.Keys + {j}
    && (forall i :: i in v.db.jobs && i != j ==> w.db.jobs[i] == v.db.jobs[i])
    && (forall k: (JobId, nat) :: k.0 != j ==> (k in v.db.attempts <==> k in w.db.attempts))
    && (forall k :: k in v.db.attempts && k.0 != j ==> w.db.attempts[k] == v.db.attempts[k])
    && (forall t ::
          t in v.leases ==>
            && t in w.leases && w.leases[t].jobId == v.leases[t].jobId
            && (v.leases[t].jobId != j ==> w.leases[t] == v.leases[t]))
    && (forall t :: t in w.leases && t !in v.leases ==> w.leases[t].jobId == j)
    && (forall c ::
          c in v.db.calls ==>
            && c in w.db.calls && w.db.calls[c].jobId == v.db.calls[c].jobId
            && (v.db.calls[c].jobId != j ==> w.db.calls[c] == v.db.calls[c]))
    && (forall c :: c in w.db.calls && c !in v.db.calls ==> w.db.calls[c].jobId == j)
    && (forall i :: i != j ==> (i in v.orphans <==> i in w.orphans))
  }

  lemma EditedAgrees(v: World, w: World, j: JobId, i: JobId)
    requires EditedAt(v, w, j) && i != j
    ensures Agree(v, w, i)
  {
  }

  lemma EditedRefs(v: World, w: World, j: JobId)
    requires RefsInv(v) && EditedAt(v, w, j)
    requires forall t :: t in w.leases ==> w.leases[t].token == t
    ensures RefsInv(w)
  {
  }

  /** A consistent world edited at job `j` only stays consistent once `j` itself does. */
  lemma LocalEdit(v: World, w: World, j: JobId)
    requires Consistent(v) && EditedAt(v, w, j) && j in w.db.jobs && JobInv(w, j)
    requires forall t :: t in w.leases ==> w.leases[t].token == t
    ensures Consistent(w)
  {
    EditedRefs(v, w, j);
    forall i | i in w.db.jobs && i != j ensures JobInv(w, i) {
      EditedAgrees(v, w, j, i);
      AgreeKeeps(v, w, i);
    }
  }

  /** Call rows change status only, only for job `j`, and never back to submitted. */
  ghost predicate CallsEdited(before: Calls, after: Calls, j: JobId) {
    && before.Keys == after.Keys
    && forall c :: c in before ==>
         && after[c].jobId == before[c].jobId && after[c].attempt == before[c].attempt
         && (before[c].jobId != j ==> after[c] == before[c])
         && (after[c].status.Submitted? ==> before[c].status.Submitted?)
  }

  /** A running job leaves its lease, closing its attempt. */
  function Settled(w: World, j: JobId, r: JobRow, closed: AttemptRow, calls: Calls): World
    requires j in w.db.jobs
  {
    w.(db := w.db.(jobs := w.db.jobs[j := r],
                   attempts := w.db.attempts[(j, w.db.jobs[j].attempts) := closed],
                   calls := calls))
  }

  ghost predicate Settles(w: World, j: JobId, r: JobRow, closed: AttemptRow, calls: Calls) {
    && j in w.db.jobs && w.db.jobs[j].status.Running?
    && RowInv(r) && !r.status.Running? && r.attempts == w.db.jobs[j].attempts && !closed.outcome.Open?
    && CallsEdited(w.db.calls, calls, j)
    && (r.providerCallId == w.db.jobs[j].providerCallId
        || (r.providerCallId.None? && forall c :: c in calls && calls[c].jobId == j ==> !calls[c].status.Submitted?))
  }

  lemma SettledOwn(w: World, j: JobId, r: JobRow, closed: AttemptRow, calls: Calls)
    requires j in w.db.jobs && JobInv(w, j) && Settles(w, j, r, closed, calls)
    ensures JobInv(Settled(w, j, r, closed, calls), j)
  {
  }

  lemma SettledEdited(w: World, j: JobId, r: JobRow, closed: AttemptRow, calls: Calls)
    requires Settles(w, j, r, closed, calls)
    ensures EditedAt(w, Settled(w, j, r, closed, calls), j)
  {
  }

  lemma SettledKeeps(w: World, j: JobId, r: JobRow, closed: AttemptRow, calls: Calls)
    requires Consistent(w) && Settles(w, j, r, closed, calls)
    ensures Consistent(Settled(w, j, r, closed, calls))
  {
    SettledOwn(w, j, r, closed, calls);
    SettledEdited(w, j, r, closed, calls);
    LocalEdit(w, Settled(w, j, r, closed, calls), j);
  }

  /** The lease `l` a worker remembers is the current lease of its job at `now`. */
  ghost predicate Holds(w: World, l: Lease, now: Time) {
    l.token in w.leases && w.leases[l.token] == l && Current(w.db.jobs, l.jobId, l.token, now)
  }

  lemma FailSettles(w: World, l: Lease, code: string, now: Time)
    requires Holds(w, l, now) && JobInv(w, l.jobId)
    ensures var v := FailDb(w.db, l, code, now);
      && Settles(w, l.jobId, v.jobs[l.jobId], v.attempts[(l.jobId, l.attempt)], v.calls)
      && w.(db := v) == Settled(w, l.jobId, v.jobs[l.jobId], v.attempts[(l.jobId, l.attempt)], v.calls)
  {
    CloseOwnEffect(w, l, AttemptFailed, Some(code), now);
  }

  lemma FailKeeps(w: World, l: Lease, code: string, now: Time)
    requires Consistent(w) && Holds(w, l, now)
    ensures Consistent(w.(db := FailDb(w.db, l, code, now)))
  {
    FailSettles(w, l, code, now);
    var v := FailDb(w.db, l, code, now);
    SettledKeeps(w, l.jobId, v.jobs[l.jobId], v.attempts[(l.jobId, l.attempt)], v.calls);
  }

  lemma RetrySettles(w: World, l: Lease, code: string, delay: real, now: Time)
    requires Holds(w, l, now) && JobInv(w, l.jobId)
    ensures var v := RetryDb(w.db, l, code, delay, now);
      && Settles(w, l.jobId, v.jobs[l.jobId], v.attempts[(l.jobId, l.attempt)], v.calls)
      && w.(db := v) == Settled(w, l.jobId, v.jobs[l.jobId], v.attempts[(l.jobId, l.attempt)], v.calls)
  {
    var r := RetryRow(w.db.jobs[l.jobId], code, delay, code == RECOVERY_PENDING, now);
    CloseOwnEffect(w, l, if r.status.Queued? then RetryScheduled else AttemptFailed, Some(code), now);
  }

  lemma RetryKeeps(w: World, l: Lease, code: string, delay: real, now: Time)
    requires Consistent(w) && Holds(w, l, now)
    ensures Consistent(w.(db := RetryDb(w.db, l, code, delay, now)))
  {
    RetrySettles(w, l, code, delay, now);
    var v := RetryDb(w.db, l, code, delay, now);
    SettledKeeps(w, l.jobId, v.jobs[l.jobId], v.attempts[(l.jobId, l.attempt)], v.calls);
  }

  lemma SucceedSettles(w: World, l: Lease, output: Output, now: Time)
    requires Holds(w, l, now) && JobInv(w, l.jobId) && output.materializable
    ensures var v := SucceedDb(w.db, l, output, now);
      && Settles(w, l.jobId, v.jobs[l.jobId], v.attempts[(l.jobId, l.attempt)], v.calls)
      && w.(db := v.(materialized := w.db.materialized))
         == Settled(w, l.jobId, v.jobs[l.jobId], v.attempts[(l.jobId, l.attempt)], v.calls)
  {
    CloseOwnEffect(w, l, AttemptSucceeded, None, now);
  }

  lemma SucceedKeeps(w: World, l: Lease, output: Output, now: Time)
    requires Consistent(w) && Holds(w, l, now) && output.materializable
    ensures Consistent(w.(db := SucceedDb(w.db, l, output, now)))
  {
    SucceedSettles(w, l, output, now);
    var v := SucceedDb(w.db, l, output, now);
    SettledKeeps(w, l.jobId, v.jobs[l.jobId], v.attempts[(l.jobId, l.attempt)], v.calls);
    ConsistentIgnoresOutputs(w.(db := v.(materialized := w.db.materialized)), v.materialized);
  }

  lemma ConsistentIgnoresOutputs(w: World, m: Materialized)
    requires Consistent(w)
    ensures Consistent(w.(db := w.db.(materialized := m)))
  {
    var v := w.(db := w.db.(materialized := m));
    forall j | j in v.db.jobs ensures JobInv(v, j) { AgreeKeeps(w, v, j); }
  }

  lemma OwnerCancelQueued(w: World, id: JobId, now: Time)
    requires id in w.db.jobs && JobInv(w, id) && w.db.jobs[id].status.Queued?
    ensures JobInv(w.(db := OwnerCancelDb(w.db, id, now)), id)
    ensures EditedAt(w, w.(db := OwnerCancelDb(w.db, id, now)), id)
  {
  }

  lemma OwnerCancelRunning(w: World, id: JobId, now: Time)
    requires id in w.db.jobs && JobInv(w, id) && w.db.jobs[id].status.Running?
    ensures var v := OwnerCancelDb(w.db, id, now); var k := (id, w.db.jobs[id].attempts);
      && k in v.attempts && Settles(w, id, v.jobs[id], v.attempts[k], v.calls)
      && w.(db := v) == Settled(w, id, v.jobs[id], v.attempts[k], v.calls)
  {
  }

  lemma OwnerCancelKeeps(w: World, id: JobId, now: Time)
    requires Consistent(w)
    ensures Consistent(w.(db := OwnerCancelDb(w.db, id, now)))
  {
    var v := OwnerCancelDb(w.db, id, now);
    if Cancellable(w.db, id) {
      if w.db.jobs[id].status.Running? {
        OwnerCancelRunning(w, id, now);
        SettledKeeps(w, id, v.jobs[id], v.attempts[(id, w.db.jobs[id].attempts)], v.calls);
      } else {
        OwnerCancelQueued(w, id, now);
        LocalEdit(w, w.(db := v), id);
      }
    }
  }

  function Withdrawn(w: World, id: JobId, now: Time): World {
    w.(db := WithdrawDb(w.db, id, now),
       orphans := if id in w.db.jobs && w.db.jobs[id].status.Running? then w.orphans + {id} else w.orphans)
  }

  lemma WithdrawOwn(w: World, id: JobId, now: Time)
    requires id in w.db.jobs && JobInv(w, id) && Cancellable(w.db, id)
    ensures JobInv(Withdrawn(w, id, now), id)
    ensures EditedAt(w, Withdrawn(w, id, now), id)
  {
  }

  lemma WithdrawKeeps(w: World, id: JobId, now: Time)
    requires Consistent(w)
    ensures Consistent(Withdrawn(w, id, now))
  {
    if Cancellable(w.db, id) {
      WithdrawOwn(w, id, now);
      LocalEdit(w, Withdrawn(w, id, now), id);
    }
  }

  lemma EnqueueOwn(w: World, id: JobId, row: JobRow)
    requires RefsInv(w) && Legal(w, Enqueue(id, row)) && id !in w.db.jobs
    ensures JobInv(w.(db := EnqueueDb(w.db, id, row)), id)
    ensures EditedAt(w, w.(db := EnqueueDb(w.db, id, row)), id)
  {
  }

  lemma EnqueueKeeps(w: World, id: JobId, row: JobRow)
    requires Consistent(w) && Legal(w, Enqueue(id, row))
    ensures Consistent(w.(db := EnqueueDb(w.db, id, row)))
  {
    if id !in w.db.jobs {
      EnqueueOwn(w, id, row);
      LocalEdit(w, w.(db := EnqueueDb(w.db, id, row)), id);
    }
  }

  function Recorded(w: World, l: Lease, call: CallId, now: Time): World {
    w.(db := RecordCallDb(w.db, l, call, now), leases := w.leases[l.token := l.(providerCallId := Some(call))])
  }

  lemma RecordCallOwn(w: World, l: Lease, call: CallId, now: Time)
    requires l.token in w.leases && w.leases[l.token] == l && CallAccepted(w.db, l, call, now) && JobInv(w, l.jobId)
    ensures JobInv(Recorded(w, l, call, now), l.jobId)
  {
  }

  lemma RecordCallEdited(w: World, l: Lease, call: CallId, now: Time)
    requires l.token in w.leases && w.leases[l.token] == l && CallAccepted(w.db, l, call, now)
    ensures EditedAt(w, Recorded(w, l, call, now), l.jobId)
  {
  }

  lemma RecordCallKeeps(w: World, l: Lease, call: CallId, now: Time)
    requires Consistent(w) && l.token in w.leases && w.leases[l.token] == l && CallAccepted(w.db, l, call, now)
    ensures Consistent(Recorded(w, l, call, now))
  {
    RecordCallOwn(w, l, call, now);
    RecordCallEdited(w, l, call, now);
    LocalEdit(w, Recorded(w, l, call, now), l.jobId);
  }

  lemma RecordCancelledOwn(w: World, id: JobId, call: CallId)
    requires id in w.db.jobs && JobInv(w, id)
    ensures JobInv(w.(db := RecordCancelledDb(w.db, id, call)), id)
    ensures EditedAt(w, w.(db := RecordCancelledDb(w.db, id, call)), id)
  {
  }

  lemma RecordCancelledKeeps(w: World, id: JobId, call: CallId)
    requires Consistent(w) && id in w.db.jobs
    ensures Consistent(w.(db := RecordCancelledDb(w.db, id, call)))
  {
    RecordCancelledOwn(w, id, call);
    LocalEdit(w, w.(db := RecordCancelledDb(w.db, id, call)), id);
  }

  function Taken(w: World, p: JobId, token: Token, attemptId: string, now: Time): World
    requires p in w.db.jobs
  {
    w.(db := TakePick(w.db, p, token, attemptId, now),
      leases := w.leases[token := ClaimLease(w.db, p, token, attemptId)])
  }

  lemma TakeOwn(w: World, p: JobId, token: Token, attemptId: string, tasks: set<string>, now: Time)
    requires token !in w.leases && p in w.db.jobs && Claimable(w.db.jobs[p], tasks, now) && JobInv(w, p)
    ensures JobInv(Taken(w, p, token, attemptId, now), p)
  {
  }

  lemma TakeEdited(w: World, p: JobId, token: Token, attemptId: string, now: Time)
    requires token !in w.leases && p in w.db.jobs
    ensures EditedAt(w, Taken(w, p, token, attemptId, now), p)
  {
  }

  lemma TakeKeeps(w: World, p: JobId, token: Token, attemptId: string, tasks: set<string>, now: Time)
    requires Consistent(w) && token !in w.leases && p in w.db.jobs && Claimable(w.db.jobs[p], tasks, now)
    ensures Consistent(Taken(w, p, token, attemptId, now))
  {
    TakeOwn(w, p, token, attemptId, tasks, now);
    TakeEdited(w, p, token, attemptId, now);
    LocalEdit(w, Taken(w, p, token, attemptId, now), p);
  }

  lemma ExhaustOne(w: World, tasks: set<string>, now: Time, j: JobId)
    requires j in w.db.jobs && JobInv(w, j)
    ensures JobInv(w.(db := ExhaustAll(w.db, tasks, now)), j)
  {
    var v := w.(db := ExhaustAll(w.db, tasks, now));
    var r := w.db.jobs[j];
    if Exhausted(r, tasks, now) {
      var closed := v.db.attempts[(j, r.attempts)];
      SettledOwn(w, j, v.db.jobs[j], closed, w.db.calls);
      AgreeKeeps(Settled(w, j, v.db.jobs[j], closed, w.db.calls), v, j);
    } else {
      AgreeKeeps(w, v, j);
    }
  }

  lemma ExhaustKeeps(w: World, tasks: set<string>, now: Time)
    requires Consistent(w)
    ensures Consistent(w.(db := ExhaustAll(w.db, tasks, now)))
  {
    forall j | j in w.db.jobs { ExhaustOne(w, tasks, now, j); }
  }

  lemma ClaimKeeps(w: World, s: Step)
    requires Consistent(w) && s.Claim? && Legal(w, s)
    ensures Consistent(Next(w, s))
  {
    var e := w.(db := ExhaustAll(w.db, s.tasks, s.now));
    ExhaustKeeps(w, s.tasks, s.now);
    if s.pick.Some? {
      TakeKeeps(e, s.pick.value, s.token, s.attemptId, s.tasks, s.now);
      assert Next(w, s) == Taken(e, s.pick.value, s.token, s.attemptId, s.now);
    } else {
      assert Next(w, s) == e;
    }
  }

  lemma NextOfAccepted(w: World, s: Step)
    requires Fenced(s) && Accepted(w, s) && w.leases[s.token].token == s.token
    ensures var l := w.leases[s.token];
      match s
      case RecordCall(_, call, now) => Next(w, s) == Recorded(w, l, call, now)
      case Succeed(_, output, now) => Next(w, s) == w.(db := SucceedDb(w.db, l, output, now)) && Holds(w, l, now)
      case Fail(_, code, now) => Next(w, s) == w.(db := FailDb(w.db, l, code, now)) && Holds(w, l, now)
      case Retry(_, code, delay, now) => Next(w, s) == w.(db := RetryDb(w.db, l, code, delay, now)) && Holds(w, l, now)
      case _ => false
  {
  }

  lemma NextOfRecordCancelled(w: World, s: Step)
    requires s.RecordCancelled? && s.token in w.leases
    ensures Next(w, s) == w.(db := RecordCancelledDb(w.db, w.leases[s.token].jobId, s.call))
  {
  }

  lemma AcceptedKeeps(w: World, s: Step)
    requires Consistent(w) && Fenced(s) && Accepted(w, s)
    ensures Consistent(Next(w, s))
  {
    var l := w.leases[s.token];
    NextOfAccepted(w, s);
    match s
    case RecordCall(_, call, now) => RecordCallKeeps(w, l, call, now);
    case Succeed(_, output, now) => SucceedKeeps(w, l, output, now);
    case Fail(_, code, now) => FailKeeps(w, l, code, now);
    case Retry(_, code, delay, now) => RetryKeeps(w, l, code, delay, now);
  }

  lemma WorkerStepKeeps(w: World, s: Step)
    requires Consistent(w) && (Fenced(s) || s.RecordCancelled?)
    ensures Consistent(Next(w, s))
  {
    if s.token !in w.leases || (Fenced(s) && !Accepted(w, s)) {
      RefusedIsInert(w, s);
    } else if s.RecordCancelled? {
      NextOfRecordCancelled(w, s);
      RecordCancelledKeeps(w, w.leases[s.token].jobId, s.call);
    } else {
      AcceptedKeeps(w, s);
    }
  }

  /** Whoever is not the current holder changes nothing: neither rows nor memories. */
  lemma RefusedIsInert(w: World, s: Step)
    requires Fenced(s) || s.RecordCancelled?
    requires forall t :: t in w.leases ==> w.leases[t].token == t
    requires s.token !in w.leases || (Fenced(s) && !Accepted(w, s))
    ensures Next(w, s) == w
  {
  }

  lemma StepKeepsConsistent(w: World, s: Step)
    requires Consistent(w) && Legal(w, s)
    ensures Consistent(Next(w, s))
  {
    match s
    case Enqueue(id, row) => EnqueueKeeps(w, id, row);
    case Claim(_, _, _, _, _, _) => ClaimKeeps(w, s);
    case OwnerCancel(id, now) => OwnerCancelKeeps(w, id, now);
    case Withdraw(id, now) => WithdrawKeeps(w, id, now);
    case _ => WorkerStepKeeps(w, s);
  }

  /** No step but an accepted success touches output rows or a job's output. */
  lemma OutputsUntouched(w: World, s: Step)
    requires !s.Succeed? || !Accepted(w, s)
    requires forall t :: t in w.leases ==> w.leases[t].token == t
    requires s.Enqueue? ==> s.row.output.None?
    ensures Next(w, s).db.materialized == w.db.materialized
    ensures forall j :: OutputOf(Next(w, s).db.jobs, j) == OutputOf(w.db.jobs, j)
  {
  }

  lemma StepKeepsMaterialized(w: World, s: Step)
    requires Inv(w) && Legal(w, s)
    ensures MaterializedInv(Next(w, s).db)
  {
    if s.Succeed? && Accepted(w, s) {
      NextOfAccepted(w, s);
      SucceedMaterializes(w, w.leases[s.token], s.output, s.now);
    } else {
      OutputsUntouched(w, s);
    }
  }

  lemma SucceedMaterializes(w: World, l: Lease, output: Output, now: Time)
    requires Holds(w, l, now) && output.materializable && RowInv(w.db.jobs[l.jobId]) && MaterializedInv(w.db)
    ensures MaterializedInv(SucceedDb(w.db, l, output, now))
  {
    forall j { RowsOfAppend(w.db.materialized, l.jobId, output.rows, j); }
  }

  /** Every legal step of every participant keeps the invariant. */
  lemma StepKeepsInv(w: World, s: Step)
    requires Inv(w) && Legal(w, s)
    ensures Inv(Next(w, s))
  {
    StepKeepsConsistent(w, s);
    StepKeepsMaterialized(w, s);
  }
}
