/** What each transaction does to the columns of a row, over runs: how long a lease lasts, which
    job a claim takes, when a retried job comes back, and what a finished one leaves behind. */
module QueueLaws {
  import opened Common
  import opened QueueRows
  import opened QueueProtocol
  import opened QueueTheorems

  // ---------------------------------------------------------------- the lease of a claim

  /** A step that neither belongs to the holder's completion nor to the job's owner, and is no
      claim made after the lease ended. */
  predicate Quiet(s: Step, p: JobId, token: Token, until: Time) {
    match s
    case Claim(_, now, _, _, _, _) => now < until
    case Succeed(t, _, _) => t != token
    case Fail(t, _, _) => t != token
    case Retry(t, _, _, _) => t != token
    case OwnerCancel(id, _) => id != p
    case Withdraw(id, _) => id != p
    case _ => true
  }

  /** Each lease is filed under its own token. */
  ghost predicate Filed(w: World) { forall t :: t in w.leases ==> w.leases[t].token == t }

  lemma StepFiles(w: World, s: Step)
    requires Filed(w)
    ensures Filed(Next(w, s))
  {
  }

  lemma {:induction false} RunFiles(w: World, steps: seq<Step>)
    requires Filed(w)
    ensures Filed(Run(w, steps))
    decreases |steps|
  {
    if steps != [] {
      RunFiles(w, steps[..|steps| - 1]);
      StepFiles(Run(w, steps[..|steps| - 1]), steps[|steps| - 1]);
    }
  }

  lemma RowOfInv(w: World, j: JobId)
    requires Inv(w) && j in w.db.jobs
    ensures RowInv(w.db.jobs[j])
  {
    assert JobInv(w, j);
  }

  /** Two rows that differ at most in the provider call. */
  predicate SameButCall(r: JobRow, r': JobRow) { r'.(providerCallId := None) == r.(providerCallId := None) }

  /** A row under this lease. */
  predicate Leased(r: JobRow, token: Token, until: Time) {
    r.status.Running? && r.leaseToken == Some(token) && r.leaseExpiresAt == Some(until)
  }

  lemma QuietClaim(v: World, s: Step, p: JobId, token: Token, until: Time)
    requires s.Claim? && Legal(v, s) && p in v.db.jobs && Leased(v.db.jobs[p], token, until) && s.now < until
    ensures p in Next(v, s).db.jobs && Next(v, s).db.jobs[p] == v.db.jobs[p]
  {
    assert ExhaustAll(v.db, s.tasks, s.now).jobs[p] == v.db.jobs[p];
  }

  lemma QuietWorker(v: World, s: Step, p: JobId, token: Token, until: Time)
    requires Fenced(s) && Filed(v) && p in v.db.jobs && Leased(v.db.jobs[p], token, until) && Quiet(s, p, token, until)
    ensures p in Next(v, s).db.jobs && SameButCall(v.db.jobs[p], Next(v, s).db.jobs[p])
  {
    if s.token !in v.leases || !Accepted(v, s) {
      RefusedIsInert(v, s);
    } else {
      NextOfAccepted(v, s);
    }
  }

  lemma QuietKeepsLease(v: World, s: Step, p: JobId, token: Token, until: Time)
    requires Filed(v) && Legal(v, s) && p in v.db.jobs && Leased(v.db.jobs[p], token, until)
    requires Quiet(s, p, token, until)
    ensures p in Next(v, s).db.jobs && SameButCall(v.db.jobs[p], Next(v, s).db.jobs[p])
  {
    if s.Claim? {
      QuietClaim(v, s, p, token, until);
    } else if Fenced(s) {
      QuietWorker(v, s, p, token, until);
    }
  }

  lemma ClaimSetsRow(w: World, s: Step)
    requires s.Claim? && s.pick.Some? && Legal(w, s)
    ensures s.pick.value in w.db.jobs && s.pick.value in Next(w, s).db.jobs
    ensures Next(w, s).db.jobs[s.pick.value] == ClaimedRow(w.db.jobs[s.pick.value], s.token, s.now)
  {
    assert ExhaustAll(w.db, s.tasks, s.now).jobs[s.pick.value] == w.db.jobs[s.pick.value];
  }

  /** A claimed row column by column: running, one attempt more, no error and no end, the lease
      of the job's own timeout; everything else as it was. */
  function ClaimedRow(r: JobRow, token: Token, now: Time): JobRow {
    JobRow(r.kind, r.provider, Running, r.attempts + 1, r.maxAttempts, r.timeoutSeconds, r.createdAt, r.availableAt,
      Some(token), Some(now + r.timeoutSeconds as real), r.providerCallId, None, r.output, None)
  }

  /** The row r as claimed at `now` under the token: the holder is current at t exactly when t
      comes before the claim's time plus the job's timeout, and only from then on can the job be
      claimed again, if it has an attempt left. */
  ghost predicate Protected(jobs: Jobs, p: JobId, r: JobRow, token: Token, now: Time) {
    && p in jobs && SameButCall(ClaimedRow(r, token, now), jobs[p])
    && (forall t :: Current(jobs, p, token, t) <==> t < now + r.timeoutSeconds as real)
    && (forall t, tasks :: Claimable(jobs[p], tasks, t) <==>
          && r.kind in tasks && !r.provider.Fixture? && r.attempts + 1 < r.maxAttempts
          && now + r.timeoutSeconds as real <= t)
  }

  lemma ClaimedIsProtected(r: JobRow, token: Token, now: Time, jobs: Jobs, p: JobId)
    requires p in jobs && SameButCall(ClaimedRow(r, token, now), jobs[p])
    ensures Protected(jobs, p, r, token, now)
  {
    var c, q := ClaimedRow(r, token, now), jobs[p];
    assert q == c.(providerCallId := q.providerCallId);
  }

  /** The row a claim takes, as it was before. */
  function RowBefore(steps: seq<Step>, k: nat): Option<JobRow>
    requires k < |steps| && steps[k].Claim?
  {
    var jobs := Run(EMPTY, steps[..k]).db.jobs;
    if steps[k].pick.Some? && steps[k].pick.value in jobs then Some(jobs[steps[k].pick.value]) else None
  }

  /** Since the claim at k nobody completed the job for the holder, its owner did not cancel it,
      and no claim was made after the lease ended. */
  predicate QuietSince(steps: seq<Step>, k: nat)
    requires k < |steps| && steps[k].Claim? && RowBefore(steps, k).Some?
  {
    forall i :: k < i < |steps| ==>
      Quiet(steps[i], steps[k].pick.value, steps[k].token,
        steps[k].now + RowBefore(steps, k).value.timeoutSeconds as real)
  }

  ghost predicate ProtectedAfter(w: World, claim: Step, r: JobRow)
    requires claim.Claim? && claim.pick.Some?
  {
    Protected(w.db.jobs, claim.pick.value, r, claim.token, claim.now)
  }

  lemma ClaimProtects(w: World, s: Step)
    requires s.Claim? && s.pick.Some? && Legal(w, s)
    ensures s.pick.value in w.db.jobs && ProtectedAfter(Next(w, s), s, w.db.jobs[s.pick.value])
  {
    ClaimSetsRow(w, s);
    ClaimedIsProtected(w.db.jobs[s.pick.value], s.token, s.now, Next(w, s).db.jobs, s.pick.value);
  }

  lemma QuietProtects(v: World, s: Step, claim: Step, r: JobRow)
    requires Filed(v) && Legal(v, s) && claim.Claim? && claim.pick.Some? && ProtectedAfter(v, claim, r)
    requires Quiet(s, claim.pick.value, claim.token, claim.now + r.timeoutSeconds as real)
    ensures ProtectedAfter(Next(v, s), claim, r)
  {
    QuietKeepsLease(v, s, claim.pick.value, claim.token, claim.now + r.timeoutSeconds as real);
    ClaimedIsProtected(r, claim.token, claim.now, Next(v, s).db.jobs, claim.pick.value);
  }

  /** How long a claim protects its job, in every legal run: while its holder has not completed it
      and its owner has not cancelled it, and however other workers act meanwhile, the lease lasts
      exactly the job's timeout. */
  lemma {:induction false} LeaseLasts(steps: seq<Step>, k: nat)
    requires LegalRun(EMPTY, steps) && k < |steps| && steps[k].Claim? && RowBefore(steps, k).Some?
    requires QuietSince(steps, k)
    ensures ProtectedAfter(Run(EMPTY, steps), steps[k], RowBefore(steps, k).value)
    decreases |steps|
  {
    var init, s := steps[..|steps| - 1], steps[|steps| - 1];
    if k == |init| {
      ClaimProtects(Run(EMPTY, init), s);
    } else {
      assert init[..k] == steps[..k] && init[k] == steps[k];
      LeaseLasts(init, k);
      RunFiles(EMPTY, init);
      QuietProtects(Run(EMPTY, init), s, steps[k], RowBefore(steps, k).value);
    }
  }

  // ---------------------------------------------------------------- which job a claim takes

  /** Every row is well formed, as in every reachable state. */
  ghost predicate Rows(w: World) { forall j :: j in w.db.jobs ==> RowInv(w.db.jobs[j]) }

  lemma InvRows(w: World)
    requires Inv(w)
    ensures Rows(w)
  {
    forall j | j in w.db.jobs ensures RowInv(w.db.jobs[j]) { RowOfInv(w, j); }
  }

  /** The claim takes the first job in line: an expired lease before any queued job, and among
      jobs of one status none that is due earlier, or equally due and older. */
  lemma PickIsFirst(w: World, s: Step, j: JobId)
    requires Rows(w) && s.Claim? && Legal(w, s) && s.pick.Some?
    requires j in w.db.jobs && j !in s.locked && Claimable(w.db.jobs[j], s.tasks, s.now)
    ensures s.pick.value in w.db.jobs && s.pick.value !in s.locked
    ensures var a, b := w.db.jobs[s.pick.value], w.db.jobs[j];
      && (a.status.Queued? ==> b.status.Queued?)
      && (a.status.Queued? && b.status.Queued? ==>
            a.availableAt < b.availableAt || (a.availableAt == b.availableAt && a.createdAt <= b.createdAt))
      && (a.status.Running? && b.status.Running? ==>
            && a.leaseExpiresAt.Some? && b.leaseExpiresAt.Some?
            && (a.leaseExpiresAt.value < b.leaseExpiresAt.value
                || (a.leaseExpiresAt == b.leaseExpiresAt && a.createdAt <= b.createdAt)))
  {
    var e := ExhaustAll(w.db, s.tasks, s.now);
    assert e.jobs[j] == w.db.jobs[j] && e.jobs[s.pick.value] == w.db.jobs[s.pick.value];
  }

  /** What a claim takes is due: of a served kind, not a fixture, with an attempt left, and
      either queued until now or under a lease that has ended. */
  lemma PickIsDue(w: World, s: Step)
    requires s.Claim? && Legal(w, s) && s.pick.Some?
    ensures s.pick.value in w.db.jobs
    ensures var r := w.db.jobs[s.pick.value];
      && r.kind in s.tasks && !r.provider.Fixture? && r.attempts < r.maxAttempts
      && ((r.status.Queued? && r.availableAt <= s.now)
          || (r.status.Running? && r.leaseExpiresAt.Some? && r.leaseExpiresAt.value <= s.now))
  {
    assert ExhaustAll(w.db, s.tasks, s.now).jobs[s.pick.value] == w.db.jobs[s.pick.value];
  }

  /** A claim fails exactly the other jobs whose last permitted lease has ended, and leaves every
      further row alone. */
  lemma ClaimExhausts(w: World, s: Step, j: JobId)
    requires Rows(w) && s.Claim? && Legal(w, s) && j in w.db.jobs && s.pick != Some(j)
    ensures var r := w.db.jobs[j];
      var ended := r.kind in s.tasks && !r.provider.Fixture? && r.status.Running? && r.leaseExpiresAt.value <= s.now
        && r.attempts == r.maxAttempts;
      Next(w, s).db.jobs[j] == if !ended then r else
        r.(status := Failed, lastErrorCode := Some("worker-crash-exhausted"), finishedAt := Some(s.now),
           leaseToken := None, leaseExpiresAt := None)
  {
  }

  // ---------------------------------------------------------------- how a job leaves its lease

  /** A row that has ended: who looks at it finds no lease, the time and the error. */
  function EndedRow(r: JobRow, status: Status, code: Option<string>, now: Time, output: Option<Output>): JobRow {
    JobRow(r.kind, r.provider, status, r.attempts, r.maxAttempts, r.timeoutSeconds, r.createdAt, r.availableAt,
      None, None, r.providerCallId, code, output, Some(now))
  }

  /** A row that waits for another attempt. */
  function WaitingRow(r: JobRow, code: string, from: Time, call: Option<CallId>): JobRow {
    JobRow(r.kind, r.provider, Queued, r.attempts, r.maxAttempts, r.timeoutSeconds, r.createdAt, from,
      None, None, call, Some(code), r.output, None)
  }

  /** An accepted completion, column by column. A retry waits for its delay if an attempt is left
      and fails the job otherwise; it gives up the provider call unless that is to be recovered. */
  lemma CompletionRow(w: World, s: Step)
    requires Filed(w) && (s.Succeed? || s.Fail? || s.Retry?) && Accepted(w, s)
    ensures w.leases[s.token].jobId in w.db.jobs && w.leases[s.token].jobId in Next(w, s).db.jobs
    ensures var r, r' := w.db.jobs[w.leases[s.token].jobId], Next(w, s).db.jobs[w.leases[s.token].jobId];
      match s
      case Succeed(_, output, now) => r' == EndedRow(r, Succeeded, None, now, Some(output))
      case Fail(_, code, now) => r' == EndedRow(r, Failed, Some(code), now, r.output)
      case Retry(_, code, delay, now) =>
        var call := if code == "provider-recovery-pending" then r.providerCallId else None;
        if r.attempts < r.maxAttempts
        then r' == WaitingRow(r, code, now + delay, call)
        else r' == EndedRow(r, Failed, Some(code), now, r.output)
      case _ => true
  {
    NextOfAccepted(w, s);
  }

  /** Nobody else's row moves, whoever completes. */
  lemma CompletionFrame(w: World, s: Step, i: JobId)
    requires Filed(w) && (s.Succeed? || s.Fail? || s.Retry?) && Accepted(w, s) && i != w.leases[s.token].jobId
    ensures i in w.db.jobs <==> i in Next(w, s).db.jobs
    ensures i in w.db.jobs ==> Next(w, s).db.jobs[i] == w.db.jobs[i]
  {
    NextOfAccepted(w, s);
  }

  /** The owner and a withdrawal of consent end a job that has not ended, each with its own code. */
  lemma CancellationRow(w: World, s: Step)
    requires s.OwnerCancel? || s.Withdraw?
    ensures Next(w, s).db.jobs == if s.id !in w.db.jobs || Terminal(w.db.jobs[s.id].status) then w.db.jobs else
      w.db.jobs[s.id := EndedRow(w.db.jobs[s.id], Cancelled,
        Some(if s.OwnerCancel? then "owner-cancelled" else "consent-withdrawn"), s.now, w.db.jobs[s.id].output)]
  {
  }

  // ---------------------------------------------------------------- when a retried job comes back

  /** A step that is neither a claim made too early to matter nor a cancellation of the job. */
  predicate Early(s: Step, p: JobId, from: Time) {
    match s
    case Claim(_, now, _, _, _, _) => now < from
    case OwnerCancel(id, _) => id != p
    case Withdraw(id, _) => id != p
    case _ => true
  }

  predicate WaitsUntil(r: JobRow, from: Time) { r.status.Queued? && r.leaseToken.None? && r.availableAt == from }

  lemma EarlyClaim(v: World, s: Step, p: JobId, from: Time)
    requires s.Claim? && Legal(v, s) && p in v.db.jobs && WaitsUntil(v.db.jobs[p], from) && s.now < from
    ensures p in Next(v, s).db.jobs && Next(v, s).db.jobs[p] == v.db.jobs[p]
  {
    assert ExhaustAll(v.db, s.tasks, s.now).jobs[p] == v.db.jobs[p];
  }

  lemma EarlyWorker(v: World, s: Step, p: JobId, from: Time)
    requires Fenced(s) && Filed(v) && p in v.db.jobs && WaitsUntil(v.db.jobs[p], from)
    ensures p in Next(v, s).db.jobs && Next(v, s).db.jobs[p] == v.db.jobs[p]
  {
    if s.token !in v.leases || !Accepted(v, s) {
      RefusedIsInert(v, s);
    } else {
      NextOfAccepted(v, s);
    }
  }

  lemma EarlyKeepsWaiting(v: World, s: Step, p: JobId, from: Time)
    requires Filed(v) && Legal(v, s) && p in v.db.jobs && WaitsUntil(v.db.jobs[p], from) && Early(s, p, from)
    ensures p in Next(v, s).db.jobs && Next(v, s).db.jobs[p] == v.db.jobs[p]
  {
    if s.Claim? {
      EarlyClaim(v, s, p, from);
    } else if Fenced(s) {
      EarlyWorker(v, s, p, from);
    }
  }

  /** The job whose retry the step at k had accepted, with an attempt left. */
  ghost predicate RetriedAt(steps: seq<Step>, k: nat, p: JobId) {
    && k < |steps| && steps[k].Retry?
    && var w := Run(EMPTY, steps[..k]);
       && Accepted(w, steps[k]) && w.leases[steps[k].token].jobId == p
       && p in w.db.jobs && w.db.jobs[p].attempts < w.db.jobs[p].maxAttempts
  }

  ghost predicate ComesBackAt(w: World, p: JobId, from: Time) {
    && p in w.db.jobs && WaitsUntil(w.db.jobs[p], from)
    && forall t, tasks :: Claimable(w.db.jobs[p], tasks, t) <==>
         w.db.jobs[p].kind in tasks && !w.db.jobs[p].provider.Fixture? && from <= t
  }

  lemma RetryWaitsAtFirst(w: World, s: Step)
    requires Filed(w) && s.Retry? && Accepted(w, s)
    ensures var p := w.leases[s.token].jobId;
      && p in w.db.jobs
      && (w.db.jobs[p].attempts < w.db.jobs[p].maxAttempts ==> ComesBackAt(Next(w, s), p, s.now + s.delay))
  {
    CompletionRow(w, s);
  }

  lemma StaysBack(v: World, s: Step, p: JobId, from: Time)
    requires Filed(v) && Legal(v, s) && ComesBackAt(v, p, from) && Early(s, p, from)
    ensures ComesBackAt(Next(v, s), p, from)
  {
    EarlyKeepsWaiting(v, s, p, from);
  }

  /** In every legal run a retried job comes back exactly its delay after the retry: until a claim
      is made at that time or later, or the job is cancelled, it stays queued with all its
      columns, and it is due at t exactly when t is not before that time. */
  lemma {:induction false} RetryWaits(steps: seq<Step>, k: nat, p: JobId)
    requires LegalRun(EMPTY, steps) && RetriedAt(steps, k, p)
    requires forall i :: k < i < |steps| ==> Early(steps[i], p, steps[k].now + steps[k].delay)
    ensures ComesBackAt(Run(EMPTY, steps), p, steps[k].now + steps[k].delay)
    decreases |steps|
  {
    var init, s := steps[..|steps| - 1], steps[|steps| - 1];
    RunFiles(EMPTY, init);
    if k == |init| {
      RetryWaitsAtFirst(Run(EMPTY, init), s);
    } else {
      assert init[..k] == steps[..k] && init[k] == steps[k];
      RetryWaits(init, k, p);
      StaysBack(Run(EMPTY, init), s, p, steps[k].now + steps[k].delay);
    }
  }

  // ---------------------------------------------------------------- what is left of calls and attempts

  /** What a completion makes of the status of a call of its job. */
  function CallStatusAfter(s: Step, c: CallId, status: CallStatus): CallStatus {
    match s
    case Succeed(_, output, _) => if output.evidence == Some(c) then CallSucceeded else status
    case Fail(_, _, _) => if status.Submitted? then CallFailed else status
    case Retry(_, code, _, _) =>
      if code != "provider-recovery-pending" && status.Submitted? then CallFailed else status
    case _ => status
  }

  /** The calls of one job take the given statuses, and nothing else of them changes. */
  ghost predicate CallsBecome(before: Calls, after: Calls, j: JobId, s: Step) {
    && after.Keys == before.Keys
    && forall c :: c in before ==>
         after[c] == if before[c].jobId == j
                     then before[c].(status := CallStatusAfter(s, c, before[c].status)) else before[c]
  }

  /** A submitted call of the job is the one its holder remembers. */
  ghost predicate Remembered(calls: Calls, l: Lease) {
    forall c :: c in calls && calls[c].jobId == l.jobId && calls[c].status.Submitted? ==> l.providerCallId == Some(c)
  }

  lemma HolderRemembers(w: World, s: Step)
    requires Inv(w) && Fenced(s) && Accepted(w, s)
    ensures Remembered(w.db.calls, w.leases[s.token])
  {
    assert JobInv(w, w.leases[s.token].jobId);
  }

  lemma SettledCalls(w: World, s: Step)
    requires Filed(w) && (s.Succeed? || s.Fail? || s.Retry?) && Accepted(w, s)
    requires Remembered(w.db.calls, w.leases[s.token])
    ensures CallsBecome(w.db.calls, Next(w, s).db.calls, w.leases[s.token].jobId, s)
  {
    NextOfAccepted(w, s);
  }

  /** After a failure, or a retry without recovery, no call of the job is submitted; a recovery
      keeps every call; a success settles the call it names and no other. */
  lemma CallsAfter(w: World, s: Step)
    requires Inv(w) && (s.Succeed? || s.Fail? || s.Retry?) && Accepted(w, s)
    ensures CallsBecome(w.db.calls, Next(w, s).db.calls, w.leases[s.token].jobId, s)
  {
    HolderRemembers(w, s);
    SettledCalls(w, s);
  }

  /** The job a call belongs to, which names the call while it is submitted. */
  ghost predicate Named(w: World, c: CallId)
    requires c in w.db.calls
  {
    && w.db.calls[c].jobId in w.db.jobs
    && (w.db.calls[c].status.Submitted? ==> w.db.jobs[w.db.calls[c].jobId].providerCallId == Some(c))
  }

  lemma InvNames(w: World, c: CallId)
    requires Inv(w) && c in w.db.calls
    ensures Named(w, c)
  {
    assert JobInv(w, w.db.calls[c].jobId);
  }

  /** What a cancellation makes of a call: the owner's asks for the cancellation of the submitted
      call of a job that has not ended; a withdrawal of consent leaves every call alone. */
  function CancelledCall(w: World, s: Step, r: CallRow): CallRow
    requires s.OwnerCancel? || s.Withdraw?
  {
    if s.OwnerCancel? && r.jobId == s.id && r.status.Submitted?
      && s.id in w.db.jobs && !Terminal(w.db.jobs[s.id].status)
    then r.(status := CancellationRequested) else r
  }

  lemma CancellationCalls(w: World, s: Step, c: CallId)
    requires (s.OwnerCancel? || s.Withdraw?) && c in w.db.calls && Named(w, c)
    ensures c in Next(w, s).db.calls && Next(w, s).db.calls[c] == CancelledCall(w, s, w.db.calls[c])
    ensures s.Withdraw? ==> Next(w, s).db.attempts == w.db.attempts
  {
  }

  /** The attempt row that a completion closes, with its outcome, its error and its time; every
      other attempt row stays. */
  lemma AttemptAfter(w: World, s: Step)
    requires Inv(w) && (s.Succeed? || s.Fail? || s.Retry?) && Accepted(w, s)
    ensures var k := (w.leases[s.token].jobId, w.leases[s.token].attempt);
      && k in w.db.attempts && w.db.attempts[k].outcome.Open?
      && Next(w, s).db.attempts == w.db.attempts[k := EndedAttempt(w, s, w.db.attempts[k])]
  {
    var l := w.leases[s.token];
    NextOfAccepted(w, s);
    HolderIsNewest(w, l, s.now);
    CloseOwnEffect(w, l, AttemptFailed, None, s.now);
  }

  lemma HolderIsNewest(w: World, l: Lease, now: Time)
    requires Inv(w) && Holds(w, l, now)
    ensures l.jobId in w.db.jobs && JobInv(w, l.jobId)
  {
  }

  function EndedAttempt(w: World, s: Step, a: AttemptRow): AttemptRow
    requires (s.Succeed? || s.Fail? || s.Retry?) && Accepted(w, s)
  {
    var r := w.db.jobs[w.leases[s.token].jobId];
    match s
    case Succeed(_, _, now) => AttemptRow(a.attemptId, AttemptSucceeded, None, Some(now))
    case Fail(_, code, now) => AttemptRow(a.attemptId, AttemptFailed, Some(code), Some(now))
    case Retry(_, code, _, now) =>
      AttemptRow(a.attemptId, if r.attempts < r.maxAttempts then RetryScheduled else AttemptFailed, Some(code),
        Some(now))
  }

  /** A running job has its newest attempt row open. */
  ghost predicate NewestOpen(w: World, p: JobId)
    requires p in w.db.jobs
  {
    w.db.jobs[p].status.Running? ==>
      (p, w.db.jobs[p].attempts) in w.db.attempts && w.db.attempts[(p, w.db.jobs[p].attempts)].outcome.Open?
  }

  lemma InvOpens(w: World, p: JobId)
    requires Inv(w) && p in w.db.jobs
    ensures NewestOpen(w, p)
  {
    assert JobInv(w, p);
  }

  /** A claim opens the next attempt row under its id and marks the one that a lost lease left
      open as expired. */
  lemma ClaimOpensAttempt(w: World, s: Step)
    requires s.Claim? && Legal(w, s) && s.pick.Some? && s.pick.value in w.db.jobs && NewestOpen(w, s.pick.value)
    ensures var p := s.pick.value; var n := w.db.jobs[p].attempts; var after := Next(w, s).db.attempts;
      && (p, n + 1) in after && after[(p, n + 1)] == AttemptRow(s.attemptId, Open, None, None)
      && (w.db.jobs[p].status.Running? ==>
            && (p, n) in w.db.attempts && (p, n) in after
            && after[(p, n)]
               == AttemptRow(w.db.attempts[(p, n)].attemptId, Expired, Some("attempt-lease-expired"), Some(s.now)))
  {
    var p, e := s.pick.value, ExhaustAll(w.db, s.tasks, s.now);
    assert e.jobs[p] == w.db.jobs[p];
    if w.db.jobs[p].status.Running? { assert e.attempts[(p, w.db.jobs[p].attempts)].outcome.Open?; }
  }

  /** The owner's cancellation of a running job closes its open attempt; of any other job it
      touches no attempt row. */
  lemma CancellationClosesAttempt(w: World, s: Step)
    requires s.OwnerCancel? && s.id in w.db.jobs && NewestOpen(w, s.id)
    ensures var k := (s.id, w.db.jobs[s.id].attempts);
      Next(w, s).db.attempts == if !w.db.jobs[s.id].status.Running? then w.db.attempts else
        w.db.attempts[
          k := AttemptRow(w.db.attempts[k].attemptId, AttemptCancelled, Some("owner-cancelled"), Some(s.now))]
  {
  }

  /** A job that fails as exhausted has its newest attempt row closed as failed. */
  lemma ExhaustionClosesAttempt(w: World, s: Step, j: JobId)
    requires s.Claim? && Legal(w, s) && j in w.db.jobs && Exhausted(w.db.jobs[j], s.tasks, s.now) && NewestOpen(w, j)
    ensures var k := (j, w.db.jobs[j].attempts);
      && k in Next(w, s).db.attempts
      && Next(w, s).db.attempts[k]
         == AttemptRow(w.db.attempts[k].attemptId, AttemptFailed, Some("worker-crash-exhausted"), Some(s.now))
  {
    var e := ExhaustAll(w.db, s.tasks, s.now);
    assert e.jobs[j].status.Failed?;
  }

  /** An accepted call is stored as submitted under the job and the attempt of its holder, and
      named by the job's row and by the holder's memory; nothing else changes. */
  lemma CallIsRecorded(w: World, s: Step)
    requires Filed(w) && s.RecordCall? && Accepted(w, s)
    ensures var l := w.leases[s.token];
      && l.jobId in w.db.jobs
      && Next(w, s).db.jobs == w.db.jobs[l.jobId := w.db.jobs[l.jobId].(providerCallId := Some(s.call))]
      && Next(w, s).db.calls == w.db.calls[s.call := CallRow(l.jobId, l.attempt, Submitted)]
      && Next(w, s).db.attempts == w.db.attempts && Next(w, s).db.materialized == w.db.materialized
      && Next(w, s).leases == w.leases[s.token := Lease(l.jobId, l.token, l.attempt, l.attemptId, Some(s.call))]
  {
    NextOfAccepted(w, s);
  }

  /** A reported cancellation settles that call of the worker's job, and nothing else. */
  lemma CancellationIsRecorded(w: World, s: Step)
    requires s.RecordCancelled? && s.token in w.leases
    ensures Next(w, s).db == w.db.(calls := Next(w, s).db.calls)
    ensures Next(w, s).db.calls ==
      if s.call in w.db.calls && w.db.calls[s.call].jobId == w.leases[s.token].jobId
      then w.db.calls[s.call := w.db.calls[s.call].(status := CallCancelled)] else w.db.calls
  {
    NextOfRecordCancelled(w, s);
  }

  // ---------------------------------------------------------------- in every reachable state

  /** Everything the laws above ask of a state. */
  ghost predicate Orderly(w: World) {
    && Filed(w) && Rows(w) && (forall c :: c in w.db.calls ==> Named(w, c))
    && forall p :: p in w.db.jobs ==> NewestOpen(w, p)
  }

  lemma InvIsOrderly(w: World)
    requires Inv(w) && Filed(w)
    ensures Orderly(w)
  {
    InvRows(w);
    forall c | c in w.db.calls ensures Named(w, c) { InvNames(w, c); }
    forall p | p in w.db.jobs ensures NewestOpen(w, p) { InvOpens(w, p); }
  }

  /** So they hold of every step of every legal run. */
  lemma ReachableIsOrderly(steps: seq<Step>)
    requires LegalRun(EMPTY, steps)
    ensures Orderly(Run(EMPTY, steps))
  {
    ReachableInv(steps);
    RunFiles(EMPTY, steps);
    InvIsOrderly(Run(EMPTY, steps));
  }
}
