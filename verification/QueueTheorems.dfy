/** What holds over whole runs of the queue, for every interleaving and every clock. */
module QueueTheorems {
  import opened Common
  import opened QueueRows
  import opened QueueProtocol

  /** Every reachable state satisfies the queue invariant. */
  lemma {:induction false} ReachableInv(steps: seq<Step>)
    requires LegalRun(EMPTY, steps)
    ensures Inv(Run(EMPTY, steps))
  {
    if steps != [] {
      ReachableInv(steps[..|steps| - 1]);
      StepKeepsInv(Run(EMPTY, steps[..|steps| - 1]), steps[|steps| - 1]);
    }
  }

  // ---------------------------------------------------------------- lifecycle refinement

  /** The abstract life of one job: stay, be claimed under a token never issued before, record
      a provider call, or leave the running (or queued) state without a lease. */
  ghost predicate Lifecycle(issued: set<Token>, r: JobRow, r': JobRow) {
    || r' == r
    || (&& (r.status.Queued? || r.status.Running?) && r.attempts < r.maxAttempts
        && r'.status.Running? && r'.attempts == r.attempts + 1 && r'.maxAttempts == r.maxAttempts
        && r'.leaseToken.Some? && r'.leaseToken.value !in issued
        && r'.providerCallId == r.providerCallId && r'.output == r.output)
    || (r.status.Running? && r.providerCallId.None? && r' == r.(providerCallId := r'.providerCallId))
    || (&& (r.status.Running? || (r.status.Queued? && r'.status.Cancelled?))
        && !r'.status.Running? && r'.leaseToken.None? && r'.attempts == r.attempts && r'.maxAttempts == r.maxAttempts
        && (r'.output == r.output || r'.status.Succeeded?)
        && (r'.providerCallId == r.providerCallId || r'.status.Queued?))
  }

  lemma ClaimRefinesLifecycle(w: World, s: Step, j: JobId)
    requires s.Claim? && Legal(w, s) && j in w.db.jobs
    ensures j in Next(w, s).db.jobs && Lifecycle(w.leases.Keys, w.db.jobs[j], Next(w, s).db.jobs[j])
  {
    var e := ExhaustAll(w.db, s.tasks, s.now);
    if s.pick == Some(j) {
      assert e.jobs[j] == w.db.jobs[j];
      assert Next(w, s).db.jobs[j] == ClaimRow(w.db.jobs[j], s.token, s.now);
    } else {
      assert Next(w, s).db.jobs[j] == e.jobs[j];
    }
  }

  lemma EnvironmentRefinesLifecycle(w: World, s: Step, j: JobId)
    requires (s.Enqueue? || s.OwnerCancel? || s.Withdraw? || s.RecordCancelled?) && j in w.db.jobs
    ensures j in Next(w, s).db.jobs && Lifecycle(w.leases.Keys, w.db.jobs[j], Next(w, s).db.jobs[j])
  {
  }

  /** Memories are never erased nor moved to another job. */
  lemma LeasesPersist(w: World, s: Step)
    requires s.Claim? ==> s.token !in w.leases
    ensures w.leases.Keys <= Next(w, s).leases.Keys
    ensures forall t :: t in w.leases ==> Next(w, s).leases[t].jobId == w.leases[t].jobId
  {
  }

  lemma FencedRefinesLifecycle(w: World, s: Step, j: JobId)
    requires Fenced(s) && j in w.db.jobs && forall t :: t in w.leases ==> w.leases[t].token == t
    ensures j in Next(w, s).db.jobs && Lifecycle(w.leases.Keys, w.db.jobs[j], Next(w, s).db.jobs[j])
  {
    if s.token !in w.leases || !Accepted(w, s) {
      RefusedIsInert(w, s);
    } else {
      NextOfAccepted(w, s);
    }
  }

  /** Every step of the concrete queue is a step of every job's abstract life. */
  lemma StepRefinesLifecycle(w: World, s: Step, j: JobId)
    requires RefsInv(w) && Legal(w, s) && j in w.db.jobs
    ensures j in Next(w, s).db.jobs && Lifecycle(w.leases.Keys, w.db.jobs[j], Next(w, s).db.jobs[j])
  {
    if s.Claim? { ClaimRefinesLifecycle(w, s, j); }
    else if Fenced(s) { FencedRefinesLifecycle(w, s, j); }
    else { EnvironmentRefinesLifecycle(w, s, j); }
  }

  /** A finished job never changes again, whatever late workers do. */
  lemma {:induction false} FinishedForever(w: World, steps: seq<Step>, j: JobId)
    requires Inv(w) && LegalRun(w, steps) && j in w.db.jobs && Terminal(w.db.jobs[j].status)
    ensures var v := Run(w, steps); Inv(v) && j in v.db.jobs && v.db.jobs[j] == w.db.jobs[j]
    ensures RowsOf(Run(w, steps).db.materialized, j) == RowsOf(w.db.materialized, j)
  {
    if steps != [] {
      var init := steps[..|steps| - 1];
      FinishedForever(w, init, j);
      StepKeepsInv(Run(w, init), steps[|steps| - 1]);
      StepRefinesLifecycle(Run(w, init), steps[|steps| - 1], j);
    }
  }

  /** A worker that lost its lease never regains it: after any continuation every completion,
      retry or provider-call report under that token is refused and changes nothing. */
  lemma {:induction false} FencedForever(w: World, steps: seq<Step>, t: Token)
    requires Inv(w) && LegalRun(w, steps) && t in w.leases && w.db.jobs[w.leases[t].jobId].leaseToken != Some(t)
    ensures var v := Run(w, steps);
      && Inv(v) && t in v.leases && v.leases[t].jobId == w.leases[t].jobId
      && v.db.jobs[v.leases[t].jobId].leaseToken != Some(t)
      && forall s: Step :: Fenced(s) && s.token == t ==> !Accepted(v, s) && Next(v, s) == v
  {
    if steps != [] {
      var init := steps[..|steps| - 1];
      FencedForever(w, init, t);
      StepKeepsInv(Run(w, init), steps[|steps| - 1]);
      StepRefinesLifecycle(Run(w, init), steps[|steps| - 1], w.leases[t].jobId);
      LeasesPersist(Run(w, init), steps[|steps| - 1]);
    }
    LostLeaseRefused(Run(w, steps), t);
  }

  lemma LostLeaseRefused(w: World, t: Token)
    requires Inv(w) && t in w.leases && w.db.jobs[w.leases[t].jobId].leaseToken != Some(t)
    ensures forall s: Step :: Fenced(s) && s.token == t ==> !Accepted(w, s) && Next(w, s) == w
  {
    forall s: Step | Fenced(s) && s.token == t ensures !Accepted(w, s) && Next(w, s) == w {
      RefusedIsInert(w, s);
    }
  }

  /** An accepted worker step comes from the newest lease of its job, and an older lease of
      the same job is thereby already lost. */
  lemma OnlyNewestLeaseCommits(w: World, s: Step, u: Token)
    requires
      && Inv(w) && Fenced(s) && Accepted(w, s) && u in w.leases && w.leases[u].jobId == w.leases[s.token].jobId
      && u != s.token
    ensures w.leases[u].attempt < w.leases[s.token].attempt
    ensures w.db.jobs[w.leases[u].jobId].leaseToken != Some(u)
  {
    assert JobInv(w, w.leases[u].jobId);
  }

  // ---------------------------------------------------------------- exactly once

  predicate CommitsFor(w: World, s: Step, j: JobId) {
    s.Succeed? && Accepted(w, s) && w.leases[s.token].jobId == j
  }

  /** The outputs whose `mark_succeeded` was accepted for `j` along the run. */
  function Commits(w: World, steps: seq<Step>, j: JobId): (outputs: seq<Output>) {
    if steps == [] then []
    else
      var init := steps[..|steps| - 1];
      var s := steps[|steps| - 1];
      Commits(w, init, j) + if CommitsFor(Run(w, init), s, j) then [s.output] else []
  }

  lemma CommitSetsOutput(w: World, s: Step, j: JobId)
    requires Inv(w) && Legal(w, s)
    ensures OutputOf(Next(w, s).db.jobs, j) == if CommitsFor(w, s, j) then Some(s.output) else OutputOf(w.db.jobs, j)
    ensures CommitsFor(w, s, j) ==> OutputOf(w.db.jobs, j).None?
  {
    if s.Succeed? && Accepted(w, s) {
      assert JobInv(w, w.leases[s.token].jobId);
      NextOfAccepted(w, s);
    } else {
      OutputsUntouched(w, s);
    }
  }

  lemma {:induction false} CommitHistory(steps: seq<Step>, j: JobId)
    requires LegalRun(EMPTY, steps)
    ensures var o := OutputOf(Run(EMPTY, steps).db.jobs, j);
      Commits(EMPTY, steps, j) == if o.Some? then [o.value] else []
  {
    if steps != [] {
      CommitHistory(steps[..|steps| - 1], j);
      ReachableInv(steps[..|steps| - 1]);
      CommitSetsOutput(Run(EMPTY, steps[..|steps| - 1]), steps[|steps| - 1], j);
    }
  }

  /** Exactly-once materialization: along every run a job commits at most one success, it has
      committed one iff it is `succeeded`, and the output rows stored for it are exactly the
      rows of that one output. */
  lemma ExactlyOnce(steps: seq<Step>, j: JobId)
    requires LegalRun(EMPTY, steps)
    ensures var w := Run(EMPTY, steps); var commits := Commits(EMPTY, steps, j);
      && |commits| <= 1
      && (|commits| == 1 <==> j in w.db.jobs && w.db.jobs[j].status.Succeeded?)
      && RowsOf(w.db.materialized, j) == if commits == [] then [] else commits[0].rows
  {
    CommitHistory(steps, j);
    ReachableInv(steps);
    var w := Run(EMPTY, steps);
    if j in w.db.jobs { assert JobInv(w, j); }
  }

  // ---------------------------------------------------------------- provider calls

  /** In every reachable state a job has at most one submitted call, the one its row names;
      no attempt ever records two. */
  lemma OneSubmittedCall(steps: seq<Step>, c: CallId, d: CallId)
    requires LegalRun(EMPTY, steps)
    requires var db := Run(EMPTY, steps).db;
      c in db.calls && d in db.calls && db.calls[c].jobId == db.calls[d].jobId && db.calls[c].status.Submitted?
    ensures var db := Run(EMPTY, steps).db;
      && db.calls[c].jobId in db.jobs && db.jobs[db.calls[c].jobId].providerCallId == Some(c)
      && (db.calls[d].status.Submitted? ==> d == c)
  {
    ReachableInv(steps);
    assert JobInv(Run(EMPTY, steps), Run(EMPTY, steps).db.calls[c].jobId);
  }

  /** While a call stays submitted its identity is fixed and no other call can be recorded:
      neither expiry and reclaim nor a recovery-pending retry replaces it. */
  lemma {:induction false} SubmittedCallKeepsIdentity(w: World, steps: seq<Step>, c: CallId)
    requires Inv(w) && LegalRun(w, steps) && c in w.db.calls && w.db.calls[c].status.Submitted?
    ensures var v := Run(w, steps);
      && Inv(v) && c in v.db.calls && v.db.calls[c].jobId == w.db.calls[c].jobId
      && (v.db.calls[c].status.Submitted? ==>
            && v.db.jobs[v.db.calls[c].jobId].providerCallId == Some(c)
            && forall s: Step ::
                 s.RecordCall? && s.token in v.leases && v.leases[s.token].jobId == v.db.calls[c].jobId ==>
                   !Accepted(v, s))
  {
    if steps != [] {
      var init := steps[..|steps| - 1];
      SubmittedCallKeepsIdentity(w, init, c);
      StepKeepsInv(Run(w, init), steps[|steps| - 1]);
      CallRowsPersist(Run(w, init), steps[|steps| - 1], c);
    }
    var v := Run(w, steps);
    assert JobInv(v, v.db.calls[c].jobId);
  }

  lemma CallRowsPersist(w: World, s: Step, c: CallId)
    requires RefsInv(w) && c in w.db.calls
    ensures c in Next(w, s).db.calls && Next(w, s).db.calls[c].jobId == w.db.calls[c].jobId
  {
    if Fenced(s) && s.token in w.leases && Accepted(w, s) { NextOfAccepted(w, s); }
  }

  /** The unique keys of the provider-call table never reject a current worker's new call id:
      a recorded id is the only obstacle. */
  lemma FreshCallIsRecorded(w: World, l: Lease, call: CallId, now: Time)
    requires Inv(w) && Holds(w, l, now) && w.db.jobs[l.jobId].provider.Modal?
    ensures CallAccepted(w.db, l, call, now) <==> w.db.jobs[l.jobId].providerCallId.None? && call !in w.db.calls
  {
    assert JobInv(w, l.jobId);
    if w.db.jobs[l.jobId].providerCallId.None? && call !in w.db.calls {
      forall j | j in w.db.jobs ensures w.db.jobs[j].providerCallId != Some(call) { assert JobInv(w, j); }
    }
  }

  // ---------------------------------------------------------------- attempts

  function Claims(w: World, steps: seq<Step>, j: JobId): (n: nat) {
    if steps == [] then 0
    else
      Claims(w, steps[..|steps| - 1], j)
      + if steps[|steps| - 1].Claim? && steps[|steps| - 1].pick == Some(j) then 1 else 0
  }

  function AttemptsOf(jobs: Jobs, j: JobId): nat { if j in jobs then jobs[j].attempts else 0 }

  lemma StepCountsAttempt(w: World, s: Step, j: JobId)
    requires Legal(w, s) && forall t :: t in w.leases ==> w.leases[t].token == t
    ensures
      AttemptsOf(Next(w, s).db.jobs, j) == AttemptsOf(w.db.jobs, j) + if s.Claim? && s.pick == Some(j) then 1 else 0
  {
    if Fenced(s) && s.token in w.leases && Accepted(w, s) { NextOfAccepted(w, s); }
  }

  /** A job is claimed exactly `attempts` times over a run, never more than its maximum; its
      attempt rows are 1..attempts, and a queued job always has an attempt left. */
  lemma {:induction false} ClaimsAreBounded(steps: seq<Step>, j: JobId)
    requires LegalRun(EMPTY, steps)
    ensures var w := Run(EMPTY, steps);
      && Claims(EMPTY, steps, j) == AttemptsOf(w.db.jobs, j)
      && (j in w.db.jobs ==>
            && Claims(EMPTY, steps, j) <= w.db.jobs[j].maxAttempts
            && (w.db.jobs[j].status.Queued? ==> Claims(EMPTY, steps, j) < w.db.jobs[j].maxAttempts)
            && (w.db.jobs[j].leaseToken.Some? <==> w.db.jobs[j].status.Running?)
            && forall a: nat :: (j, a) in w.db.attempts <==> 1 <= a <= Claims(EMPTY, steps, j))
  {
    ReachableInv(steps);
    if steps != [] {
      ClaimsAreBounded(steps[..|steps| - 1], j);
      ReachableInv(steps[..|steps| - 1]);
      StepCountsAttempt(Run(EMPTY, steps[..|steps| - 1]), steps[|steps| - 1], j);
    }
    if j in Run(EMPTY, steps).db.jobs { assert JobInv(Run(EMPTY, steps), j); }
  }

  predicate HasOpenAttempt(db: Db, j: JobId) {
    j in db.jobs && (j, db.jobs[j].attempts) in db.attempts && db.attempts[(j, db.jobs[j].attempts)].outcome.Open?
  }

  /** Some step of the run withdrew consent from `j` while it was running. */
  predicate WithdrawnWhileRunning(w: World, steps: seq<Step>, j: JobId) {
    steps != [] &&
    var init := steps[..|steps| - 1];
    var s := steps[|steps| - 1];
    || WithdrawnWhileRunning(w, init, j)
    || (s.Withdraw? && s.id == j && j in Run(w, init).db.jobs && Run(w, init).db.jobs[j].status.Running?)
  }

  lemma {:induction false} OrphansAreWithdrawn(steps: seq<Step>, j: JobId)
    ensures j in Run(EMPTY, steps).orphans <==> WithdrawnWhileRunning(EMPTY, steps, j)
  {
    if steps != [] { OrphansAreWithdrawn(steps[..|steps| - 1], j); }
  }

  /** "One open attempt row iff running" holds of a job exactly when no consent withdrawal hit
      it while it ran; only the newest attempt is ever open. */
  lemma OpenAttemptIffRunning(steps: seq<Step>, j: JobId)
    requires LegalRun(EMPTY, steps) && j in Run(EMPTY, steps).db.jobs
    ensures var db := Run(EMPTY, steps).db;
      && ((HasOpenAttempt(db, j) <==> db.jobs[j].status.Running?) <==> !WithdrawnWhileRunning(EMPTY, steps, j))
      && forall a: nat :: (j, a) in db.attempts && db.attempts[(j, a)].outcome.Open? ==> a == db.jobs[j].attempts
  {
    ReachableInv(steps);
    OrphansAreWithdrawn(steps, j);
    assert JobInv(Run(EMPTY, steps), j);
  }

  /** A withdrawal that strands an open attempt row does happen. */
  lemma WithdrawalStrandsAttempt() returns (steps: seq<Step>)
    ensures LegalRun(EMPTY, steps)
    ensures var db := Run(EMPTY, steps).db; "j" in db.jobs && db.jobs["j"].status.Cancelled? && HasOpenAttempt(db, "j")
  {
    var claimed := ClaimedJob();
    var s := Withdraw("j", 1.0);
    steps := claimed + [s];
    assert steps[..|steps| - 1] == claimed;
    OrphanStaysOpen(Run(EMPTY, claimed), s);
  }

  lemma ClaimedJob() returns (steps: seq<Step>)
    ensures LegalRun(EMPTY, steps)
    ensures var db := Run(EMPTY, steps).db; "j" in db.jobs && db.jobs["j"].status.Running? && HasOpenAttempt(db, "j")
  {
    var row := NewRow("train.policy", Local, 3, 60, 0.0);
    var s0 := Enqueue("j", row);
    var s1 := Claim({"train.policy"}, 0.0, {}, Some("j"), "t", "a");
    var w1 := Next(EMPTY, s0);
    assert ExhaustAll(w1.db, {"train.policy"}, 0.0).jobs == map["j" := row];
    assert [s0][..0] == [] && [s0, s1][..1] == [s0];
    assert Run(EMPTY, []) == EMPTY && LegalRun(EMPTY, []);
    assert Run(EMPTY, [s0]) == w1 && LegalRun(EMPTY, [s0]);
    steps := [s0, s1];
  }

  lemma OrphanStaysOpen(w: World, s: Step)
    requires s.Withdraw? && s.id in w.db.jobs && w.db.jobs[s.id].status.Running? && HasOpenAttempt(w.db, s.id)
    ensures Next(w, s).db.jobs[s.id].status.Cancelled? && HasOpenAttempt(Next(w, s).db, s.id)
  {
  }

  // ---------------------------------------------------------------- progress

  /** The jobs a claim at `now` could take. */
  function DueJobs(jobs: Jobs, tasks: set<string>, now: Time): set<JobId> {
    set j | j in jobs && Claimable(jobs[j], tasks, now)
  }

  /** No job is stuck: at any time each unfinished served job is under a live lease, waiting
      for its retry time, failed by the exhaustion step of the next claim, or due. */
  lemma NoStuckJob(steps: seq<Step>, j: JobId, tasks: set<string>, now: Time)
    requires LegalRun(EMPTY, steps) && j in Run(EMPTY, steps).db.jobs
    requires var r := Run(EMPTY, steps).db.jobs[j]; Served(r, tasks) && !Terminal(r.status)
    ensures var db := Run(EMPTY, steps).db; var r := db.jobs[j];
      || (r.leaseToken.Some? && Current(db.jobs, j, r.leaseToken.value, now))
      || (r.status.Queued? && now < r.availableAt)
      || ExhaustAll(db, tasks, now).jobs[j].status.Failed?
      || j in DueJobs(ExhaustAll(db, tasks, now).jobs, tasks, now)
  {
    ReachableInv(steps);
    assert JobInv(Run(EMPTY, steps), j);
  }

  /** Among any due jobs there is a first one in claim order. */
  lemma {:induction false} FirstInOrder(jobs: Jobs, due: set<JobId>) returns (p: JobId)
    requires due != {} && due <= jobs.Keys
    ensures p in due && forall j :: j in due ==> OrderedBefore(jobs[p], jobs[j])
    decreases due
  {
    p :| p in due;
    if due != {p} {
      var q := FirstInOrder(jobs, due - {p});
      if !OrderedBefore(jobs[p], jobs[q]) { p := q; }
    }
  }

  /** A claim always has a permitted outcome, and it takes a job whenever one is due. */
  lemma ClaimIsPossible(jobs: Jobs, tasks: set<string>, now: Time, locked: set<JobId>) returns (pick: Option<JobId>)
    ensures IsNext(jobs, tasks, now, locked, pick)
    ensures pick.Some? <==> DueJobs(jobs, tasks, now) - locked != {}
  {
    var due := DueJobs(jobs, tasks, now) - locked;
    if due == {} {
      pick := None;
      assert forall j :: j in jobs && j !in locked && Claimable(jobs[j], tasks, now) ==> j in due;
    } else {
      var p := FirstInOrder(jobs, due);
      pick := Some(p);
    }
  }

  /** One unobstructed claim removes exactly the job it takes from the due set. */
  lemma ClaimShrinksDue(w: World, s: Step)
    requires
      s.Claim? && s.locked == {} && Legal(w, s) && forall j :: j in w.db.jobs ==> 1 <= w.db.jobs[j].timeoutSeconds
    ensures var due := DueJobs(w.db.jobs, s.tasks, s.now);
      && DueJobs(Next(w, s).db.jobs, s.tasks, s.now) == due - (if s.pick.Some? then {s.pick.value} else {})
      && (due != {} ==> s.pick.Some? && s.pick.value in due)
  {
    var e := ExhaustAll(w.db, s.tasks, s.now);
    var due := DueJobs(w.db.jobs, s.tasks, s.now);
    assert DueJobs(e.jobs, s.tasks, s.now) == due;
    if s.pick.Some? {
      var p := s.pick.value;
      assert Next(w, s).db.jobs == e.jobs[p := ClaimRow(e.jobs[p], s.token, s.now)];
    } else {
      assert Next(w, s).db.jobs == e.jobs;
    }
  }

  predicate SameClaims(steps: seq<Step>, tasks: set<string>, now: Time) {
    forall i ::
      0 <= i < |steps| ==> steps[i].Claim? && steps[i].locked == {} && steps[i].tasks == tasks && steps[i].now == now
  }

  /** After `k` unobstructed claims what is left of the due jobs has shrunk by `k`, or is gone. */
  predicate Drained(due: set<JobId>, left: set<JobId>, k: nat) {
    left <= due && (|due| <= k ==> left == {}) && (k < |due| ==> |left| == |due| - k)
  }

  lemma DrainedStep(due: set<JobId>, left: set<JobId>, k: nat, pick: Option<JobId>, after: set<JobId>)
    requires Drained(due, left, k) && after == left - (if pick.Some? then {pick.value} else {})
    requires left != {} ==> pick.Some? && pick.value in left
    ensures Drained(due, after, k + 1)
  {
    if left != {} { assert |after| == |left| - 1; }
  }

  lemma ClaimDrains(v: World, s: Step, due: set<JobId>, k: nat)
    requires Inv(v) && Legal(v, s) && s.Claim? && s.locked == {} && Drained(due, DueJobs(v.db.jobs, s.tasks, s.now), k)
    ensures Drained(due, DueJobs(Next(v, s).db.jobs, s.tasks, s.now), k + 1)
    ensures forall j ::
        j in DueJobs(v.db.jobs, s.tasks, s.now) && j !in DueJobs(Next(v, s).db.jobs, s.tasks, s.now) ==>
          s.pick == Some(j)
  {
    TimeoutsArePositive(v);
    ClaimShrinksDue(v, s);
    DrainedStep(due, DueJobs(v.db.jobs, s.tasks, s.now), k, s.pick, DueJobs(Next(v, s).db.jobs, s.tasks, s.now));
  }

  lemma TimeoutsArePositive(v: World)
    requires Inv(v)
    ensures forall j :: j in v.db.jobs ==> 1 <= v.db.jobs[j].timeoutSeconds
  {
    forall j | j in v.db.jobs ensures 1 <= v.db.jobs[j].timeoutSeconds { assert JobInv(v, j); }
  }

  /** Claiming as often as there are due jobs takes every one of them. */
  lemma {:induction false} ClaimsDrainDue(w: World, steps: seq<Step>, tasks: set<string>, now: Time)
    requires Inv(w) && LegalRun(w, steps) && SameClaims(steps, tasks, now)
    ensures
      Inv(Run(w, steps)) && Drained(DueJobs(w.db.jobs, tasks, now), DueJobs(Run(w, steps).db.jobs, tasks, now), |steps|)
    ensures forall j ::
        j in DueJobs(w.db.jobs, tasks, now) && j !in DueJobs(Run(w, steps).db.jobs, tasks, now) ==>
          1 <= Claims(w, steps, j)
  {
    if steps != [] {
      var init := steps[..|steps| - 1];
      var s, v := steps[|steps| - 1], Run(w, init);
      ClaimsDrainDue(w, init, tasks, now);
      StepKeepsInv(v, s);
      ClaimDrains(v, s, DueJobs(w.db.jobs, tasks, now), |init|);
    }
  }
}
