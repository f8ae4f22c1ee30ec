# Forge verification model

A Dafny model of the parts of Forge whose correctness spans many steps, with proofs about every
input, run or reachable state. `dafny verify dfyconfig.toml` checks all of it.

| area | files |
|---|---|
| Lease-fenced job queue and its worker | `QueueRows`, `QueueProtocol`, `QueueTheorems`, `QueueLaws`, `QueueStore` |
| Checkpointed batch scheduler, Pareto front and finalists | `Batch`, `BatchTheorems`, `BatchLaws`, `Pareto`, `Sorting` |
| Collision hierarchy and triangle test | `TriangleTest`, `TriangleSoundness`, `TriangleCompleteness`, `TriangleLaws`, `Bvh`, `BvhTheorems` |
| Mass properties | `ClosedMesh`, `MassProps`, `MassIdentities`, `MassShift`, `MassTheorems`, `MassMotion`, `LinearMaps`, `MassRotation`, `MassCompute`, `PosedMass` |
| Skeleton transforms and baking | `Matrix`, `Skeleton`, `SkeletonTheorems`, `Rotations`, `JointLaws`, `Contract`, `Bake`, `BakeLaws` |
| JSON Patch and JSON Pointer, two engines | `Text`, `Json`, `Pointer`, `Patch`, `PatchTheorems`, `PatchLaws`, `ControlledPatch` |
| Version ranges and lockfiles | `Semver`, `Lockfile`, `LockfileTheorems`, `LockfileLaws` |
| Schema migrations | `Migration`, `MigrationDocument`, `MigrationReport`, `MigrationLaws` |
| Servo integrator | `Servo`, `ServoStability` |

How the model reads the code:

- Queue. Each store transaction is one atomic step over job, attempt and provider-call rows; any
  number of workers interleave, the clock is an arbitrary value per step, tokens are fresh. The
  environment enqueues jobs, lets owners cancel them and lets consent be withdrawn.
  `QueueStore.PostgresQueueStore` is the imperative store; each method is tied to a transaction
  function of `QueueRows`, and the protocol theorems are about those functions.
- Batch. The number of proposals is any positive number, the evaluator any function. A crash may
  follow any write; the atomic writer keeps the last value written.
- Geometry works over the reals. `RealProduct.Mul` is ordinary multiplication under a name, so
  that equal factors give equal products in proofs.
- Documents are immutable JSON trees with members as a map.

What the proofs found:

- Withdrawing consent cancels a running job without closing its attempt row
  (`packages/gateway/src/consent.ts:282-323`, unlike the owner's cancellation), so the row stays
  open for good: `OpenAttemptIffRunning`, `WithdrawalStrandsAttempt`.
- A crash right after the write of the last candidate leaves a checkpoint that the validator
  refuses for ever: `ResumableIff`, `WedgedForever`, `WedgeOccurs`.
- The checkpoint validator accepts attempts that count a negative number of candidates
  (`workers/forge_workers/codesign_batch.py:768-777`). Accepted attempts tile the evaluated
  ordinals exactly when none does, which holds of everything the scheduler itself writes:
  `TilesIffForward`, `BackwardIsAccepted`, `SessionTiles`.
- The tolerance of the triangle test accepts pairs whose boxes are apart, which the hierarchy
  skips: `BandPairIsAccepted`, `BandPairIsSkipped`. Outside the tolerance band the hierarchy
  equals testing all pairs: `Collides`.
- The triangle test refuses some triangles that pass through each other, and its answer depends
  on the order of the vertices (`crates/forge-geometry/src/collide.rs:73-81`). A triangle whose
  first vertex lies exactly on the other's plane, between the other two, is seen as that vertex
  alone: `VertexOrderMatters`, `RefusedAlthoughTheyMeet`, `AcceptedWhenRelabelled`. A pair whose
  triangles reach both sides of each other's planes is accepted exactly when the heights spread
  beyond the tolerance and the parts so seen share a point: `AcceptedIffMet`.
- An array index can be written in several ways ("0", "00", "+0"), so the frame law of replace
  holds of places, not of token lists: `IndexAliases`. The runtime's own applier reads fewer of
  them: it accepts a patch exactly when the engine does, no path is the root pointer or "/", and
  no array on the way is indexed with a plus sign: `EnginesAgree`, `OnlyTheEngineAccepts`.
- The comment "stable for ω·dt < 2" (`crates/forge-motion/src/lib.rs:87`) leaves out ζ. With
  h = ω·dt, every run settles exactly when 0 < ζ·h and h² + 4·ζ·h < 4: `ServoSettlesIff`. At
  h = 1.9 and ζ = 0.5 the error more than doubles every step: `SmallStepIsNotEnough`.
- One migration drops one spelling of the schema-version marker from the root and one from its
  meta object. A second migration is idle exactly when neither carried two spellings:
  `ShippedMigratesOnceIff`, `TwoSpellingsNeedTwoPasses`.
- World transforms do not depend on declaration order when same-named nodes agree in parent and
  local transform: `OrderDoesNotMatter`. Two roots of one name give
  different results in the two orders exactly when their transforms differ:
  `DuplicatesDependOnOrder`.

## Model

| member | source | states |
|---|---|---|
| QueueTheorems.ReachableInv | workers/forge_workers/queue.py:298-402 | in every state reached by any interleaving: a lease token exists iff the job runs, attempt rows are 1..attempts, queued implies attempts left, calls and output rows agree with the job row |
| QueueProtocol.StepKeepsInv | workers/forge_workers/queue.py:467-830 | every legal step of a worker or the environment keeps the queue invariant |
| QueueProtocol.RefusedIsInert | workers/forge_workers/queue.py:695-714 | a worker step that the store refuses changes nothing at all |
| QueueTheorems.StepRefinesLifecycle | workers/forge_workers/queue.py:332-402 | every step is, for every job, a step of its abstract life: stay, be claimed under a token never issued before, record a call, be retried, finish |
| QueueTheorems.FinishedForever | workers/forge_workers/queue.py:569-649 | a finished job's row and output rows never change again, whatever late workers do |
| QueueTheorems.FencedForever | workers/forge_workers/queue.py:651-668 | a lost lease is never regained: after any continuation all its completions, failures, retries and call records are refused and inert |
| QueueTheorems.LostLeaseRefused | workers/forge_workers/queue.py:670-714 | every step under a token that is not the job's current one is refused and leaves the state as it is |
| QueueTheorems.OnlyNewestLeaseCommits | workers/forge_workers/queue.py:651-668 | an accepted worker step comes from the newest lease of its job, and no older lease is current |
| QueueTheorems.ExactlyOnce | workers/forge_workers/queue.py:569-649 | along every run a job commits at most one success, exactly when its row says succeeded, with exactly that output's rows |
| QueueTheorems.OneSubmittedCall | workers/forge_workers/queue.py:467-528 | in every reachable state a job has at most one submitted provider call and it is the one its row names |
| QueueTheorems.SubmittedCallKeepsIdentity | workers/forge_workers/queue.py:727-829 | while a call stays submitted, expiry, reclaim and retries keep its identity and no second call can be recorded |
| QueueTheorems.FreshCallIsRecorded | infra/migrations/0024_modal_job_operations.sql:75-118 | for the current holder, recording a call is accepted exactly when the job has no call yet and the id is new: the table's unique keys never get in the way |
| QueueTheorems.ClaimsAreBounded | workers/forge_workers/queue.py:302-402 | a job is claimed exactly `attempts` times over a run and never more than its maximum |
| QueueTheorems.OpenAttemptIffRunning | packages/gateway/src/consent.ts:282-323 | "one open attempt row iff running" holds of a job exactly when no consent withdrawal hit it while running |
| QueueTheorems.WithdrawalStrandsAttempt | packages/gateway/src/consent.ts:282-323 | a concrete run that ends with a cancelled job and an open attempt row |
| QueueTheorems.NoStuckJob | workers/forge_workers/queue.py:302-402 | every unfinished served job is under a live lease, waiting for its time, due for the next claim, or failed by the next exhaustion |
| QueueTheorems.ClaimIsPossible | workers/forge_workers/queue.py:332-360 | a claim always has a permitted outcome and takes a job whenever an unlocked one is due |
| QueueTheorems.ClaimShrinksDue | workers/forge_workers/queue.py:332-402 | an unobstructed claim removes exactly the job it takes from the due set |
| QueueTheorems.ClaimsDrainDue | workers/forge_workers/queue.py:332-402 | claiming as often as there are due jobs takes all of them |
| QueueLaws.LeaseLasts | workers/forge_workers/queue.py:366-374 | in every legal run, while the holder has not completed the job, its owner has not cancelled it and no claim comes after the end, the holder is current at t exactly when t is before the claim plus the job's timeout, and the job can be claimed again only from then on, if it has an attempt left |
| QueueLaws.ReachableIsOrderly | workers/forge_workers/queue.py:298-830 | what the laws below ask of a state holds after every legal run, so they hold of each of its steps |
| QueueLaws.PickIsFirst | workers/forge_workers/queue.py:340-353 | the job taken is first in line: an expired lease before any queued job, and within one status none due earlier, or equally due and older |
| QueueLaws.PickIsDue | workers/forge_workers/queue.py:337-347 | what a claim takes is of a served kind, no fixture, with an attempt left, and queued until now or under a lease that has ended |
| QueueLaws.ClaimSetsRow | workers/forge_workers/queue.py:366-378 | the claimed row column by column |
| QueueLaws.ClaimExhausts | workers/forge_workers/queue.py:304-330 | a claim fails exactly the other jobs whose last permitted lease has ended and leaves every further row alone |
| QueueLaws.ClaimOpensAttempt | workers/forge_workers/queue.py:354-402 | a claim opens the next attempt row under its id and closes the one a lost lease left open as expired |
| QueueLaws.ExhaustionClosesAttempt | workers/forge_workers/queue.py:318-330 | a job that fails as exhausted has its newest attempt row closed as failed |
| QueueLaws.CompletionRow | workers/forge_workers/queue.py:594-779 | an accepted success, failure or retry, column by column: a retry waits for its delay while an attempt is left and fails the job otherwise, and gives up the provider call unless that is to be recovered |
| QueueLaws.CompletionFrame | workers/forge_workers/queue.py:594-779 | an accepted completion moves no other job's row |
| QueueLaws.RetryWaits | workers/forge_workers/queue.py:730-779 | in every legal run a retried job comes back exactly its delay after the retry: until a claim at that time or a cancellation it stays queued, and it is due at t exactly when t is not before that time |
| QueueLaws.AttemptAfter | workers/forge_workers/queue.py:616-819 | an accepted completion closes the holder's open attempt row with its outcome, code and time, and no other |
| QueueLaws.CallsAfter | workers/forge_workers/queue.py:628-829 | after a failure or a retry without recovery no call of the job is submitted; a recovery keeps every call; a success settles the call it names and no other |
| QueueLaws.CallIsRecorded | workers/forge_workers/queue.py:467-528 | an accepted call is stored as submitted under the holder's job and attempt and named by the job's row; nothing else changes |
| QueueLaws.CancellationIsRecorded | workers/forge_workers/queue.py:547-567 | a reported cancellation settles that call of the worker's job and nothing else |
| QueueLaws.CancellationRow | packages/gateway/src/platform.ts:3035-3075 | the owner and a withdrawal of consent end exactly the jobs that have not ended, each with its own code |
| QueueLaws.CancellationCalls | packages/gateway/src/platform.ts:3035-3090 | the owner's cancellation asks for that of the submitted call; a withdrawal leaves calls and attempts alone |
| QueueLaws.CancellationClosesAttempt | packages/gateway/src/platform.ts:3060-3075 | the owner's cancellation closes the open attempt of a running job and touches no other |
| QueueStore.PostgresQueueStore.ClaimOne | workers/forge_workers/queue.py:298-402 | exhausts, then claims a first due unlocked row under the given token; the new tables are the claim transaction of the old ones; the claimed row has one attempt more and a lease that ends its own timeout after now |
| QueueStore.PostgresQueueStore.FirstRow | workers/forge_workers/queue.py:332-360 | the selected row comes first in the claim order among the due rows |
| QueueStore.PostgresQueueStore.RecordProviderCall | workers/forge_workers/queue.py:467-528 | raises exactly when the lease is not current or the call is not admissible, and then changes nothing |
| QueueStore.PostgresQueueStore.RecordProviderCancelled | workers/forge_workers/queue.py:547-567 | the new tables are the cancellation report of the old ones |
| QueueStore.PostgresQueueStore.MarkSucceeded | workers/forge_workers/queue.py:569-649 | accepted exactly under a current lease at commit; otherwise nothing changes, and it raises exactly the fault of the upload or of the output |
| QueueStore.PostgresQueueStore.HasAuthority | workers/forge_workers/queue.py:651-668 | true exactly when the job's token is the current, unexpired lease of its row |
| QueueStore.PostgresQueueStore.MarkFailed | workers/forge_workers/queue.py:670-714 | accepted exactly under a current lease; otherwise nothing changes |
| QueueStore.PostgresQueueStore.MarkRetryable | workers/forge_workers/queue.py:716-830 | answers exactly under a current lease, requeues or fails, and persists the delay it computes |
| Faults.RetryDelay | workers/forge_workers/faults.py:56-68 | the delay lies in 1..900 seconds for every attempt and every hint, NaN and infinities included |
| Faults.RetryDelayLaws | workers/forge_workers/faults.py:56-68 | feeding the reported delay back, as the store does, gives the same delay; it never decreases with the attempt number |
| Faults.RetryDelayPolicy | workers/forge_workers/faults.py:56-68 | five seconds at first, twice as long after each attempt, 900 at most; a finite hint lengthens the delay up to that and never shortens it, any other hint changes nothing |
| Worker.FinishAttempt | workers/forge_workers/queue.py:190-255 | for every handler result or fault: what must be reported (success, retry with the delay, failure with its code, or discarded exactly when the lease is lost), that the report obeys the observation rules, agrees with the committed row, and was committed under a current lease unless discarded, whatever other connections commit between a completion that raises and the fault written for it |
| Worker.FixedCodesAreValid | workers/forge_workers/observability.py:346-382 | the worker's own error codes satisfy the code rule of observations |
| Pareto.ParetoFront | workers/forge_workers/codesign_runtime.py:679-705 | the nested loops return exactly the non-dominated admitted candidates, in order: no two of them compare as at least as good in all three metrics and better in one, and every admitted candidate has one at least as good among them |
| Pareto.FrontMembers | workers/forge_workers/codesign_runtime.py:679-705 | a candidate is in the list iff it is admitted and no admitted candidate dominates it |
| Pareto.OffFrontIsDominated | workers/forge_workers/codesign_runtime.py:679-705 | every admitted candidate is on the front or dominated by a member of it |
| Pareto.FinalistsAreTopRanked | workers/forge_workers/codesign_batch.py:583-602 | the finalists are the first three of a permutation of the front, numbered from one, that goes by score, then endurance, then lower mass, then id |
| Pareto.FirstFinalistIsBest | workers/forge_workers/codesign_batch.py:572-602 | the rank-1 finalist is on the front and lexicographically best by score, endurance and mass over all admitted candidates |
| Pareto.TextLeIff | workers/forge_workers/codesign_batch.py:583-602 | ids compare by the first character that differs, a prefix first |
| Batch.DeriveEvidence | workers/forge_workers/codesign_batch.py:609-655 | the refreshed evidence is the one derived from candidates and attempts; front and finalists exist exactly once all proposals are in |
| Batch.Refresh | workers/forge_workers/codesign_batch.py:609-655 | the checkpoint built from an edited core carries the derived evidence |
| Batch.ValidateAttempts | workers/forge_workers/codesign_batch.py:734-802 | accepts exactly the attempt lists that are continuous up to the next ordinal and whose last outcome fits the state |
| Batch.ValidateCheckpoint | workers/forge_workers/codesign_batch.py:805-921 | accepts exactly the checkpoints whose scheduler part is well formed and whose evidence is the derived one |
| Batch.AdvanceBatch | workers/forge_workers/codesign_batch.py:924-992 | on an incomplete valid checkpoint: evaluates min(limit, what is left) further proposals, ends complete exactly when it reaches the total and paused otherwise, and appends one attempt with the limit asked for and that count; a cancelled call evaluates nothing; it returns a checkpoint exactly when the given one is valid and complete, or the limit is not negative and the call is cancelled or no candidate in its range is refused, and names the error otherwise; what it persists is the trace of the call |
| BatchLaws.AttemptsOkIff | workers/forge_workers/codesign_batch.py:734-802 | the rules of the attempt list one by one, and the outcomes each state allows |
| BatchLaws.TilesIffForward | workers/forge_workers/codesign_batch.py:734-802 | accepted attempts cover every evaluated ordinal exactly once and no other exactly when none counts a negative number of candidates |
| BatchLaws.BackwardIsAccepted | workers/forge_workers/codesign_batch.py:766-779 | a whole checkpoint the validator accepts although its attempts do not tile |
| BatchLaws.SessionTiles | workers/forge_workers/codesign_batch.py:924-992 | after any calls, limits, cancellations and crashes the attempts of the durable checkpoint tile |
| BatchLaws.ValidMeans | workers/forge_workers/codesign_batch.py:805-921 | what the validator asks of a checkpoint, one by one |
| BatchLaws.EvidenceIs | workers/forge_workers/codesign_batch.py:609-655 | the derived evidence field by field: counts, resume and cancellation observed, front and finalists once all is in and nothing of them before, summed runtimes |
| BatchLaws.EveryCandidateIsWritten | workers/forge_workers/codesign_batch.py:971-991 | the loop writes after every candidate and once more at the end, each write holding exactly the candidates evaluated so far |
| BatchTheorems.PersistedAccepted | workers/forge_workers/codesign_batch.py:942-991 | every persisted checkpoint tiles its attempts, holds the evaluator's results, and is accepted with the sole exception of the one written after the last candidate |
| BatchTheorems.SessionSound | workers/forge_workers/codesign_batch.py:924-992 | after any calls with any limits, cancellations and crashes the durable checkpoint is sound |
| BatchTheorems.Confluence | workers/forge_workers/codesign_batch.py:924-992 | every session that reaches complete holds the evaluator's results for all proposals, their front and their finalists |
| BatchTheorems.AgreesWithUninterrupted | workers/forge_workers/codesign_batch.py:924-992 | a session that reaches complete through any interruptions holds the same candidates, front and finalists as one uninterrupted call, which completes too |
| BatchTheorems.ResumableIff | workers/forge_workers/codesign_batch.py:899-985 | an uninterrupted call completes the batch from a durable checkpoint exactly when it is not the one written after the last candidate |
| BatchTheorems.WedgedForever | workers/forge_workers/codesign_batch.py:919-920 | that checkpoint is refused by every later call and stays in place |
| BatchTheorems.WedgeOccurs | workers/forge_workers/codesign_batch.py:978-985 | a crash after the last candidate's write leaves it |
| TriangleSoundness.AcceptedPairShares | crates/forge-geometry/src/collide.rs:28-98 | an accepted pair in which each triangle reaches both sides of the other's plane has a common point, exhibited on a chord of each |
| TriangleSoundness.AcceptedPairOverlaps | crates/forge-geometry/src/collide.rs:28-130 | such a pair has overlapping boxes |
| TriangleSoundness.PlanesMeet | crates/forge-geometry/src/collide.rs:61-69 | the two planes of an accepted pair are not parallel, so the dominant axis is usable |
| TriangleSoundness.LoneIsOpposite | crates/forge-geometry/src/collide.rs:73-81 | the vertex singled out lies on the other side from the two it is paired with |
| TriangleSoundness.BandPairIsAccepted | crates/forge-geometry/src/collide.rs:32-60 | a whole family of pairs with boxes apart that the tolerance lets through |
| TriangleSoundness.BandPairExists | crates/forge-geometry/src/collide.rs:33-60 | a concrete such pair |
| TriangleCompleteness.PointInInterval | crates/forge-geometry/src/collide.rs:71-92 | every point of a triangle in the other's plane lies in the interval computed for it, along any axis, save that only the first vertex does when that one is taken for the lone one |
| TriangleCompleteness.FirstAloneInterval | crates/forge-geometry/src/collide.rs:73-92 | with the first vertex on the plane between the other two the interval is that vertex alone |
| TriangleCompleteness.AcceptedIffMet | crates/forge-geometry/src/collide.rs:28-98 | for all pairs: accepted with both triangles reaching both sides of the other's plane, exactly when the pair is not coplanar, both heights spread beyond the tolerance, and the parts the intervals stand for share a point |
| TriangleCompleteness.CommonPointIsAcceptedIff | crates/forge-geometry/src/collide.rs:28-98 | a pair with a common point is accepted exactly under that condition |
| TriangleCompleteness.AcceptedIffShare | crates/forge-geometry/src/collide.rs:28-98 | when moreover neither first vertex is so placed, acceptance means exactly a common point |
| TriangleCompleteness.VertexOrderMatters | crates/forge-geometry/src/collide.rs:73-81 | with the first vertex so placed the pair is accepted exactly when that vertex lies in the other triangle; with it put last, exactly when the triangles share a point |
| TriangleCompleteness.RefusedAlthoughTheyMeet | crates/forge-geometry/src/collide.rs:28-98 | a family of pairs that pass through each other, accepted only while the first vertex lies in the other triangle |
| TriangleCompleteness.AcceptedWhenRelabelled | crates/forge-geometry/src/collide.rs:28-98 | the same pairs are accepted with that vertex put last |
| TriangleLaws.ClearingIsRefused | crates/forge-geometry/src/collide.rs:33-58 | a triangle all of whose points are more than 1e-12 to one side of the other's plane is refused, in either order |
| TriangleLaws.LyingIsRefused | crates/forge-geometry/src/collide.rs:59-62 | a triangle all of whose points are within 1e-12 of the other's plane is refused, even one that overlaps it |
| TriangleLaws.CoincidentIsRefused | crates/forge-geometry/src/collide.rs:28-62 | two coincident triangles are refused although they share every point |
| TriangleLaws.NoneGrazesIsOutsideBand | crates/forge-geometry/src/collide.rs:33-58 | parts none of whose triangles lies on one side of another's plane with a vertex within 1e-12 of it are outside the tolerance band |
| Bvh.BoundsOf | crates/forge-geometry/src/collide.rs:202-205 | the union loop gives the smallest box: it covers every triangle and each face is touched by one |
| Bvh.PartBvh.Split | crates/forge-geometry/src/collide.rs:194-226 | permutes only its stretch, only appends nodes, and leaves a tree over the stretch with smallest bounds, leaves of at most eight, halves split at the middle and separated by centroid along the longest axis |
| Bvh.PartBvh.constructor | crates/forge-geometry/src/collide.rs:172-192 | the order is a permutation of the triangles and the root a correct tree over it |
| Bvh.ListedOnce | crates/forge-geometry/src/collide.rs:184-187 | no triangle is listed twice |
| Bvh.LeafOf | crates/forge-geometry/src/collide.rs:206-213 | every position of the order lies in a leaf whose bounds hold its triangle |
| Bvh.LeavesAreDisjoint | crates/forge-geometry/src/collide.rs:206-226 | no position lies in two leaves |
| Bvh.SortAscends | crates/forge-geometry/src/collide.rs:216 | the stretch is a permutation of itself sorted by centroid |
| Sorting.SortIsStable | crates/forge-geometry/src/collide.rs:216 | entries of one rank keep their order |
| Bvh.PartBvh.Intersects | crates/forge-geometry/src/collide.rs:235-272 | terminates, and is true exactly when two leaves with overlapping bounds hold a hitting pair |
| Bvh.FoundIff | crates/forge-geometry/src/collide.rs:239-270 | the descent reports exactly the touching leaf pairs with overlapping bounds |
| Bvh.FoundOverlaps | crates/forge-geometry/src/collide.rs:241-243 | skipping a pair of nodes whose bounds do not overlap loses nothing |
| Bvh.ScanLeaves | crates/forge-geometry/src/collide.rs:245-260 | true exactly when some triangle of one leaf hits some triangle of the other |
| Bvh.FoundIsHit | crates/forge-geometry/src/collide.rs:234-272 | whatever is reported is a pair that passes the test |
| Bvh.OverlappingHitIsFound | crates/forge-geometry/src/collide.rs:234-272 | a passing pair whose boxes overlap forces the answer true |
| Bvh.SearchIsAllPairs | crates/forge-geometry/src/collide.rs:234-272 | for a box-sound pair test the search is the all-pairs test |
| BvhTheorems.CollisionIsAllPairs | crates/forge-geometry/src/collide.rs:234-272 | outside the tolerance band the answer is exactly that of testing every pair with the interval test |
| BvhTheorems.ReportedCollisionIsReal | crates/forge-geometry/src/collide.rs:234-272 | outside the band a reported collision is a point that lies in a triangle of each part |
| BvhTheorems.BandPairIsSkipped | crates/forge-geometry/src/collide.rs:234-272 | inside the band the search can miss a pair the test accepts |
| BvhTheorems.Collides | crates/forge-geometry/src/collide.rs:234-272 | the search with the interval test reports only accepted pairs and never misses one that meets or whose boxes overlap; outside the band it answers as testing every pair would, and says whether the parts share a point when every crossing pair is clear |
| BvhTheorems.Build | crates/forge-geometry/src/collide.rs:172-192 | the hierarchy of a mesh at a pose holds exactly its faces taken through the matrix |
| MassProps.Tally | crates/forge-geometry/src/massprops.rs:32-63 | the loop over whole index triples sums the ten increments over the faces |
| MassCompute.Compute | crates/forge-geometry/src/massprops.rs:20-107 | the mass properties of the stored faces; on a closed mesh six times the volume is the sum of the determinants of the coordinate triples stored at the indices 3k, 3k+1, 3k+2 in that order; on the buffers of a tetrahedron the volume is a sixth of the determinant of its edges, positive when wound outward, and the centre the mean of the vertices, or the origin when the volume is at most 1e-30 |
| MassCompute.VolumeIsStored | crates/forge-geometry/src/massprops.rs:28-60 | six times the volume of a closed mesh is the sum of its stored determinants |
| MassCompute.TetrahedronProperties | crates/forge-geometry/src/massprops.rs:8-107 | volume and centre of the four-face buffers of all four points |
| MassProps.IncrementIsKernel | crates/forge-geometry/src/massprops.rs:40-63 | the ten increments are four kernels along turned axes |
| MassIdentities.FaceIdentity | crates/forge-geometry/src/massprops.rs:40-63 | each face term is a determinant times a density plus terms of the face's three edges |
| MassIdentities.EdgeTermAntisymmetric | crates/forge-geometry/src/massprops.rs:110-121 | an edge term changes sign with the direction of the edge |
| ClosedMesh.EdgesCancel | crates/forge-geometry/src/massprops.rs:1-4 | what changes sign with an edge sums to zero when every directed edge has its reverse as often |
| ClosedMesh.MappedIsClosed | crates/forge-geometry/src/massprops.rs:1-4 | a closed mesh stays closed wherever its vertices are moved |
| MassMotion.IntegralIsTetrahedra | crates/forge-geometry/src/massprops.rs:32-82 | each of the ten integrals of a closed mesh is the sum over the signed tetrahedra of its faces and the origin |
| MassMotion.VolumeIsDeterminants | crates/forge-geometry/src/massprops.rs:51-82 | six times the accumulated volume of a closed mesh is the sum of determinants |
| MassMotion.VolumeAlongAnyAxis | crates/forge-geometry/src/massprops.rs:51-63 | the volume integral is the same along every axis |
| MassTheorems.MixedSumIsFirst | crates/forge-geometry/src/massprops.rs:58-63 | on a closed mesh the mixed sum along one axis is the first moment along the next |
| MassMotion.MassPropertiesMove | crates/forge-geometry/src/massprops.rs:80-107 | moving a closed mesh keeps its volume; unless the volume is negligible the centre moves with it and all six inertia entries are unchanged |
| MassMotion.FacesMove | crates/forge-geometry/src/massprops.rs:23-35 | moving the stored coordinates moves the faces |
| MassMotion.MassPropertiesFlip | crates/forge-geometry/src/massprops.rs:80-107 | reversing every face negates volume and inertia and leaves the centre |
| MassRotation.MassPropertiesCarried | crates/forge-geometry/src/massprops.rs:80-107 | under any rigid motion of a closed mesh the volume is kept up to the sign of the determinant; unless it is negligible the centre of mass goes through the motion and the inertia tensor turns with it, up to the same sign |
| MassRotation.MassPropertiesTurn | crates/forge-geometry/src/massprops.rs:80-107 | the same for the turning part alone |
| MassRotation.InertiaIsCentralForm | crates/forge-geometry/src/massprops.rs:88-107 | the six inertia entries are one form on directions, free of coordinates |
| MassRotation.FormOfImages | crates/forge-geometry/src/massprops.rs:51-63 | the second-moment form of a turned mesh at turned directions is that of the mesh, times the determinant |
| LinearMaps.TripleOfImages | crates/forge-geometry/src/lib.rs:474-480 | signed volumes are multiplied by the determinant of the matrix |
| LinearMaps.DeterminantIsUnit | crates/forge-geometry/src/lib.rs:378-472 | a rigid motion has determinant one or minus one |
| LinearMaps.DeterminantOfTimes | crates/forge-geometry/src/lib.rs:428-440 | determinants multiply |
| LinearMaps.RodriguesDeterminant | crates/forge-geometry/src/lib.rs:379-404 | the turn about a unit axis has determinant one |
| PosedMass.JointsCarryMass | crates/forge-geometry/src/lib.rs:288-331 | for every skeleton, all joint angles and every proper offset, a closed part keeps its volume through its node's world transform, its centre of mass goes through it and its inertia tensor turns with it |
| PosedMass.BodyOffsetIsProper | crates/forge-geometry/src/lib.rs:407-416 | a driver's body pose is such an offset |
| PosedMass.PosesCarryMass | crates/forge-geometry/src/lib.rs:339-376 | the same for all animation channels |
| Skeleton.NodeWorld | crates/forge-geometry/src/lib.rs:255-282 | the retain passes compute the worklist's fixpoint, or name the first node left |
| Skeleton.NodeWorldWithJoints | crates/forge-geometry/src/lib.rs:288-331 | the same worklist with joint angles and an offset at the root; what an angle does to a node is stated by JointLaws.JointMovesPoint |
| Skeleton.NodeWorldPosed | crates/forge-geometry/src/lib.rs:339-376 | the same for animation channels |
| JointLaws.JointMovesPoint | crates/forge-geometry/src/lib.rs:284-331 | for every skeleton, all angles and every offset: a point of a node is turned about the joint's axis (cos·v + (1−cos)(k·v)k + sin·(k×v)), then by the node's own angles, then moved to the node's place, and only then taken on by what the node hangs from |
| JointLaws.JointKeepsAxisInPlace | crates/forge-geometry/src/lib.rs:305-322 | changing one joint's angle leaves the node's origin and every point of its axis where they were in the world |
| JointLaws.PoseMovesPoint | crates/forge-geometry/src/lib.rs:339-376 | an animation channel adds to the node's angles and to its place, before what the node hangs from |
| JointLaws.PoseMovesOrigin | crates/forge-geometry/src/lib.rs:339-376 | a channel puts the node's origin at its place plus the channel's offset in the frame of what it hangs from, whatever the rotation |
| JointLaws.WorldFromParent | crates/forge-geometry/src/lib.rs:255-282 | every node's transform is its own after that of what it hangs from |
| JointLaws.PointOfTrs | crates/forge-geometry/src/lib.rs:442-472 | a node-local transform turns a point about z, then x, then y, then moves it |
| JointLaws.PointOfAxisAngle | crates/forge-geometry/src/lib.rs:379-404 | the axis-angle matrix turns a point by the Rodrigues formula about the normalised axis; an axis shorter than 1e-12 turns nothing |
| JointLaws.PointOfBodyOffset | crates/forge-geometry/src/lib.rs:407-416 | a body pose turns about the vertical and moves in the plane |
| SkeletonTheorems.WorklistIsProduct | crates/forge-geometry/src/lib.rs:255-282 | when same-named nodes agree: succeeds exactly when every parent chain ends at a root, gives every node the product along its chain, and otherwise names the first node without one |
| SkeletonTheorems.OrderDoesNotMatter | crates/forge-geometry/src/lib.rs:255-282 | when same-named nodes agree in parent and local transform, the map does not depend on the order of declaration |
| SkeletonTheorems.DuplicatesDependOnOrder | crates/forge-geometry/src/lib.rs:260-276 | two orders of two same-named roots differ exactly when their transforms differ |
| SkeletonTheorems.EmptyVariantsAgree | crates/forge-geometry/src/lib.rs:288-376 | without joint angles, offset or poses both variants give the rest transforms or the same error, for every skeleton |
| SkeletonTheorems.RootOffsetPremultiplies | crates/forge-geometry/src/lib.rs:284-331 | a root offset pre-multiplies the transform of every node |
| SkeletonTheorems.JointsMoveOnlyBelow | crates/forge-geometry/src/lib.rs:288-331 | a node whose parent chain meets no changed joint angle keeps its transform |
| Matrix.Multiply | crates/forge-geometry/src/lib.rs:428-440 | the triple loop computes every row against every column |
| Matrix.TimesAssociates | crates/forge-geometry/src/lib.rs:428-440 | the product is associative |
| Matrix.PointThroughTimes | crates/forge-geometry/src/lib.rs:474-480 | a point through a product is the point through each factor in turn |
| Rotations.TrsIsRigid | crates/forge-geometry/src/lib.rs:442-472 | a node-local transform is a rigid motion |
| Rotations.AxisAngleIsRigid | crates/forge-geometry/src/lib.rs:379-404 | the turn about any axis, the degenerate one included, is a rigid motion |
| Rotations.BodyOffsetIsRigid | crates/forge-geometry/src/lib.rs:407-416 | a body pose is a rigid motion |
| Rotations.JointWorldsAreRigid | crates/forge-geometry/src/lib.rs:288-331 | for every skeleton, all joint angles and every rigid offset, each world transform keeps the distance of any two points |
| Rotations.PosedWorldsAreRigid | crates/forge-geometry/src/lib.rs:339-376 | the same for all animation channels |
| Rotations.OffsetMovesPoints | crates/forge-geometry/src/lib.rs:284-331 | a root offset takes every point of every node on through the offset |
| Contract.PhysicalPartsWithPaths | crates/forge-contract/src/lib.rs:1094-1125 | base parts first, then the inline parts of each explicitly equipped variant |
| Contract.PathsAreUnique | crates/forge-contract/src/lib.rs:1090-1125 | every physical part has its own source path |
| Contract.Equipped | crates/forge-contract/src/lib.rs:410-418 | the first variant that carries the slot's equipped id; none exactly when no id is set or no variant carries it, there is no default |
| Bake.FullBake | crates/forge-geometry/src/lib.rs:122-170 | the model of the contract, or the first error in part order |
| Bake.BakeIncremental | crates/forge-geometry/src/lib.rs:172-251 | the same model or the same error as a full bake whenever `prev` is the bake of `prev_spec` |
| Bake.ReuseIsExact | crates/forge-geometry/src/lib.rs:196-211 | reused buffers are what tessellating the part again would give |
| Bake.EditSession | crates/forge-geometry/src/lib.rs:172-251 | through any chain of edits, rejected ones included, the model held is the full bake of the last good contract and every edit is answered as a full bake would |
| BakeLaws.ModelIs | crates/forge-geometry/src/lib.rs:122-170 | a baked model: the skeleton's transforms, every physical part in its place with what tessellating it gave, and as totals the polygons, vertices and triangles of all of them |
| BakeLaws.ModelFails | crates/forge-geometry/src/lib.rs:122-170 | baking fails exactly when the skeleton is stuck or some part has an unknown node or does not tessellate, with the error of the first such part |
| BakeLaws.ReusedIff | crates/forge-geometry/src/lib.rs:196-211 | the parts reused are exactly those whose position held the same source, geometry and pose before |
| BakeLaws.PhysicalIff | crates/forge-contract/src/lib.rs:1090-1125 | the physical parts are exactly the base parts and the inline parts of the variants that slots have equipped, each under its path |
| BakeLaws.PhysicalOrdered | crates/forge-contract/src/lib.rs:1094-1125 | base parts by position, then inline parts by slot and position |
| Pointer.UnescapeInvertsEscape | crates/forge-contract/src/patch.rs:82-93 | two-pass unescaping inverts escaping for every token |
| Pointer.PointerRoundTrip | crates/forge-contract/src/patch.rs:82-93 | every token list survives being written as a pointer and read back |
| Patch.WalkTo | crates/forge-contract/src/patch.rs:95-121 | the walk resolves token by token, or gives the first fault |
| Patch.ApplyPatch | crates/forge-contract/src/patch.rs:37-61 | applies in order, reports the first fault with its index, and never returns a document the schema refuses; what each operation does, where it succeeds and how it fails is stated by the PatchLaws rows |
| PatchTheorems.ComposePatches | crates/forge-contract/src/patch.rs:47-52 | applying p then q is applying p ++ q, faults of q at their shifted index |
| PatchTheorems.FaultFirst | crates/forge-contract/src/patch.rs:47-52 | a fault in p is the fault of p ++ q |
| PatchTheorems.AddThenRemove | crates/forge-contract/src/patch.rs:136-192 | removing what was added restores the document exactly when the member was absent or the place is an array index, not "-" |
| PatchTheorems.RemoveThenAdd | crates/forge-contract/src/patch.rs:136-192 | adding back what was removed restores the document at every removable path |
| PatchTheorems.ReplaceHits | crates/forge-contract/src/patch.rs:72-76 | a replace succeeds exactly where the path resolves, and the value is then found there |
| PatchTheorems.ReplaceFrame | crates/forge-contract/src/patch.rs:72-134 | every resolved place that neither contains nor lies under the target is unchanged |
| PatchTheorems.LocateIffResolve | crates/forge-contract/src/patch.rs:95-121 | tokens resolve exactly when they lead to a place |
| PatchTheorems.IndexAliases | crates/forge-contract/src/patch.rs:111-121 | several tokens name the same array item |
| PatchLaws.TestIff | crates/forge-contract/src/patch.rs:65-71 | a test passes exactly when the path leads to an equal value, and then changes nothing; otherwise it names the path |
| PatchLaws.RemoveIff | crates/forge-contract/src/patch.rs:77-192 | a remove succeeds exactly where its path leads to something below the root |
| PatchLaws.RemoveTakes | crates/forge-contract/src/patch.rs:167-192 | a remove takes that one child from its parent and keeps the others, in order |
| PatchLaws.RemoveThenAddRestores | crates/forge-contract/src/patch.rs:77-192 | removing a value and adding it back restores the document at every removable path |
| PatchLaws.AddIff | crates/forge-contract/src/patch.rs:78-165 | an add at the root replaces the document; below it, it succeeds exactly when the parent is an object, or an array and the token is "-" or an index up to its length |
| PatchLaws.AddPuts | crates/forge-contract/src/patch.rs:136-165 | an add gives the parent the value as a child, overwriting an existing member, moving later items up and appending for "-"; unless the token is "-" the path then leads to the value |
| PatchLaws.AddThenRemoveRestoresIff | crates/forge-contract/src/patch.rs:77-192 | adding and then removing at one path restores the document exactly when the member was absent or the place is an array index |
| PatchLaws.ReplaceIff | crates/forge-contract/src/patch.rs:72-76 | a replace succeeds exactly where the path resolves, which then leads to the value |
| PatchLaws.OperationFrame | crates/forge-contract/src/patch.rs:63-192 | whatever the operation, every place that neither contains the parent of its target nor lies under it is unchanged |
| PatchLaws.FaultIff | crates/forge-contract/src/patch.rs:63-192 | every way an operation can fail and which fault it then reports: the first token that leads nowhere, or why the parent refuses the edit |
| ControlledPatch.ApplyControlledPatch | workers/forge_workers/codesign_runtime.py:248-279 | replaces in order or refuses; a document that is not an object is refused |
| ControlledPatch.EnginesAgree | workers/forge_workers/codesign_runtime.py:242-279 | the replace-only applier accepts a patch exactly when the engine does and every operation reads alike in the document reached by then, and gives the same document |
| ControlledPatch.ReplacesAgree | workers/forge_workers/codesign_runtime.py:258-276 | one replace is accepted exactly when the engine accepts it without an array index that begins with a plus sign |
| ControlledPatch.PlainPathsAgree | workers/forge_workers/codesign_runtime.py:242-279 | on paths below the root, other than "/", with no token that begins with a plus sign both accept the same patches |
| ControlledPatch.OnlyTheEngineAccepts | workers/forge_workers/codesign_runtime.py:242-245 | only the engine accepts the root pointer, the pointer "/" and a signed array index |
| Text.DecimalRoundTrip | crates/forge-contract/src/semver.rs:37-41 | printing a number and reading it back gives the number |
| Semver.VersionRoundTrip | crates/forge-contract/src/semver.rs:13-41 | printing a version and parsing it back gives the version |
| Semver.ParseVersionIff | crates/forge-contract/src/semver.rs:13-35 | a text is a version exactly when it is three fields of decimal digits, each fitting in 64 bits, with dots between them |
| Semver.RangeIsInterval | crates/forge-contract/src/semver.rs:63-81 | every range matches exactly the versions from its base up to a ceiling |
| Semver.RangesAreConvex | crates/forge-contract/src/semver.rs:63-81 | a version between two matching versions matches |
| Lockfile.EachRef | crates/forge-contract/src/lib.rs:901-915 | the references of the equipped variants, then of the motors |
| Lockfile.NewestIsMaximum | crates/forge-contract/src/lib.rs:1020-1031 | the newest match is eligible, none is newer, and there is none only when nothing is eligible |
| Lockfile.PinRefs | crates/forge-contract/src/lib.rs:922-967 | a lockfile of all pins, or all errors in order |
| Lockfile.UpgradeLockfile | crates/forge-contract/src/lib.rs:975-1018 | the fresh lockfile with every movement, or all errors in order |
| Lockfile.ResolveLockfile | crates/forge-contract/src/lib.rs:1041-1082 | the references whose pin is missing, malformed or not in the catalog, in order |
| LockfileTheorems.PinningResolves | crates/forge-contract/src/lib.rs:917-1082 | a successful pinning has exactly the referenced keys, resolves completely and is a fixed point |
| LockfileTheorems.PinningFailsIff | crates/forge-contract/src/lib.rs:922-967 | pinning fails exactly when some reference is malformed, or its pin cannot be kept and no revision is eligible |
| LockfileTheorems.CatalogUpdatesDoNotMove | crates/forge-contract/src/lib.rs:917-953 | while all pins are valid, published and yanked revisions never move a lockfile |
| LockfileTheorems.UpgradePicksNewest | crates/forge-contract/src/lib.rs:975-1031 | upgrading picks the maximum non-yanked match |
| LockfileTheorems.UpgradingSettles | crates/forge-contract/src/lib.rs:970-1018 | an upgraded lockfile resolves, is a fixed point of pinning, and upgrading it again reports no movement |
| LockfileTheorems.MovesAreExact | crates/forge-contract/src/lib.rs:994-1006 | the reported movements are exactly the references whose pin changes, with old and new pin |
| LockfileLaws.ResolveLists | crates/forge-contract/src/lib.rs:1041-1082 | resolving lists exactly the references with no pin, with a pin that has no '@', or with one whose revision the catalog does not have, each with that reason |
| LockfileLaws.UnresolvedInOrder | crates/forge-contract/src/lib.rs:1041-1082 | in the order of the references |
| LockfileLaws.KeepsPinIff | crates/forge-contract/src/lib.rs:932-950 | a pin is kept exactly when it names the same component at a version in range that the catalog still has |
| LockfileLaws.PinOneIs | crates/forge-contract/src/lib.rs:922-1031 | a pin that may be kept stays as it is; otherwise the newest eligible version, or the complaint that nothing matches and then nothing does |
| LockfileLaws.ErrorsIff | crates/forge-contract/src/lib.rs:922-967 | a failed pinning lists exactly the references that cannot be pinned, each with its reason |
| LockfileLaws.RefPartsIff | crates/forge-contract/src/lib.rs:892-899 | a reference is what precedes its last '@' and the range after it, and malformed exactly without an '@' or without a range |
| LockfileLaws.RangeSpellings | crates/forge-contract/src/semver.rs:53-61 | a caret, a tilde and the bare version are read as their own ranges |
| LockfileLaws.RefsAre | crates/forge-contract/src/lib.rs:901-915 | the references are those of the variants that slots have equipped, then those of the motors |
| Migration.NormalizeIsNormal | crates/forge-contract/src/migrations.rs:155-236 | normalising leaves no legacy name or kind anywhere in the tree |
| Migration.NormalizeIsIdempotent | crates/forge-contract/src/migrations.rs:155-236 | normalising twice is normalising once |
| Migration.RecordsNothingIffNormal | crates/forge-contract/src/migrations.rs:155-256 | a pass records nothing exactly when the document is already in normal form |
| Migration.SecondPassRecordsNothing | crates/forge-contract/src/migrations.rs:155-256 | a second pass records nothing |
| Migration.FieldSurvives | crates/forge-contract/src/migrations.rs:238-250 | a field that is not a legacy name, an alias's target among them, keeps its own value whatever the alias holds |
| Migration.FieldMoves | crates/forge-contract/src/migrations.rs:195-250 | a legacy field moves to its new name when that is free and no earlier alias takes it |
| MigrationDocument.NormalizeValue | crates/forge-contract/src/migrations.rs:155-172 | the recursive walk gives the normal form and exactly the labels recorded on the way |
| MigrationDocument.NormalizeEquippedVariants | crates/forge-contract/src/migrations.rs:67-117 | equips the slots or fails; reports an equipped slot exactly when the document changed |
| MigrationDocument.AmbiguousIsRejected | crates/forge-contract/src/migrations.rs:67-117 | fails exactly when a slot has several variants and no choice, naming the first; otherwise each slot is equipped on its own |
| MigrationDocument.Rewrite | crates/forge-contract/src/migrations.rs:51-52 | the normal form with its slots equipped and exactly the labels recorded, or the ambiguous slot |
| MigrationDocument.RewritingTwice | crates/forge-contract/src/migrations.rs:51-52 | rewriting a rewritten document changes nothing and records nothing |
| MigrationReport.Migrate | crates/forge-contract/src/migrations.rs:43-53 | the dropped marker, the labels recorded, that of the marker among them, and the rewritten document, or the ambiguous slot |
| MigrationReport.DroppedIsUnmarkedIff | crates/forge-contract/src/migrations.rs:130-153 | the drop clears root and meta object exactly when neither carries two spellings of the marker |
| MigrationReport.RewritingKeepsMarkers | crates/forge-contract/src/migrations.rs:155-250 | the rewriting after the drop neither adds nor removes a marker |
| MigrationReport.SecondMigrationIff | crates/forge-contract/src/migrations.rs:43-65 | a second migration changes nothing and records nothing exactly when neither the root nor its meta object carried two spellings |
| MigrationReport.ShippedIsMarked | crates/forge-contract/src/migrations.rs:174-223 | the shipped alias tables meet every condition of the theorems and leave the marker and the meta object alone |
| MigrationReport.ShippedMigratesOnceIff | crates/forge-contract/src/migrations.rs:43-65 | so the shipped migration settles after one pass exactly on those documents |
| MigrationReport.TwoSpellingsNeedTwoPasses | crates/forge-contract/src/migrations.rs:145-153 | a concrete document that the second migration still changes |
| MigrationReport.ShippedMarkerGoneIff | crates/forge-contract/src/migrations.rs:145-153 | one pass removes the marker of an object exactly when the object does not carry two spellings of it |
| MigrationLaws.MigrationRecords | crates/forge-contract/src/migrations.rs:43-256 | the label of the marker is reported exactly when the document carried one, that of the slots exactly when one of them takes its only variant, any other exactly when renaming recorded it |
| MigrationLaws.OwnLabelsAre | crates/forge-contract/src/migrations.rs:155-256 | at each object every label stands for its own kind of legacy: a reference name, a field name, a kind |
| MigrationLaws.KindsAre | crates/forge-contract/src/migrations.rs:225-236 | the two renamed kinds, and that every other kind stays |
| MigrationLaws.ShippedReference | crates/forge-contract/src/migrations.rs:174-193 | a mounted component's reference ends up under "ref", any other under "componentRef", and a name already in use keeps its value |
| MigrationLaws.AliasTakes | crates/forge-contract/src/migrations.rs:195-250 | an alias that no earlier one forestalls leaves its new name with its own value or else the old one's, and its old name gone |
| MigrationLaws.SlotIs | crates/forge-contract/src/migrations.rs:67-117 | a slot keeps its choice; one without takes the textual id of its only variant; every other stays |
| MigrationLaws.EquipFailsIff | crates/forge-contract/src/migrations.rs:67-117 | equipping fails exactly when a slot has two or more variants and no choice, and names the first such slot |
| MigrationLaws.MarkerIs | crates/forge-contract/src/migrations.rs:130-153 | the marker of the root comes before that of the meta object, and the spellings in their order |
| Servo.Servo.Step | crates/forge-motion/src/lib.rs:108-114 | the fields after a step are the semi-implicit Euler step of those before |
| Servo.Servo.Settle | crates/forge-motion/src/lib.rs:108-114 | any number of steps toward one target is the iterated step |
| Servo.MapScalesForm | crates/forge-motion/src/lib.rs:108-114 | a step multiplies the form e² + (2ζ−h)·e·u + (1−2ζh)·u² by exactly 1−2ζh |
| Servo.FormDecaysGeometrically | crates/forge-motion/src/lib.rs:108-114 | so does every step of every run toward a constant target |
| Servo.PositiveDefiniteIff | crates/forge-motion/src/lib.rs:85-89 | with a positive rate the form is positive definite exactly when (2ζ+h)² < 4 |
| Servo.ShippedServoSettles | crates/forge-motion/src/lib.rs:85-114 | at 120 Hz with ω in 14..16 and ζ in 0.8..0.85 the squared error after n steps is at most 5.3·0.82ⁿ times the form of the starting state, from any state to any target |
| ServoStability.ServoSettlesIff | crates/forge-motion/src/lib.rs:85-114 | all runs from all states to all targets shrink geometrically in error and velocity exactly when 0 < ζ·h and h² + 4·ζ·h < 4 |
| ServoStability.StableSettles | crates/forge-motion/src/lib.rs:108-114 | under that condition one factor below one bounds every run |
| ServoStability.EnergyDrops | crates/forge-motion/src/lib.rs:108-114 | a step takes exactly (1−r)·(z−y)² from the quadratic energy of two successive velocities |
| ServoStability.LargeRateKeepsAway | crates/forge-motion/src/lib.rs:108-114 | with 1−2ζh of magnitude one or more some run never comes near rest |
| ServoStability.LargeStepKeepsAway | crates/forge-motion/src/lib.rs:108-114 | with a smaller rate but h² + 4·ζ·h at least four some run keeps swinging with at least its first velocity |
| ServoStability.SmallStepIsNotEnough | crates/forge-motion/src/lib.rs:86-114 | with ω = 19, dt = 0.1 and ζ = 0.5 a servo at rest one unit off its target is at least 2ⁿ off after n steps |

## Left out

- Floating point: rounding, NaN and negative zero; geometry, delays and runtimes are over the reals.
- Queue: the event log, provider bookkeeping columns, timestamps other than those that guard a step, the credit ledger, fixture-provider inserts, artifact blobs and policy uploads beyond their success or failure.
- Queue: SQL itself; row locks appear only as the set of rows a claim must skip.
- Batch: canonical text and file handling; evaluation and candidate validation are one function and one predicate.
- Batch.DeriveEvidence: the engine's own counters and the rounding of runtime hours are left out.
- Batch.Refresh: the checkpoint hash and the engine's own counters are left out.
- Batch.ValidateCheckpoint: the checkpoint hash and the fields that are compared with constants are left out.
- Observations: every field except outcome, level, error code and retry delay.
- Bvh.PartBvh.constructor: takes world-space triangles; the vertices are read through the part's matrix in BvhTheorems.Build.
- Bvh.PartBvh.Intersects: the pair test is a parameter; the interval test is put in by BvhTheorems.Collides.
- BvhTheorems.Build: an empty mesh and a trailing group of fewer than three indices, on which the source panics, are not built.
- Skeleton.NodeWorld: transforms are any type with a product; Matrix and Rotations supply the matrices, with sine, cosine and square root as functions that meet their identities.
- Skeleton.NodeWorldWithJoints: the same; the joint rotation is Rotations.AxisAngle.
- Skeleton.NodeWorldPosed: the same; the channel matrices are Rotations.Trs.
- Bake.FullBake: tessellation is a function of geometry and pose; source paths are a datatype, not rendered text.
- Patch.ApplyPatch: reading and printing JSON text is left out and the schema gate is a predicate; documents are values, so update in place through references is not captured.
- Patch.WalkTo: array indices have no upper bound, so an index beyond the machine word is out of bounds rather than malformed.
- ControlledPatch.ApplyControlledPatch: indices are ASCII digits; the check that an operation has exactly its three fields is left out, and of a refusal only that it is one is proved, not which of the messages it carries.
- MigrationDocument.NormalizeValue: works on values rather than in place, and what is recorded is a set, so the order of labels is not captured.
- MigrationReport.Migrate: the final schema check, the target-version argument and the rendering of the marker as text are left out.
- Field-by-field evidence validators, search, simulation, photoscan, commerce, studio and desktop code: long lists of independent checks or foreign libraries.
