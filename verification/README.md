# Memory service: verified model

The memory service is a collection of small, fenced, replayable state machines over SQL rows, plus a few
algorithms around them. This project models the rows as datatypes and sequences, every service function as an
atomic step (two or more steps where the code reads before it takes the row lock), and proves what those steps
keep over whole runs. A refused or failed call is a step that changes nothing, as a rolled-back transaction does.
Digests, tokens and fingerprints are opaque values of which only equality is used, so distinct inputs are taken to
have distinct digests. The clock is an integer. That it never goes back is assumed only along runs of handoff leases
and of work leases; the feed, the job queue, presence and usage are proved without any assumption about it.

Each state machine appears twice: as a specification (functions from state to state, about which the invariants and
run theorems are proved) and as a class whose methods update the rows in place with the loops of the code, each proved
to compute exactly the specified step.

| file | what it models |
|---|---|
| `Common.dfy` | optional values, clock readings, the classification ladder, character-wise text images |
| `EventFeed.dfy` | the durable event feed: writers under the head-row lock, bounded purge, cursors, catch-up |
| `JobQueue.dfy` | the generation job queue: leases, attempt log, dead letters, redrive, fenced completion |
| `HandoffLease.dfy` | recoverable handoff leases: claim, two-step settlement, renewal, legacy pull, sweep, promotion |
| `Continuity.dfy` | bundles, deliveries and work units, reassignment, checkpoints and erasure, idempotency receipts |
| `Experience.dfy` | reviewed experiences, suppression, and the skills that a trigger invalidates with their sources |
| `Presence.dfy` | observed presence, its idle decisions and their aggregation |
| `Usage.dfy` | the usage ledger, its revision order and the aggregate |
| `SemVer.dfy` | version order, version ranges, policy resolution |
| `Search.dfy` | the budgeted result page with its binary search over excerpt length |
| `Like.dfy` | LIKE escaping against the pattern matcher |
| `Paging.dfy` | keyset paging over a table that changes between pages |

Three properties one might expect are false of the code. The model keeps the code as it is; for each there is a concrete
input on which the property fails and a theorem saying, for all inputs, exactly when it holds:

* "an active experience is never suppressed": `Experience.ActiveCanBeSuppressed` approves one of two equal proposals and
  rejects the other; by `Experience.ActiveSuppressedExactlyWhen` an active row's claim is suppressed exactly when a step
  after its approval condemned the claim and none since has released it;
* "a caret range stays within its breaking line": `SemVer.CaretAdmitsNextPrerelease` has ^1.2.3 accept 2.0.0-rc.1; by
  `SemVer.CaretAccepts` what is accepted outside the line is exactly the prereleases of the range's upper bound;
* "completed work stays completed": in `Continuity.CompletedCanBeCancelled` an administrator
  forgets the checkpoint of a completed unit; by
  `Continuity.CompletedUntilErased` a completed unit is completed as long as its source is not erased and cancelled after.

## Model

| member | source | states |
|---|---|---|
| EventFeed.LowestIsBounded | src/isekai_memory/continuity/events.py:55-69 | one purge removes at most the batch size, and removes something whenever anything is purgeable |
| EventFeed.PurgeKeepsInvariant | src/isekai_memory/continuity/events.py:55-69 | a purge never opens a gap above pruned_through and leaves at most MAX_EVENTS rows, even when created_at is not monotone |
| EventFeed.AppendKeepsInvariant | src/isekai_memory/continuity/events.py:72-89 | an append extends the history by its event and stays within MAX_EVENTS although each purge is bounded |
| EventFeed.StepKeepsInvariant | src/isekai_memory/continuity/events.py:55-89 | begin, append, prune, commit and rollback of interleaved transactions keep the committed rows a gapless suffix of the history |
| EventFeed.RunsKeepInvariant | src/isekai_memory/continuity/events.py:72-89 | along every interleaving the invariant holds and committed history only grows |
| EventFeed.ResetExactlyOnGap | src/isekai_memory/continuity/events.py:165-191 | a position is reset exactly when it is ahead of the head or a later event is missing or expired |
| EventFeed.PageIsComplete | src/isekai_memory/continuity/events.py:165-191 | a page that is not a reset holds exactly the visible history of the positions it passes over, in order, within the limit, and makes progress |
| EventFeed.BigEndianRoundTrip | src/isekai_memory/continuity/events.py:33-52 | the fixed-width position field decodes to the position it encodes |
| EventFeed.CursorRoundTrip | src/isekai_memory/continuity/events.py:27-52 | a cursor gives its position back to its own key and scope within its week, and to nobody else |
| EventFeed.PollIsComplete | src/isekai_memory/continuity/events.py:157-191 | one poll from a cursor returns the visible committed history up to the position of the next cursor |
| EventFeed.CursorCarriesPosition | src/isekai_memory/continuity/events.py:33-52 | what one poll hands out is what the next poll starts from |
| EventFeed.CatchUpIsComplete | src/isekai_memory/continuity/events.py:157-191 | under any interleaving a chain of non-reset pages returns every visible event exactly once in position order |
| EventFeed.PagingIsInvisible | src/isekai_memory/continuity/events.py:165-191 | with unchanged visibility, paging equals one unbounded query |
| EventFeed.EventRows.Purge | src/isekai_memory/continuity/events.py:55-69 | the scanning deletion computes the set-based purge: lowest purgeable positions first, pruned_through raised to the last of them |
| EventFeed.EventRows.Append | src/isekai_memory/continuity/events.py:72-89 | reserving, inserting and purging in place is the specified append |
| EventFeed.ScanFindsLowest | src/isekai_memory/continuity/events.py:55-69 | a scan in position order that stops after n hits has found the n lowest |
| JobQueue.FirstRunnable | src/isekai_memory/generation/queue.py:120-124 | the selected job is runnable and no runnable job precedes it; none is selected exactly when none is runnable |
| JobQueue.StepMoves | src/isekai_memory/generation/queue.py:88-164 | whatever a step does to a job row, attempts never fall, a running attempt is never rewritten in place, a succeeded row never changes, and every change spends potential |
| JobQueue.StepKeepsInvariant | src/isekai_memory/generation/queue.py:88-164 | attempts stay within max_attempts and 30, queued jobs have an attempt left, attempt rows are exactly 1..attempts with an open one only as the last of a running job |
| JobQueue.RunKeepsInvariant | src/isekai_memory/generation/queue.py:88-164 | the row, ticket and proposal invariant holds in every reachable state |
| JobQueue.EveryJobSettles | src/isekai_memory/generation/queue.py:88-164 | across all failures, lost leases and redrives a job row changes at most 69 times |
| JobQueue.OneFencedWorker | src/isekai_memory/generation/queue.py:138-143 | at most one issued ticket of a job passes the fence at any time |
| JobQueue.LostFenceNeverReturns | src/isekai_memory/generation/queue.py:138-164 | over runs, whoever lost the fence - lease run out, attempt superseded, finished or buried, redriven since - never passes it again and changes nothing |
| JobQueue.CompletionIsFirst | src/isekai_memory/generation/worker.py:39-102 | a completion takes effect only for the attempt in progress and never meets an earlier proposal of its job |
| JobQueue.SuccessIsForever | src/isekai_memory/generation/queue.py:88-164 | a succeeded job is never changed again |
| JobQueue.ExactlyOnce | src/isekai_memory/generation/worker.py:39-102 | among overlapping, expired and re-claimed workers one completion takes effect and a job leaves at most one proposal |
| JobQueue.QueuedIsClaimable | src/isekai_memory/generation/queue.py:106-135 | a queued job with nothing runnable before it is claimed next once it is available |
| JobQueue.RetryWaits | src/isekai_memory/generation/queue.py:153-164 | a retry becomes available after its doubled backoff, at most five minutes, and not before |
| JobQueue.JobTable.Drain | src/isekai_memory/generation/queue.py:110-120 | the bounded draining loop buries exactly the first exhausted leases |
| JobQueue.JobTable.Claim | src/isekai_memory/generation/queue.py:106-135 | draining, selecting and leasing in place is the specified claim |
| JobQueue.JobTable.Fail | src/isekai_memory/generation/queue.py:153-164 | a fenced failure requeues or buries the job, an unfenced one changes nothing |
| JobQueue.JobTable.Complete | src/isekai_memory/generation/worker.py:39-102 | the completing transaction undoes its proposal and attempt row when a later fence fails |
| JobQueue.JobTable.Redrive | src/isekai_memory/generation/queue.py:88-103 | a redrive answers its own retry, else needs the dead row at the expected version with budget left |
| HandoffLease.FindReceipt | src/isekai_memory/store/queries.py:365-376 | the probe finds a receipt of that actor and token exactly when there is one |
| HandoffLease.SettleIsFirst | src/isekai_memory/store/queries.py:377-429 | a fresh settlement adds the first receipt of its actor and token, so the conflict clause never fires |
| HandoffLease.StepKeepsInvariant | src/isekai_memory/store/queries.py:219-509 | grants, probes, settlements, pulls, sweeps, renewals and promotions keep row, receipt and grant log consistent |
| HandoffLease.FreshOnlyForLiveOwner | src/isekai_memory/store/queries.py:377-416 | a fresh acknowledgement or rejection is given exactly to the live owner of the current generation, in retention |
| HandoffLease.AlreadyIsBacked | src/isekai_memory/store/queries.py:359-509 | every "already" answer of a run, from the probe or from under the lock, repeats an earlier settlement of that claim, with the same reason, that took effect |
| HandoffLease.RunKeepsInvariant | src/isekai_memory/store/queries.py:219-509 | the invariant holds in every reachable state, with probes and settlements interleaved arbitrarily |
| HandoffLease.ReceiptsAreUnique | src/isekai_memory/store/queries.py:365-509 | one receipt per actor and token, at most one acknowledgement ever, every receipt closing a lease granted to exactly that claim |
| HandoffLease.GenerationsAreGrantedOnce | src/isekai_memory/store/queries.py:290-332 | each generation is granted to one actor and token |
| HandoffLease.ClosedForever | src/isekai_memory/store/queries.py:219-332 | acknowledged, pulled and promoted rows are never owned, settled, pulled, swept or promoted again |
| HandoffLease.OwnershipIsExclusive | src/isekai_memory/store/queries.py:244-332 | while a granted lease has not run out only its owner's own settlement ends it and nobody else is granted the row |
| HandoffLease.LiveLeaseSurvives | src/isekai_memory/store/queries.py:244-332 | no other step shortens or takes a live lease |
| HandoffLease.ViewsAgree | src/isekai_memory/handoff/collaboration_store.py:22-29 | the inbox filter, the derived state and a fresh-token claim agree in every reachable row, and for version 1 rows so does the legacy list |
| HandoffLease.RenewalIsBounded | src/isekai_memory/handoff/collaboration_store.py:69-107 | renewal never shortens, never passes retention or the maximum, and a retried deadline extends nothing further |
| HandoffLease.LeaseIsBoundedFromLastGrant | src/isekai_memory/handoff/collaboration_store.py:69-107 | over runs a lease ends at most the configured maximum after the grant or renewal that last changed it, however often it was renewed |
| HandoffLease.HandoffTable.AcquireLease | src/isekai_memory/store/queries.py:244-332 | the branches of the claim, updating the row in place, are the specified step |
| HandoffLease.HandoffTable.Pull | src/isekai_memory/store/queries.py:219-241 | the legacy pull in place is the specified step |
| HandoffLease.HandoffTable.RenewLease | src/isekai_memory/handoff/collaboration_store.py:69-107 | renewal in place is the specified step |
| HandoffLease.HandoffTable.PromoteRow | src/isekai_memory/continuity/delivery.py:87-118 | promotion in place closes the row to the handoff protocol exactly when the specification does |
| HandoffLease.HandoffTable.SettleLocked | src/isekai_memory/store/queries.py:377-429 | the row-locked half of acknowledgement and rejection writes row and receipt as specified |
| Continuity.ClaimKeepsInvariant | src/isekai_memory/continuity/work.py:38-70 | a claim keeps the joint invariant; both uniqueness constraints of the claim table are out of reach |
| Continuity.RenewKeepsInvariant | src/isekai_memory/continuity/work.py:73-84 | a renewal keeps the lease of a claimed unit inside bundle retention |
| Continuity.ReleaseKeepsInvariant | src/isekai_memory/continuity/work.py:87-101 | a release is its live owner's, leaves no owner, token or lease behind, keeps generation and claim rows, and touches no other unit |
| Continuity.FreshBundleInvariant | src/isekai_memory/continuity/delivery.py:119-128 | publication establishes the joint invariant: distinct keys, one delivery per recipient, assignees among recipients |
| Continuity.RevokeKeepsInvariant | src/isekai_memory/continuity/checkpoints.py:90-99 | erasure cancels every unit and revokes every delivery and keeps the invariant |
| Continuity.DeliveriesFollowRequest | src/isekai_memory/continuity/delivery.py:215-222 | after rerouting exactly the requested recipients receive, each once |
| Continuity.ReassignKeepsInvariant | src/isekai_memory/continuity/delivery.py:166-222 | reassignment keeps the joint invariant and never hits the one-delivery index |
| Continuity.KeysStayUnique | src/isekai_memory/continuity/delivery.py:209-214 | existing and added units never share a key after a reassignment |
| Continuity.ReroutingFences | src/isekai_memory/continuity/delivery.py:189-208 | each old unit is untouched or moved to a new generation without owner, on the requested terms if still listed and cancelled if not |
| Continuity.StaleSelectionIsRefused | src/isekai_memory/continuity/work.py:38-57 | a claim naming any routing version or generation but the current one is refused, except the exact retry of a live claim |
| Continuity.ClaimGrantedExactlyWhen | src/isekai_memory/continuity/work.py:38-70 | a claim is granted exactly when the policy is on, the caller is an assignee in a retained bundle, the selection is current, the unit is available or its lease ran out, and the token is new |
| Continuity.ReachableClaimGrantedExactlyWhen | src/isekai_memory/continuity/work.py:38-70 | the same equivalence for every bundle of every reachable state |
| Continuity.WorkLeaseIsBounded | src/isekai_memory/continuity/work.py:55-84 | work leases stay within retention and policy, and a retried renewal extends nothing more |
| Continuity.LatestIsCount | src/isekai_memory/continuity/checkpoints.py:46-50 | the latest version of an author's work is the number of its checkpoints |
| Continuity.LatestClassIsHighest | src/isekai_memory/continuity/checkpoints.py:46-52 | no checkpoint of a line of work is classified above its latest one |
| Continuity.SaveKeepsCheckpoints | src/isekai_memory/continuity/checkpoints.py:35-69 | saving at the expected version keeps versions dense and classification from falling |
| Continuity.StepKeepsInvariant | src/isekai_memory/continuity/common.py:56-84 | every mutation, behind its idempotency receipt, keeps the project invariant |
| Continuity.RunKeepsInvariant | src/isekai_memory/continuity/delivery.py:70-222 | the joint invariant of units, deliveries, claims, checkpoints and bundles holds in every reachable state |
| Continuity.UnitsEvolve | src/isekai_memory/continuity/delivery.py:183-208 | units are never deleted, generations and claim rows only grow, closed work is never claimed again and cancelled work stays cancelled |
| Continuity.CompletedCanBeCancelled | src/isekai_memory/continuity/checkpoints.py:96-99 | a concrete run - save, publish, claim, complete, an administrator's forget - after which a completed unit is cancelled |
| Continuity.CompletedStep | src/isekai_memory/continuity/checkpoints.py:83-99 | one step leaves a completed unit completed unless it is an administrator's first erasure of the unit's checkpoint, which cancels it |
| Continuity.CompletedUntilErased | src/isekai_memory/continuity/checkpoints.py:83-99 | over runs a completed unit is still completed exactly when no step has erased its checkpoint, and for good over a promoted handoff |
| Continuity.GenerationsAreFenced | src/isekai_memory/continuity/work.py:55-70 | over a whole run each generation goes to one actor and token, and no pair gets two generations |
| Continuity.OwnershipIsExclusive | src/isekai_memory/continuity/work.py:30-70 | an unexpired lease ends only by a release of its owner, a confirmed takeover naming it, or an erasure that took effect; refused attempts end nothing |
| Continuity.LostClaimNeverReturns | src/isekai_memory/continuity/work.py:30-35 | whoever lost a claim never passes its fence again |
| Continuity.PromotedIsFrozen | src/isekai_memory/continuity/delivery.py:87-118 | after promotion every step of the lease protocol, arbitrarily interleaved, leaves the handoff's row, receipts and grants unchanged |
| Continuity.ReceiptsAreForever | src/isekai_memory/continuity/common.py:67-84 | an idempotency receipt is never altered or removed |
| Continuity.KeyAppliesOnce | src/isekai_memory/continuity/common.py:67-84 | a key takes effect once; later uses change nothing and, authority permitting, repeat the answer exactly when the request is the same |
| Continuity.ValidateUnits | src/isekai_memory/continuity/delivery.py:36-41 | the loop with its growing key set accepts exactly the lists with distinct keys and assignees among the recipients |
| Continuity.BundleRows.constructor | src/isekai_memory/continuity/delivery.py:119-128 | the two insertion loops create one delivery per recipient and one available unit per specification |
| Continuity.BundleRows.Claim | src/isekai_memory/continuity/work.py:38-70 | the branches of the claim in place are the specified step |
| Continuity.BundleRows.Renew | src/isekai_memory/continuity/work.py:73-84 | renewal in place is the specified step |
| Continuity.BundleRows.Release | src/isekai_memory/continuity/work.py:87-101 | release in place is the specified step |
| Continuity.BundleRows.Reassign | src/isekai_memory/continuity/delivery.py:166-222 | the loops of reassignment, undone on refusal, are the specified step |
| Continuity.BundleRows.RerouteUnits | src/isekai_memory/continuity/delivery.py:191-208 | the unit loop applies to each unit its own fate, or nothing at all when one refuses |
| Continuity.BundleRows.RouteDeliveries | src/isekai_memory/continuity/delivery.py:215-221 | absent recipients are revoked and newcomers inserted once each |
| Continuity.BundleRows.Revoke | src/isekai_memory/continuity/checkpoints.py:90-99 | the erasing loops reach every delivery and every unit |
| Experience.FindKey | src/isekai_memory/experience/submissions.py:47-57 | the idempotency lookup finds a proposal of that author and key exactly when there is one |
| Experience.TouchKeepsSkills | migrations/versions/007_reviewed_skills.py:98-122 | whatever an update does to an experience row, the trigger keeps skills in agreement with their sources |
| Experience.ReviewKeepsInvariant | src/isekai_memory/experience/lifecycle.py:42-99 | an applied review keeps lineage, event logs and skills consistent |
| Experience.ProposeKeepsInvariant | src/isekai_memory/experience/submissions.py:58-123 | a proposal joins the family of its parent with the next number and no lower classification |
| Experience.SubmitKeepsSkills | src/isekai_memory/skills/submissions.py:57-102 | an accepted submission binds exactly the approved versions it names, is numbered one above every revision of its skill, founds only skills of a new name, and starts pending on the captured base; any other changes nothing |
| Experience.ReviewSkillKeepsSkills | src/isekai_memory/skills/lifecycle.py:21-57 | reviewing a skill replaces the active revision atomically and keeps active_revision right |
| Experience.RunKeepsInvariant | src/isekai_memory/experience/lifecycle.py:23-143 | the joint invariant of experiences, skills, revision logs, submission keys and skill names holds in every reachable state |
| Experience.ApprovedNumbersAreUnique | src/isekai_memory/experience/submissions.py:58-123 | two approved members of a family with one revision number are one row |
| Experience.HistoryIsLinear | src/isekai_memory/experience/lifecycle.py:60-99 | the ever-approved members of a family form one path 1, 2, 3, ... with classification never falling, and only its last can be active |
| Experience.LogExplainsRow | src/isekai_memory/experience/lifecycle.py:23-39 | folding a row's event log from pending gives exactly its status and version, with events dense from 2 |
| Experience.SkillsAgree | migrations/versions/007_reviewed_skills.py:98-122 | pending and active revisions stand on experiences active at the bound versions, forgotten experiences leave only erased revisions, and active_revision names the unique active revision |
| Experience.RevisionsOnlyExtend | migrations/versions/007_reviewed_skills.py:85-97 | a submitted revision never changes but for status, version, erasure and log, and its log only grows |
| Experience.LogExplainsRevision | src/isekai_memory/skills/lifecycle.py:9-18 | folding a revision's event log from pending gives its status and version, events dense and legal; only manual revisions are ever active, and erased means forgotten |
| Experience.SkillReviewReplays | src/isekai_memory/skills/lifecycle.py:30-34 | an applied skill review is a durable receipt: the same call later changes nothing and repeats its answer |
| Experience.SubmissionAppliesOnce | src/isekai_memory/skills/submissions.py:59-66 | a submission key takes effect once; later uses change nothing and are answered by the first revision exactly for the same content |
| Experience.RowsOnlyExtend | src/isekai_memory/experience/lifecycle.py:23-99 | what was submitted never changes along a run, content is gone exactly when forgotten, and a forgotten row never changes |
| Experience.ReviewReplays | src/isekai_memory/experience/lifecycle.py:52-59 | an applied review is a durable receipt: the same call later changes nothing and repeats its answer |
| Experience.ProposalAppliesOnce | src/isekai_memory/experience/submissions.py:46-57 | a proposal key takes effect once, even after the experience was forgotten |
| Experience.SuppressionSteps | src/isekai_memory/experience/persistence.py:37-53 | a claim is suppressed after a step exactly when the step condemned it or it was suppressed and not released; every change raises the version |
| Experience.AdmittedIsUnsuppressed | src/isekai_memory/experience/persistence.py:23-34 | approvals and fresh proposals need an unsuppressed claim and leave it unsuppressed, title-only corrections included |
| Experience.SuppressedUntilReleased | src/isekai_memory/experience/persistence.py:23-53 | between a suppression and its release nothing with that claim is approved or freshly proposed |
| Experience.StaleReleaseIsInert | src/isekai_memory/experience/lifecycle.py:102-143 | retrying a release never lifts a newer suppression |
| Experience.ActiveCanBeSuppressed | src/isekai_memory/experience/lifecycle.py:73-90 | a concrete run after which an active experience has a suppressed claim |
| Experience.SuppressedExactlyWhenCondemned | src/isekai_memory/experience/lifecycle.py:73-90 | after an approval or fresh proposal the claim is suppressed exactly when a later step condemned it and none since released it |
| Experience.ActiveSuppressedExactlyWhen | src/isekai_memory/experience/lifecycle.py:73-143 | every active row of a run was approved by some step, and its claim is suppressed exactly when a step after it condemned the claim and none since released it |
| Experience.Library.Update | migrations/versions/007_reviewed_skills.py:98-122 | the trigger's loop over bound revisions, in place, invalidates exactly the bound ones and clears active_revision where they held it; every caller has to pass the content guard |
| Experience.Library.ReviewExperience | src/isekai_memory/experience/lifecycle.py:42-99 | the statements of review, in order and in place, are the specified step |
| Experience.Library.ProposeExperience | src/isekai_memory/experience/submissions.py:25-123 | the proposal in place is the specified step |
| Experience.Library.Release | src/isekai_memory/experience/lifecycle.py:102-143 | the release in place is the specified step |
| Experience.Library.SubmitRevision | src/isekai_memory/skills/submissions.py:57-102 | idempotency lookup, source capture, latest-revision, scaffold and name checks and the insertion, in place, are the specified step |
| Experience.Library.ReviewRevision | src/isekai_memory/skills/lifecycle.py:9-57 | the skill review in place, superseding before activating, is the specified step |
| Presence.AcceptedIsJustified | src/isekai_memory/continuity/presence_state.py:29-40 | the new start times are those the extended history of reports justifies |
| Presence.ReachableIsJustified | src/isekai_memory/continuity/presence.py:181-222 | every reachable row is justified by its history of accepted reports |
| Presence.IdleIsWitnessed | src/isekai_memory/continuity/presence_state.py:43-84 | idle for n seconds is witnessed by an unbroken stretch of identical idle reports that began exactly n seconds ago |
| Presence.DefensiveOutcomesUnreachable | src/isekai_memory/continuity/presence_state.py:67-79 | the inconsistent-report and interval-unknown answers never occur for rows the service produced |
| Presence.LeastIdleIsLeast | src/isekai_memory/continuity/presence_state.py:87-110 | the reported idle time is attained by an open session and bounds that of every other |
| Presence.AggregateIsConservative | src/isekai_memory/continuity/presence_state.py:87-110 | a scope is idle exactly when evidence is complete and every open session is idle; uncertainty forbids the answer |
| Presence.ScopeIsIdleExactlyWhen | src/isekai_memory/continuity/presence_state.py:43-110 | from rows to answer: a scope is idle exactly when evidence is complete, a session is open, and every open session has been idle for the threshold |
| Presence.SessionRow.Report | src/isekai_memory/continuity/presence.py:181-222 | the heartbeat in place is the specified step, refusals in the same order |
| Presence.SessionRow.Finish | src/isekai_memory/continuity/presence.py:225-242 | ending in place is the specified step |
| Presence.SessionRow.Prune | src/isekai_memory/continuity/presence.py:245-265 | retirement in place is the specified step |
| Presence.SweepIsBounded | src/isekai_memory/continuity/presence.py:245-265 | a retention sweep keeps every session justified, retires only outdated sessions, the longest unheard first and no more than its limit, and leaves none when it stayed below it |
| Presence.SessionTable.Sweep | src/isekai_memory/continuity/presence.py:255-264 | the bounded sweep, in place, retires the first outdated sessions and reports how many |
| Usage.NormalizeDerivesOnlyTotals | src/isekai_memory/continuity/usage_metrics.py:85-95 | a snapshot without a total is accepted exactly when its parts are consistent and a derived sum is representable; nothing else is invented |
| Usage.ValidateRevision | src/isekai_memory/continuity/usage_metrics.py:98-113 | the early-exit loop accepts exactly the snapshots that supersede every previous counter |
| Usage.RevisionIsPreorder | src/isekai_memory/continuity/usage_metrics.py:98-113 | revision is reflexive and transitive, and two snapshots revise each other only when all known counters are equal |
| Usage.RunKeepsInvariant | src/isekai_memory/continuity/usage.py:163-229 | receipts of a session are totally ordered by revision and the row is always the last of them |
| Usage.LatestDominates | src/isekai_memory/continuity/usage.py:185-219 | the latest metrics revise every report ever accepted; completeness and finality are sticky with a pinned bucket and source; completion is announced once |
| Usage.ReplayIsInert | src/isekai_memory/continuity/usage.py:174-182 | an accepted report is answered with its receipt ever after, and the same sequence with other content is refused |
| Usage.GuardNeverFires | migrations/versions/012_usage.py:48-74 | every update the service makes passes the row trigger |
| Usage.UsageRow.Check | src/isekai_memory/continuity/usage.py:163-199 | the guards, in the order of the code, decide whether a report is taken |
| Usage.UsageRow.Submit | src/isekai_memory/continuity/usage.py:163-229 | a report in place is the specified step |
| Usage.UsageRow.Forget | src/isekai_memory/continuity/usage.py:232-250 | retention in place is the specified step |
| Usage.SweepIsBounded | src/isekai_memory/continuity/usage.py:232-250 | a retention sweep prunes only outdated sessions, the oldest first and no more than its limit, and leaves none when it stayed below it |
| Usage.SweepKeepsInvariant | src/isekai_memory/continuity/usage.py:232-250 | a sweep keeps every session's invariant and all of its receipts |
| Usage.SessionTable.Sweep | src/isekai_memory/continuity/usage.py:241-250 | the bounded sweep, in place, prunes the first outdated sessions and reports how many |
| Usage.SumOfParts | src/isekai_memory/continuity/usage_metrics.py:116-142 | every figure of the aggregate distributes over concatenation |
| Usage.OrderIsIrrelevant | src/isekai_memory/continuity/usage_metrics.py:116-142 | every figure of the aggregate is invariant under permutation |
| Usage.EveryUnitOnce | src/isekai_memory/continuity/usage_metrics.py:116-142 | for each field reported, estimated and unavailable units add up to the number of units |
| Usage.UnknownAddsNothing | src/isekai_memory/continuity/usage_metrics.py:128-132 | a total is that of the units which know the field, and their number is the known count; an unknown counter adds nothing |
| Usage.TokensAreBounded | src/isekai_memory/continuity/usage_metrics.py:128-132 | a total never exceeds the token bound times the number of units that know the field |
| Usage.EveryOmissionExplained | src/isekai_memory/continuity/usage_metrics.py:136-141 | the reason counts add up to the missing counters |
| Usage.AggregateIgnoresOrder | src/isekai_memory/continuity/usage_metrics.py:116-142 | two aggregates of the same units in any order are equal |
| Usage.Aggregate | src/isekai_memory/continuity/usage_metrics.py:116-142 | the loops compute every figure, and an oversized set is refused |
| SemVer.NumbersAreInjective | src/isekai_memory/registry/policy.py:33-35 | without leading zeros a numeric identifier has one spelling, so comparing values never ties distinct ones |
| SemVer.OrderIsTotal | src/isekai_memory/registry/policy.py:38-61 | section 11 of Semantic Versioning 2.0.0: precedence is a strict total order whose ties are build-ignoring equality |
| SemVer.RangeIsConvex | src/isekai_memory/registry/policy.py:81-107 | every range expression accepts an interval of versions |
| SemVer.CaretAccepts | src/isekai_memory/registry/policy.py:84-92 | for every version a caret is given: later versions of the same breaking line, and outside it exactly the prereleases of the upper bound |
| SemVer.TildeAccepts | src/isekai_memory/registry/policy.py:93-96 | the same for tilde ranges, with only a major or with a minor given |
| SemVer.CaretAdmitsNextPrerelease | src/isekai_memory/registry/policy.py:84-92 | ^1.2.3 accepts 2.0.0-rc.1 and ^0.2.3 accepts 0.3.0-rc.1 |
| SemVer.SortIsPermutation | src/isekai_memory/registry/policy.py:133-137 | the sort is descending and loses or repeats no candidate |
| SemVer.SelectionIsBest | src/isekai_memory/registry/policy.py:133-146 | sorting and taking the first match selects the newest satisfying candidate, the first listed among equals, and nothing exactly when nothing satisfies |
| SemVer.ResolvePolicies | src/isekai_memory/registry/policy.py:114-158 | the loop with its seen set and early failure computes the resolution by first applicable policies |
| SemVer.FirstMatchDecides | src/isekai_memory/registry/policy.py:122-157 | at most one version per artifact and kind, in the result exactly when the first applicable policy requires it and it is the best in range |
| SemVer.FailsExactlyOnBrokenPolicy | src/isekai_memory/registry/policy.py:129-142 | resolution fails exactly when a deciding required policy has a bad range or candidate, and names the first |
| Search.EscapeRoundTrip | src/isekai_memory/retrieval/citations.py:23-24 | a client reads back from the JSON string exactly what was quoted |
| Search.SizeIsMonotone | src/isekai_memory/retrieval/citations.py:31-54 | a longer excerpt always makes a longer item, whatever escapes it needs |
| Search.Fit | src/isekai_memory/retrieval/service.py:59-76 | the binary search finds the longest excerpt that fits, and fails exactly when nothing non-empty fits |
| Search.OnlyLastIsClipped | src/isekai_memory/retrieval/service.py:58-78 | once an item is clipped nothing more fits, so only the last item of a page is ever clipped |
| Search.BuildPage | src/isekai_memory/retrieval/service.py:55-88 | result_chars is the length of the compact JSON array and never exceeds the budget; truncated says exactly whether something was clipped or left out |
| Search.GreedyPageIsUnique | src/isekai_memory/retrieval/service.py:55-78 | rows and budget determine the page |
| Search.BiggerBudgetShowsMore | src/isekai_memory/retrieval/service.py:55-78 | a larger budget shows at least as many items, the same rows in the same places, each quoted at least as far |
| Search.ClippedItemIsBound | src/isekai_memory/retrieval/citations.py:31-54 | a clipped item still decodes to a prefix of the content, bound by both digests |
| Like.ReplacesAreOneEscape | src/isekai_memory/projects/records.py:77-78 | the three successive replacements escape each character exactly once |
| Like.OrderOfReplacementsMatters | src/isekai_memory/projects/records.py:77-78 | the same replacements in another order would not |
| Like.Parse | src/isekai_memory/store/sqlite_functions.py:53-66 | the one-pass parser with its flag computes the parts of the pattern |
| Like.RunMatchesAnyPrefix | src/isekai_memory/store/sqlite_functions.py:64-67 | a percent sign matches any stretch of text |
| Like.ParseUndoesEscape | src/isekai_memory/store/sqlite_functions.py:53-67 | parsing an escaped query gives its characters back as literals, whatever follows |
| Like.SearchIsSubstring | src/isekai_memory/projects/records.py:77-88 | the listing's pattern matches exactly the texts in which the query occurs, up to the letter relation |
| Paging.PageIsGapless | src/isekai_memory/experience/pagination.py:42-47 | a page shows every row between its cursor and the next one, newest first |
| Paging.NothingTwice | src/isekai_memory/experience/repository.py:33-43 | no row is shown twice on a walk, however the table changes between pages |
| Paging.NothingSkipped | src/isekai_memory/experience/repository.py:33-43 | a row present at every request of a completed walk is shown, and nothing is shown that was never there |
| Paging.QuietWalkShowsTable | src/isekai_memory/experience/pagination.py:42-47 | on an unchanging table a completed walk is the table |

## Left out

- EventFeed.CursorRoundTrip: the authenticated encryption is taken as a constructor that only its own key opens; its byte format is not modelled.
- EventFeed.CatchUpIsComplete: visibility is an arbitrary predicate of event, reader and time; the joins that compute it are not modelled.
- Experience.RowsOnlyExtend: title, content and tags are known only by their digest and by whether they were erased.
- Presence.SessionRow.Prune: one session only; which sessions a sweep picks is Presence.SessionTable.Sweep.
- Usage.UsageRow.Forget: one session only; which sessions a sweep picks is Usage.SessionTable.Sweep.
- Continuity.StepKeepsInvariant: the order in which recipients and assignees are stored is not modelled, only who they are.
- Experience.SubmitKeepsSkills: conditions on the handoff rows behind a binding enter as one boolean, and the classification of skills is not modelled.
- Experience.ReviewSkillKeepsSkills: the body of a revision is known by the digest of its authored parts; source watermarks are not modelled.
- SemVer.OrderIsTotal: starts from parsed versions; the regular expressions of the parser, including non-ASCII digits in the core numbers, are not modelled.
- SemVer.ResolvePolicies: the outcome of matching a project against a policy's pattern is a field of the policy.
- Usage.Aggregate: the sorted listing of estimate methods is a set.
- Usage.UsageRow.Submit: project-wide and per-minute limits enter as one boolean; registration, classification and the parent session are not modelled.
- Search.BuildPage: the database ranking that produces the rows, query normalisation and the time budget are not modelled.
- Like.SearchIsSubstring: PostgreSQL's own matcher and the full-text alternative of the query are not modelled.
- Paging.NothingTwice: the base64 and JSON form of a cursor and its scope check are not modelled.
- Presence registration limits, the rows of the presence and usage policies, and usage periods are not modelled.
- Reading operations that only build an answer (get_claimed_handoff, continuity overview and reads, usage reads): no state to keep.
- Enqueueing of generation jobs and the content of summaries and proposals: the queue proofs hold for any work.
- HTTP, MCP and stdio transport, JSON schema validation, the command line, identity providers, token hashing: plumbing or foreign cryptography.
- SQL translation, connection pools, savepoints and statement timeouts: represented only as atomic steps, row locks and rollback.
- Registry listing, grants, knowledge, feedback, exports and imports are not modelled.
- Authority: the admin scope of reassignment, erasure and promotion is modelled; the read and write scopes, the binding of a token to its project, and the admin scope of policy changes, reviews and sweeps are not.
