# Campaign planning, modelled and proved

A Dafny model of the outreach platform's hardest code, with proofs about it: how a selection of leads becomes
audience members, enrollments and scheduled first emails, and the smaller engines around that.

- **Planning in chunks.** `AudienceCapture`, `Enrollment` and `Rendering` model the three leased, resumable
  worker steps as transition systems whose executions may crash, be redelivered, outlive their lease and overlap.
  `CampaignPlanning` puts the three together, from the frozen candidate list to due times; `PlanningExample` is a small
  campaign that meets its conditions.
- **Pacing.** `WindowCalendar`, `Pacing`, `PacingSpacing`, `RollingDay`, `PacingCaps`: sending windows, slots,
  jitter, clamps, rolling days, round robin, over real seconds.
- **Activation.** `Preflight` and `Activation`: sequence rules, the status machine, idempotent commands.
- **Engines.** `SchedulerSweep` (round-robin dispatcher), `MigrationTokens`, `MigrationCatalog`, `MigrationReadings` and
  `MigrationLint` (migration linter), `Attachments` (files and shared objects), `SampleCsv` and `HeaderMapping` (import dialog), `Trend`
  (daily buckets), `AddPool` (worker pool), `BulkRunner` (savepoints).

`Wrappers`, `Arithmetic` and `PlanningRows` hold shared vocabulary. Code that changes rows or fields in place is a
class whose methods are proved equal to a function of the old state; the theorems are about those functions and
about all runs of them. `dafny verify dfyconfig.toml` checks everything.

## What the proofs found

Where the code falls short of its own documentation, schema or comments, the model follows the code; where it keeps
the promise on some inputs only, the exact condition under which it does is proved.

- **Enrollment can be blocked by one excluded lead.** The enroll step stores the last ordinal it reached as
  `processed_count` (workers/campaigns.py:453-476), but the job's total is the number of accepted members
  (activation_service.py:199-212) and the table checks `processed_count <= total_count`
  (0003_mailboxes_campaigns.sql:563). `Enrollment.CanFinishIff`: an audience can be enrolled if and only if no
  candidate before its last accepted one was excluded or had no address.
- **Progress writes are not guarded by the lease.** Overlapping render executions can leave a READY job with
  unplanned messages, or lose part of the count (`Rendering.OverlapStrandsMessages`, `OverlapLosesCount`). The count
  is right throughout a run exactly when every commit held the stored count (`RunConservesIff`); a READY job leaves
  nothing exactly when all that finishing chunks skipped is handled (`ReadyLeavesNothingIff`); and a chunk may finish
  safely exactly when it holds all that is still unhandled (`FinishIsSafeIff`), which it could check before it commits.
- **Nothing protects a finished job.** Enroll and render jobs stay READY whatever happens exactly when no execution is
  left alive (`Enrollment.ReadyIsFinalIff`, `Rendering.ReadyIsFinalIff`); `Enrollment.LateFailureUndoesReady` is a run
  in which one is, for every audience that can be enrolled.
- **Lead edits between capture chunks** can make a candidate that always had an address count as invalid
  (`AudienceCapture.AddressMovedBetweenChunks`). `KeepsAddressedIff`: every run over a set of lead versions stores
  every candidate addressed in all of them if and only if no address passes from a candidate to one of a later chunk.
- **Daily limit.** The per-mailbox ceiling can overshoot the campaign's limit; it is kept exactly when the shares
  add up to no more, and without binding mailbox caps exactly when the limit divides evenly
  (`PacingCaps.KeepsDailyLimitIff`, `DailyLimitKeptIffDivisible`).
- **Past the horizon** the last window takes every place from its own first one on (`PacingCaps.InLastWindowIff`), so
  it has no cap for any planner or mailbox (`LastWindowIsUnbounded`), and messages keep their order only if it puts
  them all at one moment (`PacingSpacing.OrderKeptIff`).
- **The rolling day.** A mailbox's daily number holds for every stretch of a given length if and only if each slot, at
  its latest, is that long before the same slot of the next window, at its earliest (`RollingDay.RollingCapIff`, for
  every calendar). A first window cut short by a late start can break it: exactly when the first two starts are too
  close (`ClippedFirstWindowCapIff`; an input is `ClippedFirstWindowBreaksRollingDay`).
- **Idempotency keys name no campaign.** A key replayed for another campaign answers success without activating it
  (`Activation.KeyOfAnotherCampaignAnswersSuccess`). Success means that a request under this key activated the
  campaign if and only if the key is new or its receipt names this campaign (`SuccessMeansActivatedIff`).
- **Jitter.** The docstring promises an offset in [0, cap) (pacing.py:99-101); the hash fraction can equal 1, so the
  offset can equal the cap. It stays below exactly when the fraction is below 1 (`PacingSpacing.JitterBelowCapIff`);
  the spacing proofs cover the closed interval.
- **Spacing.** The docstring promises that jitter and clamps keep a mailbox's minimum gap. A calendar keeps it exactly
  when each window has room for the day's slots at the gap and each turn to the next window leaves it
  (`RollingDay.CalendarSpacedIff`, in closed form `LastingWindowsSpacedIff`).
- **Scheduled starts.** docs/architecture/CAMPAIGN_STATE_MACHINE.md:35,48 promises that a SCHEDULED campaign starts
  when its time comes; no code does that (`Activation.ScheduledNeverStartsByItself`). Line 52 of the same page
  promises that resume revalidates mailboxes and schedule; `resume` looks at status and version only, so a resumed
  campaign is ready exactly when the checks it leaves out hold (`ResumedIsReadyIff`).
- **Dispatcher.** The cursor moves before the sends, so a broker failure drops the rest of a slice until the next
  cycle (`SchedulerSweep.RefusedUntilNextCycle`). A campaign that stays eligible is queued once in a cycle if and only
  if the broker never fails before it on a page that holds it (`SentOnceIff`, `FullCycleSentOnceIff`).
- **Attachment limits** are checked before the insert: two simultaneous uploads can exceed them
  (`Attachments.ConcurrentUploadsExceedLimit`; exact condition in `ConcurrentUploadsKeepLimitsIff`).
- **Linter.** An inline reference on an added column is always misread: it passes exactly when the reference that was
  meant would and the table has a column named COLUMN (`MigrationCatalog.InlineReferenceOnAddedColumn`).
- **Trend.** Buckets use the date a timestamp shows in its session: every trend adds up in UTC sessions and in no others
  (`Trend.AddsUpInUtcOnly`), which lose an evening or a morning; one trend adds up exactly when every timestamp shows a
  day of the range (`SentColumnIsTotalIff`). The reply column counts reply rows, the headline counts enrollments
  (`RepliesColumnIsHeadlineIff`).
- **Worker pool.** An empty id ends a worker: the pool processes the non-empty ids up to the empty one that ends the
  last worker (`AddPool.ProcessedUpToCut`, `AllProcessedIff`, `OnlyEmptiesLostIff`).

## Model

| member | source | states |
|---|---|---|
| WindowCalendar.CalendarIsOrdered | backend/app/modules/campaigns/scheduling.py:123-174 | for any days in order, the windows found are ordered, disjoint and never before the campaign start |
| WindowCalendar.OneWindowPerDay | backend/app/modules/campaigns/scheduling.py:154-174 | days with room (allowed, not empty, still open at the campaign start) and windows are one to one and in the same order, each window with its day's own end and its own start unless the campaign starts later; no other day has a window |
| WindowCalendar.Calendar.FindNext | backend/app/modules/campaigns/scheduling.py:154-174 | the next window is appended, or there is none left and the cache is the whole list |
| WindowCalendar.Calendar.Window | backend/app/modules/campaigns/scheduling.py:176-190 | the lazily cached calendar answers from the full list whatever was asked before: the window of the day with room that has `index` such days before it, or of the last one past the end; it fails exactly when no day has room |
| PacingCaps.PerMailboxDailyIsLargest | backend/app/modules/campaigns/pacing.py:73-85 | a mailbox's daily number is at least one, never above its cap, the cap itself without a positive campaign limit, and otherwise the smaller of the cap and the least number with which all mailboxes together reach the limit |
| Pacing.PacingFromPolicies | backend/app/modules/campaigns/pacing.py:49-70 | the loop over limit rows returns the tightest daily cap among long windows, or the default, and the widest spacing |
| Pacing.DailyEquivalentIsConservative | backend/app/modules/campaigns/pacing.py:44-46 | rounding down never lets a daily cap exceed a row's own rate, except for the floor of one |
| PacingSpacing.DueStaysInWindow | backend/app/modules/campaigns/pacing.py:113-135 | every due time is at least a second before its window closes, and inside the window exactly when the window lasts a second |
| PacingSpacing.DueMonotone | backend/app/modules/campaigns/pacing.py:113-135 | due times never decrease with the place in a mailbox's queue, whatever the jitter |
| PacingSpacing.OrderKeptIff | backend/app/modules/campaigns/scheduling.py:176-190 | the first n places keep their order under every jitter if and only if the calendar has a window for each, or its last window puts all its messages at one moment |
| PacingSpacing.OrderLostPastTheHorizon | backend/app/modules/campaigns/scheduling.py:176-190 | for every calendar whose last window has more than one moment: two places just past the horizon and jitters under which the later one is due earlier |
| PacingSpacing.JitterBelowCapIff | backend/app/modules/campaigns/pacing.py:99-110 | where there is jitter at all, the offset stays below its cap if and only if the hash fraction is below one |
| PacingSpacing.SpacingKept | backend/app/modules/campaigns/pacing.py:99-135 | if every window fits a day's messages at the spacing, any two messages of a mailbox are at least the spacing apart, jitter and both clamps included |
| PacingSpacing.WindowSpacedIff | backend/app/modules/campaigns/pacing.py:99-135 | one window of any length keeps the spacing if and only if its last slot, counted at the spacing, starts a second before the window closes, or is the first |
| RollingDay.CalendarSpacedIff | backend/app/modules/campaigns/pacing.py:99-135 | every calendar keeps the spacing between any two messages of a mailbox if and only if each window does and the last slot of each, at its latest, is the spacing before the first slot of the next |
| RollingDay.LastingWindowsSpacedIff | backend/app/modules/campaigns/pacing.py:99-135 | in closed form for windows that last a second: room in each for the slots at the spacing, and neighbouring starts a day's messages at the spacing apart |
| RollingDay.HoldsAtMostIff | backend/app/modules/campaigns/pacing.py:99-135 | for every calendar, spacing, length and n: no stretch of that length holds more than n messages of a mailbox if and only if places n apart are that long apart, the first as late and the second as early as jitter allows |
| RollingDay.RollingCapIff | backend/app/modules/campaigns/pacing.py:99-135 | no stretch holds more than the daily number if and only if each slot at its latest is the length before the same slot of the next window at its earliest |
| RollingDay.GrowingWindowsCapIff | backend/app/modules/campaigns/scheduling.py:154-174 | in closed form for windows that never get shorter: neighbouring starts must be the length apart plus the jitter the first slot can use |
| RollingDay.ClippedFirstWindowCapIff | backend/app/modules/campaigns/scheduling.py:154-174 | a campaign started in mid-window keeps its daily number if and only if its first two windows start far enough apart |
| RollingDay.OneMoreIff | backend/app/modules/campaigns/pacing.py:99-135 | the same exact condition for at most one message more than the daily number |
| RollingDay.AtMostTwice | backend/app/modules/campaigns/pacing.py:99-135 | for any windows, clipped ones included, a stretch that never reaches the next window but one holds at most twice the daily number |
| RollingDay.DayLater | backend/app/modules/campaigns/pacing.py:113-135 | with daily windows of one length, a day's worth of places later the time is a day later up to the jitter |
| RollingDay.RollingDayCap | backend/app/modules/campaigns/pacing.py:99-135 | the case of daily windows of one length: any stretch no longer than a day minus the jitter bound holds at most the daily number |
| RollingDay.AnyDayHoldsOneMore | backend/app/modules/campaigns/pacing.py:99-135 | the case of daily windows of one length: any 86,400 seconds hold at most one message more than the daily number |
| RollingDay.ClippedFirstWindowBreaksRollingDay | backend/app/modules/campaigns/scheduling.py:154-174 | a start ten seconds before the first window closes: four messages within a day at two a day |
| PacingCaps.RoundRobinBijection | backend/app/modules/campaigns/pacing.py:88-96 | mailbox and queue place determine the ordinal and the other way round |
| PacingCaps.AssignedMailbox | backend/app/modules/campaigns/mailbox_assignment.py:9-28 | the mailbox the round robin assigns to an ordinal is the one its place belongs to |
| PacingCaps.Share | backend/app/modules/campaigns/pacing.py:73-85 | a mailbox's share of a window is at least one and within its own daily cap, or the default cap where it has no row |
| PacingCaps.ShareOfOwnCap | backend/app/modules/campaigns/pacing.py:160-169 | the share is the own cap without a positive limit, and otherwise the smaller of it and the least number with which all mailboxes together reach the limit |
| PacingCaps.MailboxesAreApart | backend/app/modules/campaigns/pacing.py:160-172 | planners that agree on a mailbox's row, or on the default where it has none, give its messages the same times, whatever the rows of other mailboxes say |
| PacingCaps.DueAtInItsWindow | backend/app/modules/campaigns/pacing.py:160-172 | the planner's time for a recipient lies in the window its place picks, in the slot that the mailbox's own spacing (or the default) gives |
| PacingCaps.BoxCapPerWindow | backend/app/modules/campaigns/pacing.py:128-131 | over any set of ordinals, a window before the last holds at most the mailbox's share, which is within its own cap |
| PacingCaps.InLastWindowIff | backend/app/modules/campaigns/scheduling.py:176-190 | a recipient's window is the last one if and only if its queue place is at or past that window's first place |
| PacingCaps.LastWindowIsUnbounded | backend/app/modules/campaigns/scheduling.py:176-190 | for every planner, mailbox and number there are so many recipients of the mailbox in the last window |
| PacingCaps.CeilDivBounds | backend/app/modules/campaigns/pacing.py:73-85 | the ceiling overshoots by at most n - 1 and not at all exactly when the limit divides evenly |
| PacingCaps.WindowTotalBound | backend/app/modules/campaigns/pacing.py:73-96 | under a positive limit a window before the last holds at most limit + n - 1 messages of n mailboxes |
| PacingCaps.KeepsDailyLimitIff | backend/app/modules/campaigns/pacing.py:73-85 | the limit holds for every set of recipients if and only if the shares add up to no more |
| PacingCaps.DailyLimitKeptIffDivisible | backend/app/modules/campaigns/pacing.py:73-85 | with caps out of the way the limit is kept if and only if it divides evenly among the mailboxes |
| AudienceCapture.InsertAllFacts | backend/app/modules/campaigns/worker_repository.py:179-216 | the conflict-ignoring insert only adds rows, never two that clash, and every row offered is stored or clashes with a stored one that was there or was offered before it |
| AudienceCapture.CompletedCaptureIsFaithful | workers/campaigns.py:91-296 | every run, with overlaps, crashes and lead edits: one row at most per candidate, each as some chunk saw it, and at completion every candidate has its row, was seen without an address, or lost it to a row of an earlier chunk |
| AudienceCapture.MemberOfIff | workers/campaigns.py:35-42 | exactly which row a candidate gets under one version of the leads: address, revision, standing (archived before suppressed) and frozen variables, and none without an address |
| AudienceCapture.StoredAsSeen | workers/campaigns.py:91-296 | over every run each stored row is a candidate's at its place, with the address, revision and standing some committed chunk saw: accepted exactly if neither archived nor suppressed then, variables frozen only if accepted; at completion a candidate without a row has a reason |
| AudienceCapture.BatchIsAsSeen | workers/campaigns.py:178-215 | the rows of a batch are exactly its candidates with an address, in order, each as that version of the leads shows it |
| AudienceCapture.CommitGives | workers/campaigns.py:168-267 | what a commit does in any state, row by row: which rows it stores, the cursor, count and lease it leaves, when it completes the capture, when it fails it and when it is refused |
| AudienceCapture.CaptureRefinesOnePass | workers/campaigns.py:160-256 | with unchanged leads every run ends in exactly one pass over the frozen list, and is a part of it before |
| AudienceCapture.EstimateIsAddressLess | backend/app/modules/campaigns/audience_service.py:243-268 | total minus accepted minus stored exclusions is exactly the number of address-less candidates |
| AudienceCapture.EstimateCountsRowless | backend/app/modules/campaigns/audience_service.py:243-268 | over every run, whatever becomes of the leads, it is the number of candidates without a row |
| AudienceCapture.KeepsAddressedIff | workers/campaigns.py:178-256 | for any set of lead versions and any batch size: every completing run over them stores every candidate addressed in all of them if and only if no address passes from a candidate to one of a later chunk |
| AudienceCapture.NoPassNoLoss | workers/campaigns.py:178-256 | the sufficient half, for what a completed run has seen, under any overlap |
| AudienceCapture.PassLosesRow | workers/campaigns.py:178-256 | the necessary half: for every address that passes, a run that completes without the row of the later candidate |
| AudienceCapture.AddressMovedBetweenChunks | workers/campaigns.py:178-256 | the smallest example: two leads, two chunks, an addressed candidate without a row |
| AudienceCapture.CaptureCanFinish | workers/campaigns.py:160-296 | from any quiet moment claims and commits lead to a captured audience: no candidate list blocks capture |
| AudienceCapture.ChunkAdvances | workers/campaigns.py:235-267 | a chunk finishes exactly when its slice reaches the end, and otherwise stores a cursor one batch on |
| AudienceCapture.LeaseExcludes | backend/app/modules/campaigns/worker_repository.py:37-80 | over every run, effective claims of different owners are more than the lease's lifetime apart, counted from the last claim or progress write that set it; the stored lease is the one set last |
| AudienceCapture.ClaimStartsIff | backend/app/modules/campaigns/worker_repository.py:37-80 | after any run a claim starts exactly for an unfinished job that is free for this owner, hands out what is stored and takes the lease; otherwise nothing changes |
| AudienceCapture.TerminalAudienceIsImmutable | supabase/migrations/0003_mailboxes_campaigns.sql:912-950 | a completed, failed or abandoned audience never changes, whatever late executions commit |
| AudienceCapture.CaptureTask.constructor | backend/app/modules/campaigns/repository.py:1202-1254 | a capture job starts pending, without cursor or members |
| AudienceCapture.CaptureTask.ClaimJob | backend/app/modules/campaigns/worker_repository.py:37-80 | the claim succeeds exactly for a PENDING or PROCESSING job without a lease, with an expired one or with this owner's, hands out the stored cursor and takes the lease; a refused claim changes nothing |
| AudienceCapture.CaptureTask.FailWith | backend/app/modules/campaigns/worker_repository.py:300-381 | failing or abandoning takes effect while the audience is capturing and never after |
| AudienceCapture.CaptureTask.ClassifyBatch | workers/campaigns.py:35-42 | the classification loop keeps exactly the candidates of the batch that have an address, with their ordinals and as the leads show them |
| AudienceCapture.CaptureTask.InsertMembers | backend/app/modules/campaigns/worker_repository.py:179-216 | the insert loop is the conflict-ignoring insert, row after row |
| AudienceCapture.CaptureTask.CaptureChunk | workers/campaigns.py:168-256 | the imperative chunk is the chunk step of the transition system, refusals included |
| Enrollment.InsertEnrollmentsFacts | backend/app/modules/campaigns/worker_repository.py:574-621 | the insert keeps one enrollment per lead and address, and each row offered is stored or loses to a stored one |
| Enrollment.EnrollmentIsExact | workers/campaigns.py:319-530 | every run: each enrollment is an accepted member's on mailbox (ordinal - 1) mod n with exactly one first message, and once READY every member is enrolled or was found suppressed |
| Enrollment.EnrolledAsCaptured | workers/campaigns.py:400-450 | the same in the words of the rows: an enrollment has its member's lead, address, frozen variables and the mailbox its ordinal's turn gives, messages have their enrollment's, and a READY job left out only the suppressed |
| Enrollment.CommitGives | workers/campaigns.py:387-476 | what a commit does in any state, row by row: the next members above the cursor, the enrollments and messages that are new, cursor, count and lease, and exactly when the job fails and nothing is stored |
| Enrollment.ChunkAdvances | workers/campaigns.py:453-476 | the cursor strictly increases on a full chunk and members above it shrink by the batch |
| Enrollment.LeaseExcludes | backend/app/modules/campaigns/worker_repository.py:387-435 | the same exclusion of leases over every run of this phase |
| Enrollment.ClaimStartsIff | backend/app/modules/campaigns/worker_repository.py:387-435 | the same exact condition for a claim of this phase |
| Enrollment.NoGapMeansContiguous | supabase/migrations/0003_mailboxes_campaigns.sql:563 | the count check fits exactly when the accepted ordinals are 1, 2, ..., n |
| Enrollment.GapNeverReady | workers/campaigns.py:459-476 | an audience with a gap never becomes READY in any run |
| Enrollment.NoGapNeverFails | workers/campaigns.py:459-476 | without a gap no chunk is ever refused |
| Enrollment.CanFinishIff | workers/campaigns.py:453-476 | some run enrolls the audience to the end if and only if it has no gap |
| Enrollment.ExcludedFirstCandidateBlocksEnrollment | backend/app/modules/campaigns/activation_service.py:199-212 | one excluded candidate before an accepted one: the smallest audience that cannot be enrolled |
| Enrollment.ReadyIsFinalIff | backend/app/modules/campaigns/worker_repository.py:1185-1206 | a READY job stays READY under all further events if and only if no execution is left alive |
| Enrollment.LateFailureUndoesReady | backend/app/modules/campaigns/worker_repository.py:1185-1206 | for every audience that can be enrolled, a run from the start in which one execution outlives its lease, another finishes the job, and the failure of the first turns READY into FAILED and leaves the enrollments |
| Enrollment.EnrollTask.ClaimJob | backend/app/modules/campaigns/worker_repository.py:387-435 | the claim succeeds exactly for a PENDING or PROCESSING job without a lease, with an expired one or with this owner's, hands out the stored cursor and takes the lease; a refused claim changes nothing |
| Enrollment.EnrollTask.BuildRows | workers/campaigns.py:400-420 | suppressed members are skipped, the others get their round-robin mailbox, and no mailbox is an error only if somebody needs one |
| Enrollment.EnrollTask.InsertRows | backend/app/modules/campaigns/worker_repository.py:574-621 | the insert loop is the conflict-ignoring insert |
| Enrollment.EnrollTask.EnrollChunk | workers/campaigns.py:387-476 | the imperative chunk is the chunk step of the transition system, the count check included |
| Rendering.Unhandled | backend/app/modules/campaigns/worker_repository.py:724-787 | the fetch offers exactly the messages without a due time that nobody else holds |
| Rendering.DueTimesAgree | workers/campaigns.py:589-668 | however chunks are sized, split, ordered, replayed or overlapped, every written time is the planner's, so no two runs with one planner disagree on a message |
| Rendering.ReadyRunsAgree | workers/campaigns.py:589-668 | any two runs that finish with what they skipped handled leave the very same map from messages to due times, overlaps and different chunk sizes included |
| Rendering.PlannedCount | workers/campaigns.py:646-652 | planning a batch of unhandled messages leaves exactly that many fewer |
| Rendering.FetchGives | backend/app/modules/campaigns/worker_repository.py:724-787 | a fetch holds the first messages in id order that are without a time and held by nobody else, as many as a chunk takes or all, and notes those it passed over |
| Rendering.CommitGives | workers/campaigns.py:607-668 | what a commit does in any state, row by row: the planner's times, count and lease, READY after a short chunk, and exactly when the job fails and nothing is written |
| Rendering.FinishLeavesSkipped | workers/campaigns.py:651-668 | what a finishing chunk leaves unplanned is exactly what it skipped as locked and is still unhandled |
| Rendering.RenderConserves | workers/campaigns.py:646-668 | under an exclusive lease processed_count plus messages to plan is constant through crashes and changing limits, and READY leaves none: each message has a time some chunk's planner gave it |
| Rendering.KeepsCountIff | workers/campaigns.py:652-668 | in every reachable state a commit keeps stored count plus messages to plan if and only if nobody counted since its claim |
| Rendering.LeaseExcludes | backend/app/modules/campaigns/worker_repository.py:387-435 | the same exclusion of leases over every run of this phase |
| Rendering.ClaimStartsIff | backend/app/modules/campaigns/worker_repository.py:387-435 | the same exact condition for a claim of this phase |
| Rendering.RunConservesIff | workers/campaigns.py:652-668 | over whole runs with any overlap, the sum is right throughout if and only if every commit that took effect held the stored count |
| Rendering.ReadyLeavesNothingIff | workers/campaigns.py:646-668 | in any run that ends READY nothing is left to plan if and only if all that finishing chunks skipped as locked is handled by then |
| Rendering.LeftIsSkipped | workers/campaigns.py:646-668 | the same for each finishing commit of any run, whatever state the job ends in |
| Rendering.ExclusiveHandlesSkipped | workers/campaigns.py:646-668 | when executions never overlap, all that finishing chunks of a READY job skipped is handled |
| Rendering.FinishIsSafeIff | workers/campaigns.py:651-659 | a finishing commit leaves nothing when everybody is done, whatever happens after it, if and only if its chunk holds all that is still unhandled |
| Rendering.ReadyIsFinalIff | backend/app/modules/campaigns/worker_repository.py:1185-1206 | a READY render job stays READY under all further events if and only if no execution is left alive |
| Rendering.OverlapStrandsMessages | workers/campaigns.py:646-668 | overlapping leases: a READY job with two messages nobody will ever plan |
| Rendering.OverlapLosesCount | workers/campaigns.py:652-668 | overlapping leases: everything planned, the count one short |
| Rendering.RenderTask.ClaimJob | backend/app/modules/campaigns/worker_repository.py:387-435 | the claim succeeds exactly for a PENDING or PROCESSING job without a lease, with an expired one or with this owner's, hands out the stored count and takes the lease; a refused claim changes nothing |
| Rendering.RenderTask.FetchRows | backend/app/modules/campaigns/worker_repository.py:724-787 | the scan in id order takes exactly the first unhandled messages that nobody locked, up to the limit |
| Rendering.RenderTask.RenderChunk | workers/campaigns.py:607-668 | the commit half of a chunk writes the planner's times and moves the job, or fails it and writes nothing |
| CampaignPlanning.PlanAnswersIff | backend/app/modules/campaigns/scheduling.py:176-190 | the planner has a time for every message if and only if its calendar has a window |
| CampaignPlanning.AudienceIsAcceptedCandidates | workers/campaigns.py:160-256 | leads changing all along: the members enrollment reads are candidates some chunk found accepted, at ordinal index + 1, and, unless an address passed to a later chunk, all candidates accepted throughout |
| CampaignPlanning.MessagesOfMembers | backend/app/modules/campaigns/worker_repository.py:650-688 | every message is on its ordinal's mailbox, belongs to an accepted member, and shares its ordinal with no other |
| CampaignPlanning.EveryCandidatePlannedOnce | workers/campaigns.py:91-718 | in a completed campaign, leads changing all along and renders overlapping as long as skipped messages are handled: each message is an accepted candidate's, one each, on its round-robin mailbox, due at the planner's time; and unless an address passed to a later chunk each candidate accepted throughout was found suppressed or has its message |
| CampaignPlanning.NobodyExcludedIsWrittenTo | workers/campaigns.py:35-42 | in a completed campaign nobody has a message whom every chunk that saw the lead found archived, suppressed or without an address |
| CampaignPlanning.UnchangedLeadsPlannedOnce | workers/campaigns.py:91-718 | with leads that did not change, exactly the accepted candidates are written to, but for those found suppressed |
| CampaignPlanning.MailboxSpacing | backend/app/modules/campaigns/pacing.py:99-172 | across the whole pipeline any two messages of a mailbox are due at least its spacing apart, for every calendar that keeps the spacing |
| CampaignPlanning.MailboxHoldsAtMost | backend/app/modules/campaigns/pacing.py:99-172 | across the whole pipeline any bound on the places of a stretch of time bounds one mailbox's messages due in it |
| CampaignPlanning.MailboxRollingDay | backend/app/modules/campaigns/pacing.py:99-172 | across the whole pipeline no stretch of time holds more than the daily number of one mailbox, if the same slots of neighbouring windows are that long apart |
| CampaignPlanning.WindowNotOverfilled | backend/app/modules/campaigns/pacing.py:73-172 | across the whole pipeline a window before the last has at most each mailbox's share due in it, and at most limit + n - 1 in all |
| CampaignPlanning.ReadyMeansNobodyExcludedBefore | backend/app/modules/campaigns/activation_service.py:199-212 | a READY enrollment implies that the accepted members are the first candidates, none excluded among them |
| PlanningExample.OneLeadCompletes | workers/campaigns.py:91-718 | a campaign of one lead captured, enrolled and rendered to the end: the assumptions of the pipeline theorems can be met |
| Preflight.NoIssuesIff | backend/app/modules/campaigns/preflight.py:84-175 | the sequence checks pass if and only if the sequence has odd length, Email at even and Wait at odd places and sound content |
| Preflight.EndsAndAlternation | backend/app/modules/campaigns/preflight.py:98-124 | starting with Email, ending with Email and alternating is the same as Email at even and Wait at odd places, oddly many |
| Preflight.Report.CheckSequence | backend/app/modules/campaigns/preflight.py:84-175 | the checks append exactly the issues of the sequence to the shared list |
| Preflight.Report.CheckStep | backend/app/modules/campaigns/preflight.py:126-175 | one Email step appends one issue per failed content check, in order |
| Activation.ReachableStatesAreSound | backend/app/modules/campaigns/activation_service.py:53-313 | in every reachable state RUNNING implies the start has come, and an activated campaign has frozen Email-Wait-Email content, exactly one ENROLL and one RENDER job and an activation id of its own; no receipt is pending |
| Activation.StepsOnlyMoveOnward | backend/app/modules/campaigns/activation_service.py:53-313 | each request follows an allowed edge, grows the version on change and never alters an activation, a frozen sequence or a receipt |
| Activation.LongerRunsOnward | backend/app/modules/campaigns/activation_service.py:53-313 | over any further history versions never fall and activations and receipts stay as they are |
| Activation.ActivatedAtMostOnce | backend/app/modules/campaigns/activation_service.py:92-103 | in any history a campaign is activated by at most one request |
| Activation.FirstActivation | backend/app/modules/campaigns/activation_service.py:53-228 | exactly when an activation under a new key succeeds (expected version, draft with well-formed unfrozen content, somebody in the audience, other checks passed, a start with an offset), the status it gives against that start, and everything it writes |
| Activation.ActivationRefusals | backend/app/modules/campaigns/activation_service.py:60-130 | a refused first activation names the first check that fails |
| Activation.RefusalReasons | backend/app/modules/campaigns/activation_service.py:230-313 | a refused pause, resume or archive names the first reason: unknown, wrong status, wrong version |
| Activation.PauseGives | backend/app/modules/campaigns/activation_service.py:230-267 | exactly RUNNING and SCHEDULED campaigns at the expected version become PAUSED; nothing else of the row, and no other row, changes |
| Activation.ResumeGives | backend/app/modules/campaigns/activation_service.py:269-313 | after any history a resumed campaign is RUNNING if its start has come and SCHEDULED if not |
| Activation.PauseThenResume | backend/app/modules/campaigns/activation_service.py:230-313 | pausing and resuming, any time apart: a RUNNING campaign runs again; a SCHEDULED one runs exactly if its start has passed meanwhile |
| Activation.ArchiveGives | backend/app/modules/campaigns/repository.py:236-314 | archiving succeeds exactly for an archived campaign, or one not RUNNING at the expected version; nothing else changes |
| Activation.KeySettled | backend/app/modules/campaigns/activation_service.py:67-82 | after any further history a replay of the key changes nothing, another payload is refused without change, and the first activation still stands |
| Activation.RefusalChangesNothing | backend/app/modules/campaigns/activation_service.py:343-388 | every refused activation leaves the database as it was, and a key is refused exactly when its payload differs |
| Activation.ReceiptNamesActivated | backend/app/modules/campaigns/activation_service.py:343-388 | after any history a receipt names exactly the campaign that a request under its key activated |
| Activation.SuccessMeansActivatedIff | backend/app/modules/campaigns/activation_service.py:73-82 | a success means that a request under this key activated the requested campaign if and only if the key is new or its receipt names that campaign; otherwise the answer is the row as it stands and nothing changes |
| Activation.ResumedIsReadyIff | backend/app/modules/campaigns/activation_service.py:269-313 | in every reachable state resume succeeds exactly for a PAUSED campaign at the expected version whatever the other rows say, and the resumed campaign passes what activation checked exactly when the checks of mailboxes, schedule and settings hold |
| Activation.KeyOfAnotherCampaignAnswersSuccess | backend/app/modules/campaigns/activation_service.py:67-82 | a reachable run: the replay answers success for a campaign that stays a draft |
| Activation.ScheduledNeverStartsByItself | docs/architecture/CAMPAIGN_STATE_MACHINE.md:48 | however far the clock moves, a SCHEDULED campaign stays SCHEDULED until somebody pauses or archives it |
| Activation.ActivationService.ResolveReceipt | backend/app/modules/campaigns/activation_service.py:343-388 | a known key is found or refused, a new one opens a pending receipt |
| Activation.ActivationService.ActivateCampaign | backend/app/modules/campaigns/activation_service.py:53-228 | the whole transaction: receipt, checks in order, freeze, campaign row, two jobs, completed receipt; rolled back on any error |
| Activation.ActivationService.PauseCampaign | backend/app/modules/campaigns/activation_service.py:230-267 | only RUNNING or SCHEDULED at the expected version becomes PAUSED |
| Activation.ActivationService.ResumeCampaign | backend/app/modules/campaigns/activation_service.py:269-313 | PAUSED becomes RUNNING or, before its start, SCHEDULED |
| Activation.ActivationService.ArchiveCampaign | backend/app/modules/campaigns/repository.py:236-314 | archiving is refused while RUNNING and answers the row unchanged when already archived |
| SchedulerSweep.PageFacts | backend/app/modules/scheduler/repository.py:49-77 | a page is the next ids in order; a full one ends at the new cursor, a short one holds all that is left |
| SchedulerSweep.CycleIsFair | workers/scheduler.py:190-224 | to the end of a cycle, while campaigns come and go, nobody is picked twice and whoever stays eligible ahead of the cursor is picked exactly once |
| SchedulerSweep.FullCycle | workers/scheduler.py:190-224 | over a full cycle from no cursor to no cursor, everybody who stays eligible is picked exactly once |
| SchedulerSweep.CycleLength | workers/scheduler.py:208-214 | for a fixed set of N a cycle takes floor(N / limit) + 1 queries and picks the set in order |
| SchedulerSweep.RunsAreApart | workers/scheduler.py:197-202 | any two runs that query or send are at least the interval apart, with nothing assumed of the clock |
| SchedulerSweep.RunsIff | workers/scheduler.py:190-224 | after any visits, one more is a run exactly if the switch is on and no run has passed yet or the last was the interval ago; then it sends the next eligible ids past the cursor until the broker fails, a failed query keeps the cursor; otherwise it changes and sends nothing |
| SchedulerSweep.HealthyBrokerGetsAll | workers/scheduler.py:215-224 | a broker that takes everything gets exactly the picks |
| SchedulerSweep.PicksAreSentOrRefused | workers/scheduler.py:213-224 | to the end of a cycle, for every campaign: its picks are its sends, and one more exactly if the broker failed before it in some run |
| SchedulerSweep.SentOnceIff | workers/scheduler.py:213-224 | a campaign that stays eligible ahead of the cursor is queued exactly once by the end of the cycle if and only if no run of it refuses the campaign |
| SchedulerSweep.FullCycleSentOnceIff | workers/scheduler.py:190-224 | the same over a full cycle, for everybody who stays eligible |
| SchedulerSweep.RefusedUntilNextCycle | workers/scheduler.py:213-224 | a campaign whose send the broker refuses in any run of a cycle is not queued in that cycle |
| SchedulerSweep.SchedulerRuntime.DispatchProgression | workers/scheduler.py:190-224 | gate, query, cursor and sends of one sweep; the other sweep's fields stay |
| SchedulerSweep.SchedulerRuntime.DispatchPersonalization | workers/scheduler.py:226-261 | the twin sweep, on its own fields |
| SchedulerSweep.SchedulerRuntime.Send | workers/scheduler.py:215-223 | the sends are the slice up to the first failure |
| MigrationTokens.SplitsIffBalanced | scripts/check_migrations.py:17-29 | splitting succeeds exactly on balanced input |
| MigrationTokens.DepthCountsParentheses | scripts/check_migrations.py:17-37 | depth is the parentheses opened less those closed |
| MigrationTokens.PiecesJoinBack | scripts/check_migrations.py:17-29 | each piece is balanced with no delimiter outside parentheses, and joining gives back the input up to one trailing delimiter |
| MigrationTokens.SplitOfJoined | scripts/check_migrations.py:17-29 | any such pieces come back from their joined text |
| MigrationTokens.ParensFindsTheMatch | scripts/check_migrations.py:31-37 | the matcher returns the end of the one matching parenthesis, and fails exactly when there is none |
| MigrationTokens.MatchIsUnique | scripts/check_migrations.py:31-37 | a parenthesis has at most one match |
| MigrationTokens.Split | scripts/check_migrations.py:17-29 | the loop over depth, current and result computes the pieces or fails where the depth goes wrong |
| MigrationTokens.Parens | scripts/check_migrations.py:31-37 | the loop returns the slice and the place after it, or fails |
| MigrationTokens.SplitParens | scripts/check_migrations.py:81-82 | splitting never fails on what the matcher returns |
| MigrationCatalog.ConstraintGrows | scripts/check_migrations.py:49-70 | reading a constraint only adds, and a reference recorded without error is resolved at that point |
| MigrationCatalog.StatementsGrow | scripts/check_migrations.py:71-110 | over any statements tables, columns and keys only grow while there is no error, and errors never go away |
| MigrationCatalog.NoFinalErrors | scripts/check_migrations.py:145-151 | one key passes the final checks if and only if its columns exist on both sides and are equally many |
| MigrationCatalog.FinalChecksPassIff | scripts/check_migrations.py:145-151 | the final loop ends clean if and only if every recorded key does |
| MigrationCatalog.InlineReferenceOnAddedColumn | scripts/check_migrations.py:95-101 | ADD COLUMN with an inline reference is recorded under the word COLUMN and passes exactly when the reference that was meant would and the table has a column of that name |
| MigrationReadings.SameKeywordIff | scripts/check_migrations.py:50 | keywords are recognized in any ASCII case, and nothing else is taken for them |
| MigrationReadings.ReadKeyIff | scripts/check_migrations.py:65-70 | the key a constraint declares: the columns in parentheses after UNIQUE, or else after PRIMARY KEY, or the column the text begins with |
| MigrationReadings.ReadReferenceIff | scripts/check_migrations.py:51-59 | the reference a constraint declares: schema, target and columns after REFERENCES, from the columns after FOREIGN KEY or the one the text begins with |
| MigrationReadings.ConstraintReads | scripts/check_migrations.py:49-70 | reading a constraint adds exactly its key and its reference, and no error exactly if the reference is to a key already declared on a table already there, or to auth.users (id) |
| MigrationReadings.ReferenceErrorsSay | scripts/check_migrations.py:60-64 | which errors a reference is reported with when it is read |
| MigrationReadings.FinalErrorsSay | scripts/check_migrations.py:145-151 | which errors the final checks report for a reference, and that they raise exactly if its own table was never created |
| MigrationReadings.CreateReads | scripts/check_migrations.py:78-90 | CREATE TABLE adds its table with the columns, keys and references of its parts, and nothing else |
| MigrationReadings.AlterReads | scripts/check_migrations.py:91-101 | ALTER TABLE adds the columns, keys and references of its ADD parts, and nothing else |
| MigrationReadings.IndexReads | scripts/check_migrations.py:102-110 | an index adds the listed columns as a key exactly if it is unique and has no WHERE; any other index changes nothing |
| MigrationLint.StatementReads | scripts/check_migrations.py:76-110 | every statement adds exactly the tables, keys and references that its tokens declare |
| MigrationLint.CatalogMirrorsStatements | scripts/check_migrations.py:71-110 | after any statements the catalog holds the tables, keys and references that some statement declares, and no others |
| MigrationLint.PlainIndexDeclaresNothing | scripts/check_migrations.py:102-110 | a plain CREATE INDEX declares no key |
| MigrationLint.StatementsFitIff | scripts/check_migrations.py:71-110 | no statement reports an error if and only if each fits after those before it: a new table, or a known one altered, and references that look back |
| MigrationLint.StatementsRaiseIff | scripts/check_migrations.py:71-110 | the exception of the lint: exactly when some statement cannot be read |
| MigrationLint.LintPassesIff | scripts/check_migrations.py:39-151 | a lint of any statements ends clean if and only if each can be read and fits after those before it, and the columns of every reference are declared by statements and equally many |
| MigrationLint.LintIsSound | scripts/check_migrations.py:39-151 | in a clean lint every reference is from and to columns that statements give the tables, equally many, to a table one statement creates and a candidate key one statement declares, or to auth.users (id) |
| MigrationLint.ReferencesLookBack | scripts/check_migrations.py:60-63 | in a clean lint a reference of the first statements is to a table and a key that those statements themselves declare |
| MigrationCatalog.Linter.Reference | scripts/check_migrations.py:51-64 | a reference is recorded with exactly the errors it has at that point |
| MigrationCatalog.Linter.Constraint | scripts/check_migrations.py:49-70 | reference first, candidate key second, or an exception |
| MigrationCatalog.Linter.Create | scripts/check_migrations.py:78-90 | a table's columns, then its parts without references, then those with |
| MigrationCatalog.Linter.Alter | scripts/check_migrations.py:91-101 | the additions of an ALTER TABLE, part after part |
| MigrationCatalog.Linter.Index | scripts/check_migrations.py:102-110 | a unique index without a predicate declares a candidate key, and any other index nothing |
| MigrationCatalog.Linter.Run | scripts/check_migrations.py:71-110 | the loop over the statements |
| MigrationCatalog.Linter.CheckKey | scripts/check_migrations.py:145-151 | the final checks of one key append exactly its errors |
| MigrationCatalog.Linter.FinishChecks | scripts/check_migrations.py:145-151 | the loop over the recorded keys |
| MigrationCatalog.Lint | scripts/check_migrations.py:39-151 | statements, then final checks |
| Attachments.StepsStayWithinLimits | backend/app/modules/campaigns/attachment_service.py:131-261 | after any history every step keeps its three limits, no repeated file in one role, and live objects for all rows |
| Attachments.DeleteIsExact | backend/app/modules/campaigns/attachment_service.py:235-261 | a delete removes exactly one row, and its object exactly when no copy needs it and the bucket answers |
| Attachments.UploadIff | backend/app/modules/campaigns/attachment_service.py:131-233 | exactly what an upload does after any history: answers with the row held, adds one row and one new object, or changes nothing, with the condition of each |
| Attachments.UploadRefusals | backend/app/modules/campaigns/attachment_service.py:131-233 | a refused upload names the first check that fails |
| Attachments.DeleteIff | backend/app/modules/campaigns/attachment_service.py:235-250 | a delete succeeds exactly on a draft Email step that has the row, and a refused one changes nothing |
| Attachments.CopyIsExact | backend/app/modules/campaigns/repository.py:1475-1509 | a copied step is a draft of the same kind with the original's rows and shares its objects; other steps keep their rows |
| Attachments.FrozenStepKeepsRows | backend/app/modules/campaigns/attachment_service.py:115-123 | once a step is outside DRAFT no later event of any history changes its rows |
| Attachments.StepIsLocal | backend/app/modules/campaigns/attachment_service.py:131-261 | an event changes no rows of another step |
| Attachments.UploadTwice | backend/app/modules/campaigns/attachment_service.py:152-166 | the same file again answers with the row already there and changes nothing |
| Attachments.MovedSame | backend/app/modules/campaigns/repository.py:1475-1509 | a copied step has the counts and the weight of the original |
| Attachments.ConcurrentUploadsKeepLimitsIff | backend/app/modules/campaigns/attachment_service.py:167-189 | two uploads checked against the same rows keep the limits if and only if there is room for both |
| Attachments.ConcurrentUploadsExceedLimit | backend/app/modules/campaigns/attachment_service.py:167-189 | six attachments by two uploads at once: the input that shows it |
| Attachments.StepAttachmentService.UploadFile | backend/app/modules/campaigns/attachment_service.py:131-233 | draft and file checks, duplicate, limits, object, row, in that order, with every refusal leaving the rows alone |
| Attachments.StepAttachmentService.DeleteFile | backend/app/modules/campaigns/attachment_service.py:235-261 | row first, then the reference count, then perhaps the object |
| Attachments.StepAttachmentService.ListStep | backend/app/modules/campaigns/repository.py:1310-1327 | the rows of one step in insertion order |
| Attachments.StepAttachmentService.Tally | backend/app/modules/campaigns/attachment_service.py:167-189 | counts per role and total bytes |
| SampleCsv.FieldRoundTrip | frontend/lib/lead-fields.ts:210-213 | any cell, with commas, quotes, CR and LF, reads back as itself |
| SampleCsv.RecordRoundTrip | frontend/lib/lead-fields.ts:237-243 | any row with a cell reads back as itself |
| SampleCsv.ParseOfPrint | frontend/lib/lead-fields.ts:237-243 | any table reads back as itself, rows without cells becoming one empty cell |
| SampleCsv.RoundTripIff | frontend/lib/lead-fields.ts:210-243 | printing loses nothing if and only if there is a row and every row has a cell |
| SampleCsv.PrintInjective | frontend/lib/lead-fields.ts:237-243 | tables that print alike read alike |
| SampleCsv.SampleFileReads | frontend/lib/lead-fields.ts:237-243 | the sample file reads back cell by cell: headings, samples, and second samples where there is one |
| HeaderMapping.ExactMatches | frontend/lib/lead-fields.ts:268-272 | the first pass maps exactly the first header naming each field by an alias |
| HeaderMapping.LooseMatches | frontend/lib/lead-fields.ts:274-283 | the looser pass only fills fields nobody claimed and leaves no header that could still claim one |
| HeaderMapping.FallbackIff | frontend/lib/lead-fields.ts:277-282 | the looser rule, word by word: email before first before last, each only if the word occurs and its field is offered |
| HeaderMapping.AutoMapHeaders | frontend/lib/lead-fields.ts:255-285 | each field has at most one header, the first alias match wins, every named field is claimed |
| HeaderMapping.DuplicateMappedFields | frontend/lib/lead-fields.ts:291-298 | the reported fields are exactly those chosen by two headers |
| HeaderMapping.ColumnsLosslessIff | frontend/lib/lead-fields.ts:287-289 | the inverted mapping keeps every chosen column if and only if no field was chosen twice |
| Trend.CountByDay | backend/app/modules/analytics/repository.py:607-630 | the counter loop counts, for every day, the timestamps that show it |
| Trend.BuildTrend | backend/app/modules/analytics/repository.py:632-647 | every day from start to end exactly once, in order, with its counts |
| Trend.ColumnsAddUp | backend/app/modules/analytics/repository.py:607-647 | each of the three columns adds up to the timestamps that show a day of the range |
| Trend.SentColumnIsTotalIff | backend/app/modules/analytics/repository.py:473-486 | the sent column adds up to the sent count if and only if every timestamp shows a day of the range |
| Trend.UtcSessionAddsUp | backend/app/modules/analytics/service.py:31-81 | under the service's date bounds and a UTC session it always does |
| Trend.AddsUpInUtcOnly | backend/app/modules/analytics/repository.py:607-647 | the sent column of every trend adds up to what was selected if and only if the session is in UTC |
| Trend.EasternSessionLosesEvening | backend/app/modules/analytics/repository.py:607-615 | in any session east of UTC a selected evening shows the next day and is not counted |
| Trend.WesternSessionLosesMorning | backend/app/modules/analytics/repository.py:607-615 | in any session west of UTC a selected morning shows the day before and is not counted |
| Trend.RepliesColumnIsHeadlineIff | backend/app/modules/analytics/repository.py:526-584 | the reply column equals the headline if and only if no enrollment replied twice |
| AddPool.Concurrency | frontend/lib/bulk-add-to-list.ts:16-16 | as many workers as wished, or five, but at least one and no more than ids |
| AddPool.EachLeadOneWorker | frontend/lib/bulk-add-to-list.ts:16-37 | at every await point of every interleaving each id was taken by exactly one worker and processed is succeeded plus failed |
| AddPool.OwnerStays | frontend/lib/bulk-add-to-list.ts:22-24 | no id is handed out again |
| AddPool.CountersAreAnswers | frontend/lib/bulk-add-to-list.ts:25-32 | in every interleaving succeeded and failed are the numbers of good and bad answers, processed of all, and each report counts the answers up to its own |
| AddPool.EachIdCalledOnce | frontend/lib/bulk-add-to-list.ts:22-26 | in every interleaving each non-empty id off the queue is called for exactly once, in the order of the list |
| AddPool.AllProcessedIff | frontend/lib/bulk-add-to-list.ts:22-37 | when all workers have ended every id was processed if and only if none was empty |
| AddPool.ProcessedUpToCut | frontend/lib/bulk-add-to-list.ts:22-37 | when all workers have ended, in every interleaving, the ids taken are those up to the empty id that ends the last worker, or all, and exactly the non-empty ones among them were processed |
| AddPool.CutFacts | frontend/lib/bulk-add-to-list.ts:22-37 | that place is the first with as many empty ids before it as there are workers, or the end |
| AddPool.OnlyEmptiesLostIff | frontend/lib/bulk-add-to-list.ts:22-37 | only empty ids are lost if and only if all ids past that place are empty |
| AddPool.FewEmptyIdsAreSkipped | frontend/lib/bulk-add-to-list.ts:22-37 | fewer empty ids than workers only skip themselves |
| AddPool.PoolEnds | frontend/lib/bulk-add-to-list.ts:22-37 | every event uses up a bounded measure, so the pool ends |
| AddPool.SomethingCanHappen | frontend/lib/bulk-add-to-list.ts:36-36 | while a worker has not ended, some event is possible |
| AddPool.WorkerPool.BeginWorker | frontend/lib/bulk-add-to-list.ts:22-24 | a worker's first segment takes the next id or ends |
| AddPool.WorkerPool.Settle | frontend/lib/bulk-add-to-list.ts:25-32 | the segment after an answer: one counter, processed, one report, next id |
| BulkRunner.ResultsMatchItems | backend/app/modules/bulk/runner.py:33-54 | one result per item, ids in order |
| BulkRunner.AnswersIff | backend/app/modules/bulk/runner.py:33-54 | each item's answer tells how it ended on the state the items before it left, with its own code and message or the fixed words; there is no report exactly if one ends with an error the runner does not catch |
| BulkRunner.PlainRunIff | backend/app/modules/bulk/runner.py:33-58 | the batch is the plain run if and only if every item is ok |
| BulkRunner.EndsLikeOkItems | backend/app/modules/bulk/runner.py:33-54 | the batch ends in the state of running only the ok items in order, each of which succeeds again; refused ones leave no trace |
| BulkRunner.AllOkIsPlainRun | backend/app/modules/bulk/runner.py:33-54 | a batch with every item ok is the plain run |
| BulkRunner.OkCountIsOkItems | backend/app/modules/bulk/runner.py:55-58 | succeeded is the number of items that took effect |
| BulkRunner.Session.RunBulk | backend/app/modules/bulk/runner.py:20-58 | the loop with savepoints: final state, results, counts, and the whole transaction undone when another error escapes |

## Left out

- SQL, row-level security, roles, Celery and the broker: replaced by atomic steps over the rows the repositories read and write.
- Time zones and daylight saving in the calendar: a local day arrives with its window already resolved to instants; seconds are exact reals, so float and microsecond rounding are outside the model.
- Message content: template rendering, digests, HTML, personalization, generation jobs and follow-up steps. A message counts as handled once it has its due time.
- Executions whose activation was superseded: they roll back and write nothing, like a crash.
- Limit rows and settings are read afresh for each render chunk. Conservation holds whatever they are; theorems that compare times of different messages assume that they did not change (`Rendering.FixedPlanner`). The mailboxes themselves are frozen by the database outside DRAFT.
- Enrollment and rendering do not interleave in the model: rendering starts from the messages of a READY enrollment.
- Preflight checks other than the sequence (mailboxes, audience warnings, settings, compliance, personalization) are one yes-or-no input of an activation; what an Email step contains is four yes-or-no facts.
- Activation: two requests with one new key at the same moment (the unique key makes one fail) and permissions; payloads are compared themselves instead of their hashes; erasure of archived campaigns.
- Attachment delete removes the object before the request commits; each call is taken as committing at once. Two calls at the same time appear only in the two lemmas about concurrent uploads.
- Migration linter: tokenizing, and the policy, function, trigger, grant and row-level-security checks, which can only add errors; upper-casing is ASCII.
- CSV: the browser download; Unicode in header normalization, which is a parameter.
- Analytics: rates and their rounding, the other counters, top campaigns, the mailbox health loop.
- Worker pool: a progress callback that throws.
- Bulk runner: errors raised only when a savepoint is released.
- Rendering.RenderConserves: assumes that executions do not overlap, because the lease does not guard the writes; RunConservesIff, ReadyLeavesNothingIff and FinishIsSafeIff give the exact conditions when they do.
- AudienceCapture.CaptureRefinesOnePass: assumes that every resolution of the selection gives the same list and that leads do not change meanwhile; CompletedCaptureIsFaithful and KeepsAddressedIff cover leads that do.
- RollingDay.RollingDayCap: the case of daily windows of one length; RollingCapIff has the exact condition for all calendars.
- CampaignPlanning.MailboxRollingDay: for messages that have windows of their own; past the horizon the last window takes them all (LastWindowIsUnbounded).
