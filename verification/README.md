# Verification of the check-in platform's concurrent and batch logic

A Dafny model of the parts of the platform that are hardest to get right by reading: the attendance engine of the
check-in server, the offline queue of the kiosk, the rate limiter, the three paged batch jobs (alert relay, admin
replay, post-event mail), and role writes under concurrent transactions. Database tables are maps and sequences, times
are integers (milliseconds on the server), and locks, statements and network answers are explicit steps wherever a
claim is about interleaving. Code that changes state in place is written as classes and loops and proved against a
specification; the main results are then proved about that specification, for every input, run or interleaving.

`dafny verify dfyconfig.toml` checks the whole project.

## What is proved

* **One stay, many rows** (`AttendanceTransitions`). What a chunked check-out records is the one and only timeline from
  its start to the capped departure: positive pieces, no hole, each instant credited to the last event to have started.
  The record starts at the arrival if and only if at most one event had started before it; otherwise the cursor
  assignment moves it back to the second event's start (arrive 10, events from 8 and from 9, leave 14: one row from 9).
* **Pile-ups** (`AttendanceConflicts`). The one-pass sweep reports exactly the connected components of the overlap graph
  if and only if every zero-length visit that it would swallow overlaps something; always so for positive-length or open
  visits. The rows of one check-out never come back as a conflict.
* **Closing the building** (`ScanService`, `ScanRuns`, `CloseProtocol`). The request handlers are proved against one
  decision rule; over every run of requests a close over other people's heads takes the token of the latest warning
  given on that same open visit (or a queued scan confirmed at the kiosk), and no token closes twice. Under every
  interleaving of check-ins, check-outs and sweeps, a visitor has a keyholder in the building or a sweep on its way as
  long as keyholders who leave without closing do not rely on one another; from any state where they do, committing is
  enough to strand the visitor, and the two-keyholder trace is exhibited.
* **Two-deep supervision** (`Supervision`, `ScanRuns`). One departure lowers the household count by one exactly when it
  is its household's only supervising visit; a room left by live departures falls below two over a youth's head only
  through a departure that was warned, on the same visit, no more than fifteen seconds before.
* **The kiosk queue** (`Outbox`, `Kiosk`, `KioskThreads`, `IsoTimestamp`). For two threads, any interleaving and any
  network: no scan overtakes an earlier one of its badge unless their times are inverted, every scan queued is pending,
  dead or removed, never two of these, and dead rows take turns. The order by text of the timestamps is the order in
  time. An online confirm token goes to the next scan, whoever's it is; an offline one to the badge that was warned.
* **Rate limiting** (`RateLimit`). Sweeping is invisible, and the seconds a denied caller is told to wait are right. At
  most 2·limit − 1 calls pass in any interval of one window's length, and at most the limit in any one window; the first
  bound is attained.
* **Batch jobs** (`Relay`, `Replay`, `PostEventEmails`). A pending alert is attempted within
  maxAttempts · ⌊p / batchLimit⌋ + 1 drains. A replay projects each matching row once, in order, and failed replays
  converge, the reconciliation of order lines included. The mail sweep visits every event eligible at entry exactly once,
  and mails about each at most once, although it changes its own filter.
* **Role writes** (`Roles`, `RoleTransactions`). While every lock statement finds a row to lock, one role write at a time
  is past it, the board never becomes empty and the mirror columns agree with the table after every commit. With a write
  approved under an empty lock, both fail, and it is stated exactly when.
* **A lint rule** (`RouteCoverage`). The stack scanner agrees with the recursive definition on every nested text.

## Where the code and what is said of it differ

* The comment at `checkin-app/src/lib/roles.ts:118-124` takes the locked board rows to serialise role writes. A lock
  statement that waits while every row of its snapshot is deleted, or that finds no board at all, returns with no lock.
  Then the last-member guard counts rows it does not hold (`RoleTransactions.QueuedWritesCanEmptyTheBoard`), and the row
  write and the mirror write can be interleaved with those of others (`RoleTransactions.UnlockedRevokeLeavesItsMirror`).
* A dead row is deleted on any 2xx answer without being classified (`client/outbox.py:308`), so "deleted only on an
  acknowledgement" holds for pending rows and fails for dead ones, on the answers `Outbox.DeadDeletedOnlyOnAckIff` names.
* A projection is not a plain overwrite (`packages/s-ingest-core/src/loader/projectOrders.ts:5`): the newest payload that
  carries a line does not decide whether the line is removed (`Replay.LinesKeepNewest`). Replays converge all the same.
* When the sweep runs before the keyholder's own departure (`checkin-app/src/lib/scan-service.ts:262-265`), the
  check-out then finds its visit closed and records nothing; the keyholder's row keeps the facility's stamp:
  `ScanRuns.SweepOrderShowsOnlyOnTheKeyholder`.
* The trailing "remaining time" row (`checkin-app/src/lib/attendanceTransitions.ts:197-208`) cannot be reached; the
  model keeps the branch and proves it dead.

## Assumptions

* The scan route holds a per-person lock around a check-in or check-out, and looks up the open visit it checks out.
* Random tokens never repeat, and comparing two token hashes is comparing the tokens.
* Visit ids are never used again. `FOR UPDATE` locks what is left of its snapshot (READ COMMITTED). A role grant that
  finds its row in the table leaves the row unlocked; two uncommitted writes under one unique key wait for each other.
* Projecting one raw event is one transaction. Payload columns absent from a node are left as they are.
* The kiosk's clock does not step back (where it does: `KioskThreads.OvertakingIff`).
* The alert relay's drains hold its lock; a failed delivery is recorded (where it is not:
  `Relay.QueueStandsStillIff`).

## Model

| member | source | states |
|---|---|---|
| `AttendanceTransitions.QueryAnswersStayEvents` | checkin-app/src/lib/attendanceTransitions.ts:114-122 | the query answers exactly the overlapping events of the person's programs, each once, in start order |
| `AttendanceTransitions.CreateChunks` | checkin-app/src/lib/attendanceTransitions.ts:140-211 | the chunk loop leaves the timeline from the record's start to the departure, touching no other row; with no time between arrival and departure it recreates nothing |
| `AttendanceTransitions.ProcessVisitCheckout` | checkin-app/src/lib/attendanceTransitions.ts:86-218 | the three ways out: nothing for a visit that is not open, one closed row, or the original replaced by its timeline; whatever is recorded ends at the check-out or 24 h after the arrival, whichever is earlier, and its lengths add up to the time from its start to that end |
| `AttendanceTransitions.InstantInExactlyOneChunk` | checkin-app/src/lib/attendanceTransitions.ts:140-211 | each instant of the record lies in exactly one row, which names the last event started |
| `AttendanceTransitions.TimelineIsUnique` | checkin-app/src/lib/attendanceTransitions.ts:140-211 | nothing else is a correct record of the same stay |
| `AttendanceTransitions.LengthsAddUp` | checkin-app/src/lib/attendanceTransitions.ts:99-101 | the rows' lengths sum to the recorded span |
| `AttendanceTransitions.RecordedFromArrivalIff` | checkin-app/src/lib/attendanceTransitions.ts:193 | recorded from the arrival, and for the true length, if and only if at most one event had started before it |
| `AttendanceTransitions.EarlyStartsMoveTheRecord` | checkin-app/src/lib/attendanceTransitions.ts:193 | the smallest stay whose record starts before the arrival |
| `AttendanceConflicts.ClusterOverlapping` | checkin-app/src/lib/attendanceConflicts.ts:45-72 | the running-maximum loop computes the blocks between the points no earlier visit reaches |
| `AttendanceConflicts.OverlapIffSharedInstant` | checkin-app/src/lib/attendanceConflicts.ts:25-33 | visits of positive length, or still open, overlap exactly when they both cover some instant |
| `AttendanceConflicts.ClustersAreComponentsIff` | checkin-app/src/lib/attendanceConflicts.ts:29-72 | for any input order, the clusters are the components of size two or more exactly when the visits are sweepable |
| `AttendanceConflicts.PositiveVisitsAreClustered` | checkin-app/src/lib/attendanceConflicts.ts:36-72 | visits of positive length, or still open, are always clustered rightly |
| `AttendanceConflicts.ZeroLengthIsMisreported` | checkin-app/src/lib/attendanceConflicts.ts:45-72 | a zero-length visit is reported with a visit it does not overlap |
| `AttendanceConflicts.CheckoutLeavesNoConflict` | checkin-app/src/lib/attendanceTransitions.ts:140-211 | rows that tile a stay, in any order, contain no cluster |
| `AttendanceConflicts.ReadOrderDoesNotMatter` | checkin-app/src/lib/attendanceConflicts.ts:45-52 | for visits of positive length or still open, who is reported together does not depend on the order of the rows |
| `AttendanceConflicts.ReadOrderDoesNotMatterIff` | checkin-app/src/lib/attendanceConflicts.ts:45-52 | for visits of any length: an order is reported as a sweepable one is if and only if it is sweepable too |
| `AttendanceConflicts.GetLeadConflicts` | checkin-app/src/lib/attendanceConflicts.ts:101-162 | the list shown, in order: person by person as they first appear, pile-up by pile-up, each under the first of the lead's events that a visit of it is anchored to |
| `AttendanceConflicts.ShownIffJustified` | checkin-app/src/lib/attendanceConflicts.ts:92-120 | a lead is shown exactly the pile-ups, of anybody, with a visit anchored to an event of theirs; restricting the query to people with such a visit loses nothing |
| `AttendanceConflicts.ShownOnce` | checkin-app/src/lib/attendanceConflicts.ts:140-160 | nothing is shown twice |
| `AttendanceConflicts.FirstAnchorIs` | checkin-app/src/lib/attendanceConflicts.ts:143-150 | the event shown is that of the first visit anchored to an event of the lead |
| `AttendanceConflicts.ShownInOrder` | checkin-app/src/lib/attendanceConflicts.ts:133-142 | the list follows the order in which people first appear among the visits |
| `AttendanceConflicts.ClustersFollowArrival` | checkin-app/src/lib/attendanceConflicts.ts:45-72 | one person's pile-ups come in the order of their arrivals |
| `Supervision.SupervisingAdultVisits` | checkin-app/src/lib/supervision.ts:78-121 | exactly the open visits of live adult members with a clearance that has not run out and no seat in session, with their households |
| `Supervision.SupervisingAdultCount` | checkin-app/src/lib/supervision.ts:142-151 | the number of distinct households, without the excluded visit |
| `Supervision.OneDepartureCountsOnce` | checkin-app/src/lib/supervision.ts:137-151 | one visit fewer lowers the count by one exactly when it is its household's only one |
| `Supervision.CountAfterDeparture` | checkin-app/src/lib/supervision.ts:69-77 | the count asked with the visit excluded is the count once the visit has ended |
| `ScanService.Facility.ProcessCheckin` | checkin-app/src/lib/scan-service.ts:48-127 | a keyholder, or anybody while a keyholder is in, gets a fresh row from the time of the scan; a kiosk scan is otherwise parked, its newest badge held for review, and any other refused; the warning is for a youth with fewer than two supervising adults in |
| `ScanService.Facility.SupervisionInterrupt` | checkin-app/src/lib/scan-service.ts:318-363 | the ladder by how many supervising adults would remain, whether a youth is in, and how old the stamp is; the same in terms of the household the departure removes |
| `ScanService.Facility.CloseAllOpenVisits` | checkin-app/src/lib/scan-service.ts:365-392 | after the sweep nobody is in; rows not open before are untouched; those closed keep their arrival, depart no later than now and after no more than 24 h, and at now unless that is longer |
| `ScanService.Facility.CloseInterrupt` | checkin-app/src/lib/scan-service.ts:153-267 | closes, warns, holds or leaves from who else is in, the token on the row and how the scan came; and what that writes to the row |
| `ScanService.Facility.ProcessCheckout` | checkin-app/src/lib/scan-service.ts:136-299 | the reply and the whole table after a check-out, live or replayed, in or outside a transaction; a recorded departure is through the scanner, at the time of the scan or 24 h after the arrival, however much later it is processed, and touches no other row |
| `ScanService.CheckoutAnswers` | checkin-app/src/lib/scan-service.ts:153-299 | which answer a check-out gets, from what is in the table |
| `ScanService.Facility.LastKeyholderGuard` | checkin-app/src/lib/scan-service.ts:429-484 | the web guard warns a last keyholder with others present and no matching token, and otherwise lets the departure proceed, closing exactly for a last keyholder |
| `ScanRuns.ContestedCloseEchoesLatestWarning` | checkin-app/src/lib/scan-service.ts:173-252 | over any run, a scan closes with others present if and only if it echoes the latest warning's token or is a queued scan confirmed at the kiosk |
| `ScanRuns.WarnedVisitStayedOpen` | checkin-app/src/lib/scan-service.ts:173-190 | that warning was given on the same open visit, which stayed open in between |
| `ScanRuns.NoTokenClosesTwice` | checkin-app/src/lib/scan-service.ts:245-252 | two closes over others' heads, from the reader, the queue or the web, never redeem the same token |
| `ScanRuns.ReplayNeverMints` | checkin-app/src/lib/scan-service.ts:206-216 | a replay mints nothing, and is held for review, changing nothing, exactly when it needed a confirmation it does not carry |
| `ScanRuns.WebGuardMatchesLiveScan` | checkin-app/src/lib/scan-service.ts:417-484 | in every state the web guard and a live scan decide alike and leave the same tokens |
| `ScanRuns.SweepOrderShowsOnlyOnTheKeyholder` | checkin-app/src/lib/scan-service.ts:254-265 | sweeping before or after the keyholder's departure differs in the keyholder's own row only, and there always |
| `ScanRuns.LiveDepartureCounts` | checkin-app/src/lib/scan-service.ts:275-280 | what one live departure does to the count, and that it goes below two over a youth's head only on a fresh stamp |
| `ScanRuns.ShortRoomWasWarned` | checkin-app/src/lib/scan-service.ts:343-355 | in any run, that stamp is an earlier warning of the same visit, at most fifteen seconds old |
| `ScanRuns.RoomRunsShortOnlyAfterAWarning` | checkin-app/src/lib/scan-service.ts:301-363 | a room emptied by live departures passes from two to one with a youth present only through a confirmed departure |
| `CloseProtocol.LookAdmitsAsCheckin` | checkin-app/src/lib/scan-service.ts:53-99 | the check-in steps of the protocol are the check-in of the scan service |
| `CloseProtocol.CheckoutDecidesAsRead` | checkin-app/src/lib/scan-service.ts:153-163 | the protocol's read decides against closing exactly when the scan service does |
| `CloseProtocol.WritesAgree` | checkin-app/src/lib/scan-service.ts:381-392 | departures and the sweep change the building as the service's writes do |
| `CloseProtocol.StepKeepsInv` | checkin-app/src/lib/facilityLock.ts:15-25 | every careful step keeps: somebody in, or let in, means a keyholder who stays or closes, or a sweep on its way |
| `CloseProtocol.NobodyIsStranded` | checkin-app/src/lib/scan-service.ts:48-127 | in any interleaving of careful steps no visitor is left without keyholder and sweep |
| `CloseProtocol.SerialCheckoutsStrandNobody` | checkin-app/src/lib/scan-service.ts:153-161 | one keyholder check-out at a time is careful enough |
| `CloseProtocol.SweepLeavesNobody` | checkin-app/src/lib/scan-service.ts:408-411 | nobody who was in when the sweep ran stays in, and a visitor who is in later was let in on sight of a keyholder who came in after it |
| `CloseProtocol.UnlockedSweepStrandsTheAdmitted` | checkin-app/src/lib/facilityLock.ts:8-11 | without the lock the sweep would miss a visitor already let in |
| `CloseProtocol.StrandableIffUnanchored` | checkin-app/src/lib/scan-service.ts:153-161 | the check-outs under way can strand a visitor by committing if and only if no keyholder stays or closes |
| `CloseProtocol.UnsafeReadIff` | checkin-app/src/lib/scan-service.ts:153-161 | a decision against closing makes that possible if and only if it is not careful: so being careful is necessary, too |
| `CloseProtocol.TwoKeyholdersStrandAVisitor` | checkin-app/src/lib/scan-service.ts:153-161 | from the empty building: two keyholders count each other and leave a visitor alone |
| `Outbox.Table.PendingHead` | client/outbox.py:168-176 | the row drained next is an oldest pending one |
| `Outbox.Table.NextDead` | client/outbox.py:217-229 | the dead row sent next is the one least recently tried |
| `Outbox.Table.HasPendingForParticipant` | client/outbox.py:153-160 | whether a scan of the badge is still pending |
| `Outbox.ClassifyResponse` | client/outbox.py:241-273 | exactly which answers acknowledge a scan and which kill it; any other keeps it for another try |
| `Outbox.BackoffSeconds` | client/outbox.py:276-283 | the wait is what the server asked for, or else the current backoff, kept between 30 and 300 seconds, give or take the jitter |
| `Outbox.Drain.SendDeadRow` | client/outbox.py:286-318 | which dead row is sent and what any answer does to it |
| `Outbox.Drain.Turn` | client/outbox.py:321-398 | one turn sends at most one row, a pending one first and as it stands, does to exactly that row what the answer calls for, and sleeps and backs off as the answer calls for |
| `Outbox.DeadDeletedOnlyOnAckIff` | client/outbox.py:304-311 | a dead row is deleted only on an acknowledgement, except exactly on a 2xx past 201 or of type warming |
| `Outbox.DeadRowsGoUnacknowledged` | client/outbox.py:304-311 | a dead row is deleted by a 200 that is no acknowledgement |
| `Outbox.PickIsNew` | client/outbox.py:217-238 | while dead sends fail and the dead rows are otherwise left alone, the next pick has not been picked before in the round |
| `Outbox.RotationDoesNotStarve` | client/outbox.py:217-238 | k failed dead sends in a row go to k different rows |
| `Kiosk.ClockWatch.Check` | client/client.py:216-222 | reports a jump exactly when the two clocks have drifted by more than three minutes since the last scan |
| `Kiosk.HandleScan` | client/client.py:946-1051 | the scan carries the confirms armed when it was made and the direction on display; with a fresh id it is then pending, or was posted and definitely answered; nothing else on the table changes but the clock suspicion; and it is a run of the scanner thread, so that the laws of runs hold of it |
| `Kiosk.ScanIsRemembered` | client/client.py:946-1051 | the roster on display, the confirms used up, run out or armed, and their deadlines after any scan and any answer |
| `Kiosk.ArmedByLastWarning` | client/client.py:269-278 | an armed offline close is the one of the latest warning, whatever rosters are fetched between scans |
| `Kiosk.OfflineConfirmIsBound` | client/client.py:280-297 | an offline close is confirmed only by the badge warned, within the window of the latest warning, and once |
| `Kiosk.TokenGoesToTheNextScan` | client/client.py:253-267 | over any run, a scan carries an online token if and only if the scan right before it was warned with that token and the countdown still runs; the badges play no part |
| `Kiosk.WarnedBadgeRedeemsIff` | client/client.py:259-267 | the warned badge redeems its token if and only if it is the very next to scan, within the countdown |
| `KioskThreads.RunKeepsInv` | client/outbox.py:321-398 | what every interleaving of the two threads keeps under any clock, among it that no pending row carries an attempt stamp |
| `KioskThreads.ReplayTurnIsARun` | client/outbox.py:358-398 | what a turn of the drain does with a pending row is a run of the drain thread |
| `KioskThreads.DeadTurnIsARun` | client/outbox.py:286-318 | so is what it does with a dead one |
| `KioskThreads.NoScanOvertakes` | client/client.py:967-1003 | with a clock that does not step back: when a scan goes out, live or replayed, every other pending scan of the badge is later (or of the same tick) |
| `KioskThreads.LiveSendsNeverOvertake` | client/client.py:967-982 | a live send overtakes nobody, whatever the clock does |
| `KioskThreads.OvertakingIff` | client/outbox.py:168-176 | with the drain between two turns, of two pending scans the later can be replayed first if and only if its time is not after the earlier's |
| `KioskThreads.BackwardClockOvertakes` | client/outbox.py:168-176 | a run from the empty kiosk in which the clock steps back and the later scan is replayed first |
| `KioskThreads.EveryScanIsAccountedFor` | client/outbox.py:128-209 | ids ever queued are the disjoint union of pending, dead and removed |
| `KioskThreads.PendingRowEndsByItsOwnReply` | client/outbox.py:358-398 | over any run a pending row goes only by an ack, and turns dead only by a terminal answer, to a replay of that row |
| `KioskThreads.DeadRowEndsByItsOwnReply` | client/outbox.py:304-311 | over any run a dead row goes only by a 2xx answer to a delivery of that row, an acknowledgement except on the answers named above |
| `KioskThreads.DeadRowsTakeTurns` | client/outbox.py:217-238 | in any run in which no row turns dead and no dead row goes, k dead rows are delivered k at a time to k different rows, whatever is scanned, queued and replayed in between |
| `KioskThreads.NoTakenScanIsLost` | client/client.py:946-1005 | over any run a scan once taken is in hand, queued, or was answered for good |
| `IsoTimestamp.TextOrderIsTimeOrder` | client/outbox.py:42-43 | the text order of two UTC timestamps is their order in time, whether or not they carry a fraction |
| `IsoTimestamp.TextSaysTheDate` | client/outbox.py:42-43 | the date stands where ISO 8601 has it, in decimal |
| `IsoTimestamp.TextSaysTheTime` | client/outbox.py:42-43 | so does the time, marked as UTC, with a fraction exactly when that is not zero |
| `RateLimit.RateLimiter.Sweep` | checkin-app/src/lib/rate-limit.ts:23-30 | at most once a minute, exactly the expired windows go |
| `RateLimit.RateLimiter.CheckRateLimit` | checkin-app/src/lib/rate-limit.ts:37-53 | the answer and the one window that changes |
| `RateLimit.RateLimiter.RateLimit` | checkin-app/src/lib/rate-limit.ts:97-110 | one routed call is a sweep and then a check: the answer, every bucket and the sweep time |
| `RateLimit.SweepIsInvisible` | checkin-app/src/lib/rate-limit.ts:23-53 | a limiter that never sweeps gives the same answers to every run of calls |
| `RateLimit.AtMostTwiceTheLimit` | checkin-app/src/lib/rate-limit.ts:37-53 | at most 2·limit − 1 calls on a key pass in any interval of one window's length |
| `RateLimit.AtMostTheLimitPerWindow` | checkin-app/src/lib/rate-limit.ts:37-53 | within one stored window at most the limit passes, whatever the other keys and the sweeps do |
| `RateLimit.BoundIsReached` | checkin-app/src/lib/rate-limit.ts:37-53 | for every limit and window a run in time order from the empty limiter attains that bound |
| `RateLimit.DeniedFindsAFullWindow` | checkin-app/src/lib/rate-limit.ts:37-53 | in any run, a call is denied only within a window in which as many calls as the limit allows were let through, and is told the seconds to its end, rounded up |
| `RateLimit.RetryAfterIsHonest` | checkin-app/src/lib/rate-limit.ts:23-53 | in any run, with any calls on other keys and any sweeps: a denied caller is told between one second and the window rounded up, its next call after that wait passes, and a whole second earlier it would not |
| `Relay.AlertOutbox.Drain` | monitoring-relay-function/src/relay.ts:101-143 | one drain settles its batch and nothing else, whatever each alert's fate, and counts it |
| `Relay.DrainSettles` | monitoring-relay-function/src/relay.ts:106-128 | what one drain makes of each alert: untouched, sent, left as it was, or one attempt more, dead exactly when the failure is permanent or the attempts are used up |
| `Relay.DeliveredCountIsSentCount` | monitoring-relay-function/src/relay.ts:104-142 | the count reported is the number of alerts marked as sent |
| `Relay.DiesOfItsBudget` | packages/monitoring-db/src/outbox.ts:74-89 | over any run without permanent failures an alert that dies has failed as often as its budget allows, no oftener, and until then is sent or still in the queue |
| `Relay.AlertOutbox.RunRelay` | monitoring-relay-function/src/relay.ts:43-98 | a run that finds the lock busy changes nothing and gives no heartbeat; one that cannot reach the lock or the batch changes nothing; a completed one drains once and raises the alarm exactly when it can count its dead letters and there is one |
| `Relay.ClaimedIff` | packages/monitoring-db/src/outbox.ts:31-48 | an alert is claimed if and only if fewer than the limit are pending ahead of it |
| `Relay.BatchGoneAfterMaxAttempts` | monitoring-relay-function/src/relay.ts:101-143 | every maxAttempts drains a full batch of the alerts ahead has left the queue |
| `Relay.AttemptedInTime` | monitoring-relay-function/src/relay.ts:101-143 | a pending alert is attempted by its deadline even if every delivery fails |
| `Relay.DeadlineIs` | monitoring-relay-function/src/relay.ts:101-143 | that deadline is maxAttempts times the number of full batches ahead |
| `Relay.QueueStandsStillIff` | monitoring-relay-function/src/relay.ts:101-143 | a drain leaves the whole outbox as it was if and only if every claimed alert failed and no failure could be written down |
| `Relay.SentWasPublished` | monitoring-relay-function/src/relay.ts:106-130 | whatever a drain marks as sent it has published |
| `Relay.DeadLetterWasPublishedIff` | monitoring-relay-function/src/relay.ts:106-128 | over any run of drains, an alert that ends up dead was published if and only if some drain published it and could not mark it sent |
| `Replay.Replay` | s-replay-function/src/replay.ts:50-101 | for any batch size and any failure: the first matching rows are projected, each once and in id order, the live tables are what that makes of them, and the counts and the last id match |
| `Replay.PageFollowsCursor` | s-replay-function/src/replay.ts:67-84 | the page after the n-th row is the next stretch of the matching rows: none skipped, none twice |
| `Replay.CommittedPrefix` | s-replay-function/src/replay.ts:52-96 | the rows committed at a failure are exactly those of the store, and of the type, object and time asked for, up to the last committed id |
| `Replay.LiveTables.ReconcileLines` | packages/s-ingest-core/src/loader/projectOrders.ts:43-74 | the upserts and the marking leave each line as one look at the payload and at the line before would say |
| `Replay.ColumnsKeepNewest` | packages/s-ingest-core/src/loader/index.ts:26-61 | each column ends up with the newest value any payload sets it to |
| `Replay.LinesKeepNewest` | packages/s-ingest-core/src/loader/projectOrders.ts:43-74 | an order line is what the newest payload that lists it says, and is removed exactly when a later payload is of its order |
| `Replay.LastListingCounts` | packages/s-ingest-core/src/loader/projectOrders.ts:45-63 | of a line listed twice in one payload the last listing counts |
| `Replay.UnlistedLinesStay` | packages/s-ingest-core/src/loader/projectOrders.ts:64-74 | a line no payload lists stays, and is removed exactly when it was or some payload is of its order |
| `Replay.ReplaysConverge` | packages/s-ingest-core/src/loader/index.ts:5-10 | after any number of failed replays a clean one leaves what a single clean one would, order lines included |
| `PostEventEmails.ProcessPostEventEmails` | checkin-app/src/lib/postEventEmails.ts:25-147 | for any positive batch size: the events visited are those of a programme that ended an hour ago (by now, if forced), unconfirmed and not mailed about, each once and in id order; each of them with a recipient is mailed about, once and in that order; exactly those whose mail was taken are flagged, nothing else changes, and the counts say so |
| `PostEventEmails.NoEventIsMailedTwice` | checkin-app/src/lib/postEventEmails.ts:38-63 | over any sweeps, an event whose mail has gone out is not taken up again |
| `PostEventEmails.FlaggingKeepsLaterPages` | checkin-app/src/lib/postEventEmails.ts:38-63 | the sweep's own flags do not show past its cursor |
| `PostEventEmails.PageFollowsCursor` | checkin-app/src/lib/postEventEmails.ts:38-63 | past the n-th eligible event the query answers the rest of the entry list |
| `PostEventEmails.SentCountIsFlagCount` | checkin-app/src/lib/postEventEmails.ts:93-147 | the number reported is the number of events turned from unsent to sent |
| `Roles.RolesToFlags` | checkin-app/src/lib/roles.ts:40-45 | a flag is set exactly when a row of its kind is held |
| `Roles.RoleStore.SetRoleFlag` | checkin-app/src/lib/roles.ts:129-182 | the answer and the table after a write; alone it keeps mirrors agreeing and the board non-empty |
| `Roles.AnswerIs` | checkin-app/src/lib/roles.ts:143-180 | exactly when a request is a no-op, forbidden, refused for the last member, refused for a denied household, or goes through, from the rows, the actor and the request |
| `Roles.OutsidersNeverShrinkTheBoard` | checkin-app/src/lib/roles.ts:102-106 | over any writes by members who are not on the board, nobody leaves it |
| `Roles.StrangersChangeNothing` | checkin-app/src/lib/roles.ts:147-154 | over any writes by members who are neither on the board nor sysadmins, nothing changes |
| `Roles.TheDeniedNeverJoin` | checkin-app/src/lib/roles.ts:110-113 | over any writes by anybody, nobody of a denied household joins the board |
| `RoleTransactions.MutualExclusion` | checkin-app/src/lib/roles.ts:118-141 | a lock statement that finds a row waits for whoever is past its own |
| `RoleTransactions.StepKeepsInv` | checkin-app/src/lib/roles.ts:129-182 | what every step of role writes keeps while one transaction at a time is past its lock statement |
| `RoleTransactions.ExclusiveRunIsSafe` | checkin-app/src/lib/roles.ts:56-79 | then, from the empty system on, mirrors agree with rows after every commit and a board once non-empty stays so |
| `RoleTransactions.AnchoredRunIsExclusive` | checkin-app/src/lib/roles.ts:118-141 | lock statements that find a row make it one transaction at a time |
| `RoleTransactions.AnchoredRunIsSafe` | checkin-app/src/lib/roles.ts:129-182 | so such runs are safe |
| `RoleTransactions.BoardCanEmptyIff` | checkin-app/src/lib/roles.ts:141-182 | with a board removal approved, and alone past its lock statement: writes whose lock statements all find a row can empty the board from there if and only if its lock statement came back with nothing |
| `RoleTransactions.MirrorCanDisagreeIff` | checkin-app/src/lib/roles.ts:66-77 | with a write of a mirrored role approved, and alone past its lock statement: writes whose lock statements all find a row can leave a mirror that disagrees with the table if and only if its lock statement came back with nothing although there is a board |
| `RoleTransactions.QueuedWritesCanEmptyTheBoard` | checkin-app/src/lib/roles.ts:141 | a run from one board member to an empty board, by way of four queued writes |
| `RoleTransactions.UnlockedRevokeLeavesItsMirror` | checkin-app/src/lib/roles.ts:66-77 | a run without a board that leaves a keyholder whose mirror column says otherwise |
| `RouteCoverage.ScanNodes` | checkin-app/scripts/check-route-coverage.ts:76-99 | scanning any rendered nodes reports the recursive definition's legs and leaves the stack as it was |
| `RouteCoverage.FindBareIncludeLegs` | checkin-app/scripts/check-route-coverage.ts:76-99 | the scanner reports exactly the bare legs, other than `_count`, directly inside an include block, in source order |
| `RouteCoverage.ReportedIff` | checkin-app/scripts/check-route-coverage.ts:76-99 | the names reported are those of the bare legs, but `_count`, that stand directly in some `include` block, however deep |

## Left out

- ScanService.Facility.ProcessVisitCheckout: keeps a stay as one row; how it is cut into rows is `AttendanceTransitions.ProcessVisitCheckout`, whose recreated rows are all departed.
- CloseProtocol.NobodyIsStranded: requires that keyholders leaving without closing do not rely on one another, because without it the claim is false (`CloseProtocol.StrandableIffUnanchored`).
- RoleTransactions.AnchoredRunIsSafe: requires that each lock statement finds a row, because without it both claims are false (`RoleTransactions.BoardCanEmptyIff`, `RoleTransactions.MirrorCanDisagreeIff`); the authority matrix and the denied-household guard appear only as an abort.
- RoleTransactions.StepKeepsInv: takes `FOR UPDATE` to lock its rows at once, not one by one.
- ScanRuns.RoomRunsShortOnlyAfterAWarning: fixes the day and each person's seat in a programme, because both can change the count with nobody moving.
- ScanService.Facility.FindNewestUnreviewed: leaves open which of two badges with the same time the query returns.
- RouteCoverage.FindBareIncludeLegs: works on tokens, not characters, and reports no line numbers, because newlines inside a matched leg are skipped by the counter.
- Relay.AttemptedInTime: counts completed drains; how often a run is skipped is up to its schedule.
- KioskThreads.NoScanOvertakes: orders scans of the same clock tick in no particular way.
- Kiosk.HandleScan: takes numeric badge ids; a roster fetched by the poller in the middle of a scan, and what the screen shows besides the countdown, are not modelled.
- Replay.LiveTables.ReconcileLines: takes a line's own columns as one value; the time of the last synchronisation is left out.
- Database reads, clocks, random tokens and the answers of other services are parameters or arbitrary outcomes.
- `findAssociatedEventAt`, notifications, names and messages in replies, and post-event mail started by a close.
- Failure of the close sweep, the nightly auto-close, edits of visits by hand, and role changes while present.
- A crash of the kiosk between a failed live send and its insert into the outbox, where the scan is only in memory.
- `clientIpKey`, `requeueDead`, watermarks and bulk re-ingestion.
- User interface, proxying, mail, payment and video services, sign-in and request signing.
- Formatting of names, phones and addresses, programme age rules and cron status: easy members.
