# Push service: a verified model

The service captures articles, queues them as campaigns, and sends them to subscribers as push notifications. Its hard
logic is a set of step protocols over a few Postgres tables, with some arithmetic and one parser and printer between
them. This project models those parts in Dafny and proves what they are for.

Conventions, the same in every module:

- A table is a map from ids to rows. Every database call and every transaction is one step, and everything between two
  such calls is atomic. A transaction happens entirely or not at all.
- What the program cannot decide is a parameter or a nondeterministic step: the order in which an unordered query
  returns its rows, the outcome of a push, a failed write, a crash, what other actors do meanwhile, random values.
- Where several actors interleave, the protocol is a state machine with a `Step` datatype and an invariant, and the main
  results are about every run (`IsRun`). Where one handler or one loop does the work, it is also written as a method or
  a class whose contract gives its result or its new state.
- Time is an integer number of milliseconds since the Unix epoch. IST is UTC+05:30 all year.

| file | what it models |
|---|---|
| `SendFanout.dfy`, `Cap.dfy` | the send loop with its lanes and buffered delivery log; the daily cap and the cooldown |
| `CampaignLifecycle.dfy` | every actor that claims, sends, expires or closes out a campaign row |
| `QueueOrder.dfy`, `Backfill.dfy`, `PacerGate.dfy`, `PacerTick.dfy` | the pacer: release order, morning backfill, gates, one tick |
| `ScheduledSends.dfy`, `IstClock.dfy` | quiet hours, deferred sends and the sweeper |
| `EventRetention.dfy`, `Metrics.dfy`, `RetentionDecisions.dfy` | event retention, the statistics and the decisions it must not change |
| `DigestRetention.dfy`, `DigestStats.dfy` | the same for the e-mail digest |
| `Utf8.dfy`, `PercentCoding.dfy`, `CanonicalQuery.dfy`, `Signature.dfy` | percent-encoding, the canonical query, request signing |
| `WebhookReceipts.dfy` | webhook replay and receipts |
| `Passwords.dfy` | temporary passwords: rejection sampling and shuffle |
| `Reports.dfy`, `Reads.dfy` | coverage report and reads |
| `Backup.dfy`, `Base64.dfy` | backup paging and the row round trip |
| `Prelude.dfy`, `StableSort.dfy`, `Events.dfy`, `Campaigns.dfy`, `Articles.dfy` | shared definitions |

Where the code and its own comments differ, or a promise holds only under a condition, the model follows the code and
says exactly when the promise holds:

- The comment at `src/services/send.ts:237-241` says a crash loses at most one unflushed batch. It loses the pending rows,
  at most 99, and 100 for every write in flight, so the comment is right exactly when no write is in flight, or one and
  nothing pends (`SendFanout.CrashLosesAtMost`). Two lanes can lose 199 rows (`SendFanout.CrashCanLose199`).
- The figures "rolled + live" are read by two queries, and a retention batch may commit between them. The comment at
  `src/services/metrics.ts:134-141` says the maths is the same either way. It is, unless a row of that campaign was folded
  in between: such rows are missing when the rolled half is read first and counted twice the other way round
  (`Metrics.RolledReadFirst`, `Metrics.LiveReadFirst`, `Metrics.LifetimeReadApart`, `Metrics.ReadAroundOneFold`). The same
  holds for a digest's counts, and a send whose proof is folded between the reads shows "—"
  (`DigestStats.DigestReadApart`, `DigestStats.ReadAroundOneFold`). Before asking it can be told which answers are safe:
  exactly those whose rows are younger than the window (`Metrics.FigureStaysRightIff`, `Metrics.LifetimeStaysRightIff`,
  `DigestStats.StaysRightIff`).
- The sweeper judges every send of a tick by one clock value (`src/services/sweeper.ts:25`), so a later send of a tick can
  start inside quiet hours (`ScheduledSends.StartsInQuietHoursIff`, `ScheduledSends.SecondSendStartsInQuietHours`).
- The comment at `src/routes/cmsEvents.ts:171-172` says a verbatim copy of a retry is an exact replay from then on. It is
  one only until a later timestamp is recorded (`WebhookReceipts.CopyRefusedIff`, `WebhookReceipts.OlderCopyIsAnswered`).
- Digest retention stamps every send a deleted event proves (`src/sweepers/digestRetention.ts:13-16`). A send that gets
  its mail campaign's id only after that campaign's delivery events were swept can no longer be stamped
  (`DigestRetention.LateCampaignLosesProof`, `DigestRetention.SweptBeforeAssigned`).
- A canonical query read back is not always canonical, nor is every signed GET accepted: `TextDecoder` drops a leading
  U+FEFF (`CanonicalQuery.FixedPointIff`, `CanonicalQuery.RoundTripIff`, `CanonicalQuery.BomIsLost`,
  `Signature.SignedGetAcceptedIff`).
- Stranded-claim recovery can mark a delivered row Failed when event retention folds its last live row between recovery's
  two reads (`CampaignLifecycle.RecoveryTellsTruthIff`, `CampaignLifecycle.RecoveryCanMiss`).
- The trend in a coverage report looks back less far than the report it is compared with (`Reports.PrevTotalAgreesIff`,
  `Reports.TrendCountsOldArticle`).

## Model

| member | source | states |
|---|---|---|
| `SendFanout.StepConserves` | src/services/send.ts:245-311 | every step of every lane, failed mid-send writes included, keeps rows written + pending + in flight equal, copy for copy, to the outcomes so far |
| `SendFanout.StepKeepsTargets` | src/services/send.ts:177-194 | the shared index hands each kept subscriber to exactly one lane: answered + being pushed = taken so far |
| `SendFanout.RunKeepsInv` | src/services/send.ts:177-311 | both conservation laws and the counters hold after any interleaving of lanes |
| `SendFanout.StepLowersRank` | src/services/send.ts:177-194 | every step makes progress, whichever writes fail, so the fan-out ends under any scheduler |
| `SendFanout.AllReturned` | src/services/send.ts:270-311 | when every lane has returned, each kept subscriber has exactly one row, written or pending, and sent + expired + failed = kept |
| `SendFanout.LanesAreEnough` | src/services/send.ts:184-184 | as many lanes as there is work for and as are allowed at once, one if there is no work or none is allowed |
| `SendFanout.CrashLosesAtMost` | src/services/send.ts:237-266 | without write failures the rows unwritten are exactly the pending ones, at most 99, and 100 for each write in flight; at most 100 exactly when no write is in flight, or one and nothing pends |
| `SendFanout.CrashCanLose199` | src/services/send.ts:237-266 | a two-lane run without write failures after which 199 rows are unwritten |
| `SendFanout.Fanout.Take` | src/services/send.ts:186-190 | taking the next item is the model's step |
| `SendFanout.Fanout.Record` | src/services/send.ts:270-310 | counting an outcome, buffering its row and swapping out a full buffer is the model's step |
| `SendFanout.Fanout.FinishWrite` | src/services/send.ts:256-266 | a failed write puts its rows back in front of what other lanes added meanwhile |
| `SendFanout.Fanout.RunLanes` | src/services/send.ts:177-194 | the worker pool, under an arbitrary scheduler, ends with one row per kept subscriber and counters that agree with the rows |
| `SendFanout.Fanout.Flush` | src/services/send.ts:246-251 | the last flush writes what is pending, or fails and loses exactly that |
| `SendFanout.SendToAll` | src/services/send.ts:242-311 | written and unwritten rows together are one per kept subscriber; nothing is unwritten unless the last flush failed |
| `SendFanout.ExecuteCampaign` | src/services/send.ts:201-333 | if it returns, the row is Sent and each kept subscriber has exactly one row; if it throws, at its reads included, the row is Failed unless that update failed too, and nobody has two rows |
| `Cap.FilterByCap` | src/lib/cap.ts:17-67 | each candidate is capped if and only if there is a cap and it has at least that many SENT rows since IST midnight; cooled if and only if it is not capped, the gap is positive and some SENT row of it is at or after now less the gap; kept if and only if neither; each list in candidate order, and together all of them |
| `Cap.EverybodyGetsOne` | src/lib/cap.ts:25-66 | a run with a cap of one in which both subscribers get their one delivery |
| `Cap.SplitPartitions` | src/lib/cap.ts:58-66 | every candidate lands in exactly one list |
| `Cap.ForcedKeepsAll` | src/services/send.ts:401-403 | a forced send keeps every candidate, in order |
| `Cap.KeptMaySend` | src/lib/cap.ts:25-66 | a kept subscriber is under the cap on the IST day of the clock value given and on every later one, and no delivery to it, whenever recorded, is within the cooldown of that value |
| `Cap.ThrottlesHold` | src/lib/cap.ts:25-66 | over every run of non-overlapping sends, whatever clock value each is given — the second send of a sweeper tick, one running past midnight: at most `cap` SENT rows per subscriber and IST day, any two more than the cooldown apart |
| `CampaignLifecycle.StepKeepsInv` | src/services/pacer.ts:341-459 | every step of every actor keeps: at most one holder per row, no holder of a row that can still be claimed, at most one execution |
| `CampaignLifecycle.RunKeepsInv` | src/routes/api.ts:482-639 | the same after any interleaving with crashes anywhere |
| `CampaignLifecycle.ExecutedAtMostOnce` | src/services/sweeper.ts:50-71 | every campaign row is executed at most once over any interleaving of pacer, Queue and Review buttons, sweeper, dispatch, retention and recovery |
| `CampaignLifecycle.StartedNeverSendable` | src/services/pacer.ts:413-417 | a row whose send was started — finished, failed, crashed or closed out — never becomes sendable again |
| `CampaignLifecycle.CapturedCanBeClaimed` | src/services/pacer.ts:341-349 | a captured row can be claimed at once: a queued one by the pacer and its button, a review row by its own only |
| `CampaignLifecycle.ReviewDecides` | src/routes/api.ts:482-560 | a waiting review row is decided once: approved it goes on to the queue, pushed to be sent, rejected to nobody, and nobody can claim it any more |
| `CampaignLifecycle.DeadLinkIsArchived` | src/services/pacer.ts:357-372 | the pacer and both buttons archive a dead link, nobody else does; it is never sent after that |
| `CampaignLifecycle.ApprovedIsQueued` | src/routes/api.ts:482-520 | approving puts a reviewed draft into the auto queue, where it can be claimed exactly while it is a draft |
| `CampaignLifecycle.SendEnds` | src/services/send.ts:318-333 | a send ends Sent or Failed as it went, if that update lands, and loses no delivery and touches no other row either way |
| `CampaignLifecycle.SweeperListsTheDue` | src/services/sweeper.ts:34-37 | the sweeper lists exactly the scheduled rows whose instant has come |
| `CampaignLifecycle.StaleDraftsExpire` | src/services/reconciler.ts:62-76 | exactly the drafts captured before the cutoff expire |
| `CampaignLifecycle.MaxOfIsLatest` | src/services/pacer.ts:436-440 | the last delivery is the latest of the live SENT rows |
| `CampaignLifecycle.ListsTheStuck` | src/services/pacer.ts:423-434 | recovery lists a row if and only if it is Scheduled, has no `scheduledAt` and was claimed at or before the cutoff, each with its roll-up |
| `CampaignLifecycle.ListsOnlyAbandoned` | src/services/pacer.ts:412-434 | if every row somebody is at was claimed after the cutoff, the sender of every listed row is dead |
| `CampaignLifecycle.FreshClaimIsSpared` | src/services/pacer.ts:423-459 | whatever happens meanwhile, a recovery closes out no row that was claimed after its cutoff |
| `CampaignLifecycle.RecoveryTellsTruthIff` | src/services/pacer.ts:423-451 | over every run from recovery's read through its look to its write, for every row it listed: one still stranded ends Sent or Failed, with the latest live delivery seen as its time or the time it had, and is never sent again; that is the truth if and only if a roll-up was read, or a live row seen, or nothing of the row was folded before the look nor delivered after it; a row finished by something else is left alone |
| `CampaignLifecycle.RecoveryTellsTruth` | src/services/pacer.ts:412-451 | with the sender of a listed row dead at the read, it is the truth if the row was rolled up already, has no live delivery, or has one younger than the window of every batch up to the look |
| `CampaignLifecycle.StaleClaimsToldTruly` | src/services/pacer.ts:412-451 | the same with a condition that can be checked before the read: every row somebody is at was claimed after the cutoff, that is, no send outlasts it |
| `CampaignLifecycle.AbandonedStays` | src/services/pacer.ts:412-421 | once nobody is at a started row, nobody ever is again and nothing more is delivered |
| `CampaignLifecycle.RecoveryCanMiss` | src/services/pacer.ts:423-448 | a run from the empty store in which a row delivered 31 days ago is folded between the two reads, within the 30-day window, and ends Failed |
| `CampaignLifecycle.ScheduledQueueRowSentTwice` | src/services/sweeper.ts:50-54 | why a queued row must not carry a `scheduledAt`: a six-step run that starts the send loop twice |
| `QueueOrder.RankIsTotalPreorder` | src/services/pacer.ts:109-116 | the ranking compares any two articles and is transitive; `QueueOrder.ShownInPlainOrder` says which way |
| `QueueOrder.TiedMeans` | src/services/pacer.ts:109-134 | two rows tie exactly when queue, capture time and, for qualified ones, tier agree |
| `QueueOrder.PickGoesFirst` | src/services/pacer.ts:251-293 | for every clock value and every order of the reads, the pick precedes everything pending, and exists unless nothing pends |
| `QueueOrder.PickIsBest` | src/services/pacer.ts:251-293 | at no clock value is there a pending row better than the pick in the terms of `QueueOrder.ShownInPlainOrder` |
| `QueueOrder.ShownInReleaseOrder` | src/services/pacer.ts:124-134 | the Queue screen shows every pending row once, in release order |
| `QueueOrder.ShownInPlainOrder` | src/services/pacer.ts:86-134 | of two qualified rows shown, the earlier is of a later IST day, or of the same day and a smaller authority tier, or of the same day and tier and captured no later; every qualified row stands before every fallback one; fallback rows run newest first |
| `QueueOrder.AuthoritiesInOrder` | src/services/classify.ts:129-145 | within a day a Supreme Court ruling goes before any other, a Bombay High Court ruling before all others, a High Court ruling before the rest |
| `QueueOrder.PickTiesWithHead` | src/services/pacer.ts:251-293 | the pick is tied with the head of the screen; an empty screen means nothing to pick |
| `QueueOrder.DrainsInQueueOrder` | src/services/pacer.ts:118-134 | repeated release with no arrivals, at any clock values, drains exactly what the screen shows, position by position up to ties |
| `Backfill.NothingBetterPassedOver` | src/services/pacer.ts:212-239 | something is picked while anything is left; no court ruling is passed over for another category or for a lesser ruling, no unsent item for a re-send |
| `Backfill.PicksWhileUsable` | src/services/pacer.ts:183-242 | a pick exists exactly while a usable URL of yesterday's is left, and its URL is usable |
| `Backfill.FillsPlainly` | src/services/pacer.ts:183-242 | said of the tables: it finds something if and only if some article of yesterday's has a URL with no delivery or claim since IST midnight; what it finds is one, and none may fill the slot before it: court rulings by court, clicks and age, then unsent ones, then re-sends by clicks |
| `Backfill.ChoosesWhatFills` | src/services/pacer.ts:183-243 | the tick goes on with that article, or stops if and only if there is none, if nothing changed between its two reads |
| `Backfill.StepKeepsInv` | src/services/pacer.ts:183-243 | the claims made today stay visible as used URLs through every step, whatever others do to the tables |
| `Backfill.NeverTwiceADay` | src/services/pacer.ts:187-209 | the backfill never claims one URL twice on one IST day, even when a send crashes before writing anything |
| `Backfill.ClaimShrinks` | src/services/pacer.ts:343-346 | a claim takes exactly its own URL out of what is usable that day |
| `Backfill.PreparedAndClaimed` | src/services/pacer.ts:151-171 | a draft is used as it is, a sent article through a new draft of the same URL, and the claim marks that row with the time of the tick |
| `Backfill.TakenIsNotClaimed` | src/services/pacer.ts:343-349 | a row that is no draft any more is not claimed |
| `Backfill.CloneIsNeutral` | src/services/pacer.ts:156-171 | the copy made for a re-send changes neither the usable URLs nor whether today has a qualified article, so a crash before its claim costs nothing |
| `Backfill.ClaimedNotUsable` | src/services/pacer.ts:190-200 | a claimed URL is usable in no later state of that day |
| `PacerGate.DeliverOnDay` | src/services/pacer.ts:304-314 | a delivery, even one after midnight, leaves every day within the ceiling |
| `PacerGate.StepKeepsInv` | src/services/pacer.ts:304-331 | the gates' invariant holds through ticks, claims, deliveries, crashes and manual sends |
| `PacerGate.GatesHold` | src/services/pacer.ts:304-331 | by the tick's clock every automated release is outside quiet hours and at least the spacing after every delivery recorded before it; on any IST day at most `dailyCeiling` automated releases record a delivery |
| `PacerGate.OneReleaseGetsThrough` | src/services/pacer.ts:304-331 | a run at noon with a ceiling of one: one release delivers, beside a click and a manual send, and the next tick finds the ceiling reached |
| `PacerTick.LastDecidesSpacing` | src/services/pacer.ts:323-331 | comparing with the latest delivery decides the spacing to all of them |
| `PacerTick.PacerDb.BackfillSelect` | src/services/pacer.ts:183-243 | returns a draft with a usable URL, the article itself or a copy, and none may fill the slot before it; nothing if and only if no article of yesterday's is free; existing rows untouched |
| `PacerTick.PacerDb.SelectNext` | src/services/pacer.ts:251-293 | backfill exactly when it is due, otherwise a row that no pending one goes before, said of the rows and not through the ranking |
| `PacerTick.PacerDb.SelectCarryOver` | src/services/pacer.ts:270-293 | the head of what is pending, today's or older |
| `PacerTick.PacerDb.Claim` | src/services/pacer.ts:343-349 | only a row that is still a draft is claimed |
| `PacerTick.PacerDb.CheckAndSend` | src/services/pacer.ts:357-403 | a confirmed dead link is archived and nothing sent; otherwise only this campaign's deliveries are recorded and the row is closed; where the row's last update fails it stays claimed, as recovery expects it, and the tick reports an error or throws |
| `PacerTick.PacerDb.Gate` | src/services/pacer.ts:306-331 | quiet hours; else the ceiling, if at least that many campaigns delivered on this IST day; else the spacing, if and only if some delivery is less than it before now |
| `PacerTick.PacerDb.RunPacerTick` | src/services/pacer.ts:295-404 | with a gate shut nothing changes; otherwise at most one right draft is taken, to be closed or left claimed if its last update fails, and every other row stays; a pick that another actor takes first is not sent and nothing else changes; Empty otherwise means nothing could be picked |
| `ScheduledSends.Sends.DispatchCampaign` | src/services/send.ts:335-440 | rejected before it is stored, deferred to the least allowed instant in quiet hours unless breaking, sent otherwise, unthrottled when forced |
| `ScheduledSends.Sends.SweepOne` | src/services/sweeper.ts:38-71 | one due row: deferred, lost to another actor, or claimed and sent once |
| `ScheduledSends.Sends.SweepScheduledCampaigns` | src/services/sweeper.ts:24-75 | the new rows and the sends started in order; in quiet hours all that is due is deferred, otherwise swept counts what nobody took and did not throw, errors what threw; no send judged in quiet hours by the tick's clock unless breaking |
| `ScheduledSends.SweepMeans` | src/services/sweeper.ts:38-71 | in quiet hours nothing is sent and every due row moves strictly later, to the first allowed instant; otherwise every due row nobody took is sent exactly once and ends Sent, or Failed if it threw, and any other is not sent |
| `ScheduledSends.CountersMean` | src/services/sweeper.ts:30-75 | what each counter of a tick counts |
| `ScheduledSends.ComesDue` | src/services/sweeper.ts:34-37 | a deferred row comes due at its instant and not before; a closed or claimed one never does |
| `ScheduledSends.StartsInQuietHoursIff` | src/services/sweeper.ts:25-62 | up to the end of the next window, a send of a tick starts in quiet hours exactly when the window has opened by then; a tick over by then keeps clear of it exactly when its last send starts before it opens |
| `ScheduledSends.SecondSendStartsInQuietHours` | src/services/sweeper.ts:25-62 | at the default window, a tick at 22:59 whose second send starts at 23:00 |
| `IstClock.StartOfTodayIST` | src/lib/quietHours.ts:61-64 | the latest IST midnight not after the instant, on the same IST day |
| `IstClock.InstantReadsBack` | src/lib/quietHours.ts:18-37 | an instant made from a day and a minute has that day and minute |
| `IstClock.EpochInIndia` | src/lib/quietHours.ts:18-26 | the Unix epoch is 05:30 in India, and 18:30 in Greenwich is midnight there |
| `IstClock.NextDaySameMinute` | src/lib/quietHours.ts:18-26 | 24 hours later it is the next day at the same minute |
| `IstClock.NextMinute` | src/lib/quietHours.ts:18-26 | 60 seconds later it is the next minute of the day |
| `IstClock.SameDayIff` | src/lib/quietHours.ts:61-64 | comparing IST days is comparing with midnight |
| `IstClock.NextAllowedIsLeast` | src/lib/quietHours.ts:39-59 | from a quiet instant, the least later instant that is not quiet, for plain and midnight-wrapping windows |
| `IstClock.QuietOnceOpened` | src/lib/quietHours.ts:18-59 | from an instant that is not quiet until the next window closes, an instant is quiet exactly from the window's opening on |
| `EventRetention.TallyBatch` | src/sweepers/eventRetention.ts:97-111 | the loop computes the batch's tallies per campaign and type, with the earliest SENT time |
| `EventRetention.FoldRowsIsTally` | src/sweepers/eventRetention.ts:96-153 | one update per campaign and type comes to the same as folding row by row |
| `EventRetention.EventDb.UpdateCampaigns` | src/sweepers/eventRetention.ts:113-142 | each surviving campaign's roll-ups grow by its tally, its first-sent time becomes the earlier one, other campaigns stay |
| `EventRetention.EventDb.UpdateRollups` | src/sweepers/eventRetention.ts:144-150 | each type's roll-up grows by its tally, created when missing |
| `EventRetention.EventDb.FoldAndDelete` | src/sweepers/eventRetention.ts:96-153 | the transaction is the row-by-row fold of its batch |
| `EventRetention.EventDb.NextBatch` | src/sweepers/eventRetention.ts:75-90 | the oldest purgeable rows, windowed types first, as many as asked for or all |
| `EventRetention.FoldKeepsStatistics` | src/sweepers/eventRetention.ts:92-153 | folding any batch of live rows changes no campaign's figures and no lifetime count |
| `EventRetention.SweepEventRetention` | src/sweepers/eventRetention.ts:155-204 | only purgeable rows go, no statistic changes, the deleted counts are right, and a run ending with `more = false` leaves no purgeable row |
| `EventRetention.DryRunPredicts` | src/sweepers/eventRetention.ts:169-184 | a dry run counts exactly what a run that clears the backlog deletes |
| `EventRetention.RetentionIsInvisible` | src/sweepers/eventRetention.ts:75-204 | over any run mixing new rows with batches, stops and crashes, every figure equals that of the run without retention |
| `EventRetention.RefoldingCountsTwice` | src/sweepers/eventRetention.ts:96-153 | why sweeps must not overlap: folding any batch twice puts a campaign's figures off by exactly the batch's rows of it, so they are wrong if and only if it has a SENT, CLICKED or FAILED one |
| `EventRetention.RefoldingCountsTypeTwice` | src/sweepers/eventRetention.ts:96-153 | the same for a lifetime count |
| `Metrics.AddGroups` | src/services/metrics.ts:160-174 | every asked-for campaign stands at its rolled figures plus all its live groups; one with neither has no entry |
| `Metrics.CampaignStats` | src/services/metrics.ts:143-175 | exactly the rolled half of the state the one query saw combined with the live half of the state the other saw |
| `Metrics.ComputeHeavyAggregates` | src/services/metrics.ts:206-227 | the same for the lifetime counts |
| `Metrics.RolledReadFirst` | src/services/metrics.ts:147-158 | over any run, reading rolled then live shows the figures without retention less what was folded in between; right if and only if no SENT, CLICKED or FAILED row of the campaign was |
| `Metrics.LiveReadFirst` | src/services/metrics.ts:147-158 | reading live then rolled counts those rows twice, with the same condition |
| `Metrics.LifetimeReadApart` | src/services/metrics.ts:206-225 | the same for a lifetime count, in both orders |
| `Metrics.FigureStaysRightIff` | src/services/metrics.ts:147-158 | told before asking: in either order a campaign's figures are right, whatever batches up to a cutoff commit meanwhile, if and only if none of its live SENT, CLICKED and FAILED rows is older than that cutoff |
| `Metrics.LifetimeStaysRightIff` | src/services/metrics.ts:206-225 | a lifetime count, if and only if no live row of the type could be purged |
| `Metrics.ReadAroundOneFold` | src/services/metrics.ts:147-158 | a run from the empty store whose one delivery is shown as 0 in one order and as 2 in the other |
| `RetentionDecisions.SameFate` | src/lib/cap.ts:25-66 | cap and cooldown judge a subscriber the same from the swept table |
| `RetentionDecisions.SameGates` | src/services/pacer.ts:304-331 | ceiling count and spacing are the same from the swept table |
| `RetentionDecisions.SameChoice` | src/services/pacer.ts:138-243 | the backfill picks the same article from the swept table |
| `RetentionDecisions.DecisionsUnchanged` | src/sweepers/eventRetention.ts:75-90 | with a window of at least two days and no shorter than cooldown and spacing, no decision differs, at any later time, from the run without sweeps |
| `RetentionDecisions.TimeMayStandStill` | src/sweepers/eventRetention.ts:75-90 | rows and sweeps of one and the same millisecond are runs of the model |
| `DigestRetention.TallyBatch` | src/sweepers/digestRetention.ts:85-101 | per-send counts, and the sends and mail campaigns the batch proves |
| `DigestRetention.ProofSurvives` | src/sweepers/digestRetention.ts:103-114 | a batch that deletes the events proving a send leaves the send proved, and proves no other |
| `DigestRetention.StampsAreCounted` | src/sweepers/digestRetention.ts:103-114 | the number of stamped sends grows by exactly the sends a batch stamps, none twice |
| `DigestRetention.DigestDb.IncrementSends` | src/sweepers/digestRetention.ts:115-121 | each existing send's counters grow by its tally |
| `DigestRetention.DigestDb.FoldAndDelete` | src/sweepers/digestRetention.ts:85-124 | the whole effect of one batch's transaction, and its two counts |
| `DigestRetention.DigestDb.NextBatch` | src/sweepers/digestRetention.ts:159-164 | aged rows, as many as asked for or all, each received before any aged row left out, or at the same time with a smaller id |
| `DigestRetention.FoldKeepsStatistics` | src/sweepers/digestRetention.ts:85-124 | a batch changes no send's rolled + live counts and no send's standing as proved |
| `DigestRetention.ShownMeans` | src/services/digest/stats.ts:32-66 | said of the tables: a send shows counts if and only if it is stamped or some sent or failed delivery names it or its mail campaign; each count is what was rolled up plus what is live |
| `DigestRetention.SweepDigestRetention` | src/sweepers/digestRetention.ts:126-187 | refuses non-positive windows; a dry run touches nothing and counts what is aged; a real one deletes aged rows only, changes nothing shown, empties and marks exactly the content of runs more than `htmlDays` IST days ago, and counts by type what went, what was folded, stamped and purged; `more = false` means none left |
| `DigestRetention.SweepBatches` | src/sweepers/digestRetention.ts:149-173 | the loop of batches behind it |
| `DigestRetention.DryRunPredicts` | src/sweepers/digestRetention.ts:142-147 | what a dry run counts is exactly what a run that clears the backlog deletes, and folds |
| `DigestRetention.PurgedOnce` | src/sweepers/digestRetention.ts:175-176 | a purge leaves no old content, touches no kept one, and done again changes nothing |
| `DigestRetention.RetentionIsInvisible` | src/sweepers/digestRetention.ts:85-124 | over any run, every send's stored counts and proof say what they would say without retention |
| `DigestRetention.LateCampaignLosesProof` | src/sweepers/digestRetention.ts:103-114 | assigning a mail campaign's id agrees with the run without retention exactly when the send is still proved or nothing naming the campaign was swept |
| `DigestRetention.SweptBeforeAssigned` | src/sweepers/digestRetention.ts:103-114 | a run from the empty store in which a send gets its campaign's id after the sweep and shows nothing, where it would be proved without |
| `DigestStats.DigestSendStats` | src/services/digest/stats.ts:32-66 | the two loops show exactly the rolled counts and stamp of the state the sends were read from, the proofs of the second and the live counts of the third |
| `DigestStats.FigureReadApart` | src/services/digest/stats.ts:35-61 | over any run a count falls short by exactly the feedback rows folded between its two reads |
| `DigestStats.ProvedReadApart` | src/services/digest/stats.ts:35-55 | a send wrongly shows "—" exactly when it was not stamped at the first read, a proof of it was folded before the second, and none is left |
| `DigestStats.DigestReadApart` | src/services/digest/stats.ts:32-66 | over any run, a response shows what the same reads would show without retention if and only if the send stays proved and, where proved, no feedback of it was folded before the live read |
| `DigestStats.StaysRightIff` | src/services/digest/stats.ts:32-66 | told before asking: a send's entry is right, whatever batches up to a cutoff commit during the three reads, if and only if no live feedback of it is older than that cutoff and it is stamped, or none of its live proofs is older, or not all are |
| `DigestStats.WithoutRetention` | src/services/digest/stats.ts:35-61 | without retention the later reads show the later state, for a send that got no campaign id in between |
| `DigestStats.ReadAroundOneFold` | src/services/digest/stats.ts:35-61 | a run from the empty store in which a send with one unsubscribe shows "—", or none |
| `Utf8.Utf8RoundTrip` | src/lib/cmsSignature.ts:75-97 | decoding the UTF-8 bytes of well-formed text gives the text (section 3 of RFC 3629) |
| `Utf8.Utf8DecodeIsStrict` | src/lib/cmsSignature.ts:75-100 | the fatal decoder accepts only the encoding of the text it returns |
| `Utf8.LoneIsReplaced` | src/lib/cmsSignature.ts:91-94 | a surrogate with no partner is written as the three bytes of U+FFFD, and what follows is not affected |
| `Utf8.ReplacementCharacter` | src/lib/cmsSignature.ts:91-94 | which are those of a U+FFFD in the text |
| `PercentCoding.EncodesAsRfc3986` | src/lib/cmsSignature.ts:70-73 | `encodeURIComponent` and the escape pass together leave letters, digits and - . _ ~ and write every other UTF-8 byte as % and two upper-case digits, as sections 2.1 and 2.3 of RFC 3986 ask |
| `PercentCoding.PercentDecode` | src/lib/cmsSignature.ts:78-101 | the decoding loop computes the decoder: null exactly on a bad escape or invalid UTF-8 |
| `PercentCoding.TextRoundTrip` | src/lib/cmsSignature.ts:69-101 | decoding undoes encoding for well-formed text, but for one leading U+FEFF |
| `PercentCoding.EncodeInjective` | src/lib/cmsSignature.ts:70-73 | different texts have different encodings |
| `CanonicalQuery.ReadIff` | src/lib/cmsSignature.ts:117-128 | a query is accepted exactly when every non-empty segment decodes and no key repeats |
| `CanonicalQuery.CanonicalizeQuery` | src/lib/cmsSignature.ts:114-131 | the loop computes the canonical form or the first error; the encoded keys of the result ascend |
| `CanonicalQuery.SegmentOrderIrrelevant` | src/lib/cmsSignature.ts:107-131 | permuting the `&` segments changes neither acceptance nor the result |
| `CanonicalQuery.BuildsCanonical` | src/lib/cmsSignature.ts:137-143 | building succeeds exactly on well-formed text and gives the canonical form |
| `CanonicalQuery.CanonicalAscends` | src/lib/cmsSignature.ts:129-143 | the segments of a canonical text have strictly ascending encoded keys: each is a proper prefix of the next, or has the smaller code unit at their first difference |
| `CanonicalQuery.QueryRoundTrip` | src/lib/cmsSignature.ts:114-143 | reading back what was built gives the same parameters and the same text |
| `CanonicalQuery.RoundTripIff` | src/lib/cmsSignature.ts:75-143 | of all well-formed parameters, exactly those with no leading U+FEFF survive building and reading |
| `CanonicalQuery.BomIsLost` | src/lib/cmsSignature.ts:75-143 | one that does not survive |
| `CanonicalQuery.CanonicalDetermines` | src/lib/cmsSignature.ts:133-143 | two maps have one canonical form exactly when they are equal |
| `CanonicalQuery.FixedPointIff` | src/lib/cmsSignature.ts:75-131 | a canonical form is a fixed point exactly when no key or value in it starts with U+FEFF |
| `Signature.DecimalReadsBack` | src/lib/cmsSignature.ts:172-174 | a timestamp prints as 1 to 15 digits and reads back |
| `Signature.HexReadsBack` | src/lib/cmsSignature.ts:205-205 | a digest's lower-case hex reads back |
| `Signature.HexIsOnto` | src/lib/cmsSignature.ts:194-205 | and every even number of lower-case hex digits is the hex of the bytes it stands for |
| `Signature.SignedBytesDetermine` | src/lib/cmsSignature.ts:154-159 | for a fixed method and path the signed bytes determine timestamp and payload |
| `Signature.LayoutOfGet` | src/lib/cmsSignature.ts:153-159 | a GET's bytes are `<ts>.GET.<path>.<query>` |
| `Signature.LayoutOfPost` | src/lib/cmsSignature.ts:153-159 | a POST's are `<ts>.POST.<path>.<body>` |
| `Signature.VerifySigned` | src/lib/cmsSignature.ts:194-214 | the loop over every secret computes the verdict: each failure in its order, then the first matching slot |
| `Signature.VerifiedIff` | src/lib/cmsSignature.ts:194-214 | accepted exactly when the clocks agree within 300 s and an active secret signed these bytes |
| `Signature.SignatureMeans` | src/lib/cmsSignature.ts:63-65 | a signature header is well formed if and only if it is `sha256=` and the hex of 32 bytes |
| `Signature.MalformedIsRefused` | src/lib/cmsSignature.ts:194-205 | no other header, and no missing one, is ever accepted |
| `Signature.AcceptedMeans` | src/lib/cmsSignature.ts:310-337 | a GET is accepted if and only if it has no body and a plain path, its query reads, its nonce is 32 lower-case hex digits, its timestamp is 1 to 15 digits at most 300 s off, and an active secret signed the canonical query |
| `Signature.SignsUnless` | src/lib/cmsSignature.ts:278-300 | signing a GET throws exactly without a secret or a plain path, with a parameter named `nonce`, with a nonce that is not 32 lower-case hex digits, or with text that UTF-8 cannot write |
| `Signature.SignedGetIsAccepted` | src/lib/cmsSignature.ts:278-337 | every signed GET with no leading U+FEFF is accepted with the secret in either slot within 300 s, and gives back its parameters and nonce |
| `Signature.SignedGetAcceptedIff` | src/lib/cmsSignature.ts:278-337 | of all signed GETs within 300 s, exactly those with no name or value starting with U+FEFF are accepted, provided the one message the verifier reads instead has another MAC |
| `WebhookReceipts.StepKeepsInv` | src/routes/cmsEvents.ts:162-226 | every step of every concurrent handler keeps receipts, applied snapshots and answers in agreement |
| `WebhookReceipts.AppliedAtMostOnce` | src/routes/cmsEvents.ts:195-222 | an event is applied at most once, exactly once when its receipt says so; its stored timestamp is the latest ever recorded or answered 2xx |
| `WebhookReceipts.TimestampsNeverDecrease` | src/routes/cmsEvents.ts:171-173 | receipts stay, timestamps only grow, outcomes never change |
| `WebhookReceipts.AnsweredMeansApplied` | src/routes/cmsEvents.ts:163-222 | end to end: whoever is told 200, or 401 for a replay, is told so only once the event has been applied |
| `WebhookReceipts.NewEventIsStored` | src/routes/cmsEvents.ts:182-222 | a new event is answered 422 if its body is malformed and 200 otherwise; its receipt says invalid, unknown type or applied as the body is malformed, of unknown type or a snapshot; only a snapshot is applied |
| `WebhookReceipts.InvalidIsNeverApplied` | src/routes/cmsEvents.ts:182-222 | over every run: whoever is told 422 has a receipt saying invalid, and nothing of that event was applied |
| `WebhookReceipts.ReceiptsTellTheBody` | src/routes/cmsEvents.ts:182-222 | over every run a receipt tells of a body that came in under its event id |
| `WebhookReceipts.CrashedAfterStoring` | src/routes/cmsEvents.ts:163-222 | a run in which a handler crashes after storing and a verbatim copy is then refused with 401 |
| `WebhookReceipts.RetryAfterFailureApplies` | src/routes/cmsEvents.ts:179-226 | an event whose earlier attempts failed is applied by the next one served without a failure, and by no other after it |
| `WebhookReceipts.CopyRefusedIff` | src/lib/cmsSignature.ts:248-259 | a verbatim copy is refused exactly while no later timestamp was recorded or answered; otherwise it is answered as a duplicate; it is never applied |
| `WebhookReceipts.OlderCopyIsAnswered` | src/routes/cmsEvents.ts:171-176 | a run from the empty store — an event at 5, its retry at 9, a copy of the first — in which the copy is answered 200, and applied no second time |
| `WebhookReceipts.Webhook.AnswerKnown` | src/routes/cmsEvents.ts:163-177 | new, replay or retry, as a run of the protocol |
| `WebhookReceipts.Webhook.RecordRetry` | src/routes/cmsEvents.ts:171-176 | keeps the later timestamp |
| `WebhookReceipts.Webhook.ApplyAndRecord` | src/routes/cmsEvents.ts:182-226 | snapshot and receipt together or neither; 500 if it fails, else 422 for a malformed body and 200 for any other; the receipt tells the kind of body |
| `WebhookReceipts.Webhook.Handle` | src/routes/cmsEvents.ts:162-226 | one handler served alone is a run of the protocol; when it applies, what a new event is answered and recorded as, when it refuses, and that a retry keeps the later timestamp |
| `Passwords.PasswordIssue` | src/lib/passwordPolicy.ts:16-24 | no issue exactly when at least 12 code units long with a lowercase letter, an uppercase letter and a digit |
| `Passwords.JsLengthCounts` | src/lib/passwordPolicy.ts:16-24 | the length counts a character beyond U+FFFF twice |
| `Passwords.RandomInt` | src/lib/passwordPolicy.ts:63-72 | the loop returns the first raw value below the limit, reduced |
| `Passwords.OneByOne` | src/lib/passwordPolicy.ts:63-72 | a raw value that gives nothing alone is passed over, any other decides |
| `Passwords.Unbiased` | src/lib/passwordPolicy.ts:63-72 | every residue is returned for equally many raw values, and more than half of 0xffffffff are accepted |
| `Passwords.ShuffledPermutes` | src/lib/passwordPolicy.ts:54-59 | the shuffle keeps every item |
| `Passwords.ShuffledInjective` | src/lib/passwordPolicy.ts:54-59 | different choices give different arrangements of distinct items |
| `Passwords.ShuffledReaches` | src/lib/passwordPolicy.ts:54-59 | every permutation is reached |
| `Passwords.ExactlyOneChoice` | src/lib/passwordPolicy.ts:54-59 | exactly one choice sequence leads to any given arrangement |
| `Passwords.Shuffle` | src/lib/passwordPolicy.ts:56-59 | the in-place loop computes the shuffle of the values drawn |
| `Passwords.ShuffleFromIsShuffled` | src/lib/passwordPolicy.ts:54-59 | whatever is drawn amounts to some choice sequence |
| `Passwords.GenerateTemporaryPassword` | src/lib/passwordPolicy.ts:38-61 | throws exactly below 4; otherwise the length asked for, only alphabet characters, a symbol among them, and legal exactly from 12 up |
| `Reports.DayKeys` | src/services/reports.ts:30-36 | the IST days from `start` on, one per day of the window |
| `Reports.WindowInDays` | src/services/reports.ts:29-36 | from an IST midnight, every instant of the window falls on one of its days |
| `Reports.Representative` | src/services/reports.ts:423-427 | the first capture than which none is richer: classified before unclassified, then queued before unqueued |
| `Reports.GroupByKey` | src/services/reports.ts:416-422 | the captures of each key, keys in the order they first occur |
| `Reports.FirstKeysInOrder` | src/services/reports.ts:416-422 | of two keys listed, the earlier was captured before the later one ever was |
| `Reports.DedupeByArticle` | src/services/reports.ts:413-432 | one row per distinct key, richest classification, day of the earliest capture |
| `Reports.CountCells` | src/services/reports.ts:313-321 | the counting loop: one exact counter per label and day |
| `Reports.BuildHeatmap` | src/services/reports.ts:307-331 | its sorted entries; day totals count the rows of each day and the grand total the rows of the window, whatever the row keys |
| `Reports.BuildReport` | src/services/reports.ts:438-518 | total = both grand totals = both sums of day totals = sum of quality counts = distinct article keys of the window not seen before it |
| `Reports.CountedAtMostOnce` | src/services/reports.ts:448-474 | two windows whose starts are no further apart than the later one looks back count no article twice |
| `Reports.AdjacentWindows` | src/services/reports.ts:363-370 | across adjacent windows spanning at most 90 days each article is counted at most once |
| `Reports.PrevTotalAgreesIff` | src/services/reports.ts:445-480 | `prevTotal` is at least the previous window's own total, and equal exactly when no article of it was last seen in the stretch only the longer lookback covers |
| `Reports.TrendCountsOldArticle` | src/services/reports.ts:445-480 | an article captured on a day, and before that 90 days and a millisecond earlier: not new in that day's own report, counted in the next day's trend |
| `Reads.EveryDayHasOneSource` | src/services/reads.ts:81-91 | each day of the range is answered by exactly one source, no other day by any |
| `Reads.LeftOutWhenEmpty` | src/services/reads.ts:87-90 | a source is left out exactly when it has no day to answer |
| `Reads.WhichRowsCount` | src/services/reads.ts:81-91 | GA's rows of the path count before the CMS's first day, the CMS's rows of the path or the old id from then on; in the old mode GA's alone |
| `Reads.OneMoreDay` | src/services/reads.ts:192-220 | a day adds its views; one whose push-views are unknown adds none |
| `Reads.ReadsForPath` | src/services/reads.ts:192-220 | views add up over both sources; push-views unknown exactly when a contributing CMS day has none; absent when neither has a row |
| `Reads.RangesAddUp` | src/services/reads.ts:80-91 | splitting a range at any day splits the reads, across the seam between the sources too |
| `Base64.Base64RoundTrip` | src/services/backup.ts:190-194 | decoding undoes encoding for every byte string (section 4 of RFC 4648) |
| `Base64.GroupIsOneNumber` | src/services/backup.ts:190-194 | a group of three bytes and its four sextets are one 24-bit number |
| `Base64.EncodesTheVectors` | src/services/backup.ts:190-194 | a full and two padded groups, as section 10 of RFC 4648 gives them |
| `Backup.AfterCursor` | src/services/backup.ts:243-248 | what follows the cursor is exactly what has not been exported |
| `Backup.ExportTable` | src/services/backup.ts:237-257 | over a table that does not change, every selected row once, in id order, and it ends |
| `Backup.BuildBackup` | src/services/backup.ts:213-261 | the lines of all tables in order, with their counts |
| `Backup.ValueRoundTripsIff` | scripts/restore-backup.ts:67-80 | a column comes back exactly unless a text looks like a timestamp, a date's text does not, or a document is a lone `$base64` object |
| `Backup.NullNeedsItsMarker` | scripts/restore-backup.ts:67-80 | a null can be written to a Json column only through the marker; any other column needs none |
| `Backup.IsStampIff` | scripts/restore-backup.ts:76-76 | the texts that look like a timestamp: digits in all fields, with or without a fraction |
| `Backup.Revive` | scripts/restore-backup.ts:67-80 | the loop revives every column but `_table` |
| `Backup.RowRoundTripsIff` | src/services/backup.ts:185-194 | a row survives backup and restore exactly when all its columns do |

## Left out

- SendFanout.ExecuteCampaign: a batch write is all or nothing; a write that commits but reports failure is not modelled.
- Cap.ThrottlesHold: sends do not overlap and are not forced, as the service is run; rows are stamped in the order they are written.
- CampaignLifecycle.ExecutedAtMostOnce: the pacer runs together with the editorial filter, so a queued row carries no `scheduledAt`; one portal; handlers are steps over values, because their interleaving is the point.
- PacerGate.GatesHold: ticks are serial (one process); two processes ticking at once during a deploy are not modelled. A send starts later than the clock value it is judged by.
- PacerTick.PacerDb.RunPacerTick: all reads of one tick come from one state of the tables; `Backfill.NeverTwiceADay` and `PacerGate.GatesHold` have the others act between them.
- Backfill.NeverTwiceADay: nobody deletes a campaign row, changes its URL or takes back a claim.
- RetentionDecisions.DecisionsUnchanged: an event of a campaign is never older than the campaign row.
- Metrics.RolledReadFirst: campaign rows are not deleted.
- Metrics.LiveReadFirst: the same.
- CampaignLifecycle.RecoveryTellsTruthIff: a retention batch acts on one row's deliveries at a time; a batch that folds several rows is several steps.
- DigestRetention.RetentionIsInvisible: what is stored, at one moment; `DigestStats.DigestReadApart` is about reads at several. A send gets its mail campaign's id before that campaign's delivery events are swept; sends are not deleted.
- DigestRetention.SweepBatches: the event types that nothing in the model distinguishes are one type, with one deleted count.
- EventRetention.DryRunPredicts: about the counts of a dry run, whose queries are not written as a loop.
- WebhookReceipts.AppliedAtMostOnce: applying a snapshot to the account tables is one abstract effect; steps 1 to 6 of the handler (fence, headers, signature) come before this model.
- Passwords.GenerateTemporaryPassword: random values are a list; one that ends too early gives a pending result instead of waiting.
- Reports.BuildReport: the window starts at an IST midnight, as its callers ensure; the key of an article, the row keys and the comparison of labels are given.
- Reads.ReadsForPath: figures are added day by day instead of in grouped queries; the URL rules that find a story's rows are given.
- Backup.ExportTable: rows are not inserted or deleted while a table is paged; ids are numbers.
- Backup.RowRoundTripsIff: JSON text, numbers beyond integers, and the calendar text of a date are taken as given; the text of each date in the row reads back, as `toISOString` promises inside its range.
- IstClock.NextAllowedIsLeast: window edges are minutes of the day; parsing and rejecting `HH:MM` text is not modelled.
- The poller (feed parsing, title normalisation, GUID claim): a captured row appears as one step of the lifecycle.
- HMAC, bcrypt, constant-time comparison and JSON parsing: abstract.
- Route plumbing, authentication, audit log, rate limits, redaction, user interface and network calls: no property of their own.
- The regular expressions that classify titles and pages: only the four authority tiers matter here.
- Digest building and sending, audience ingest, search and analytics imports, and the other reports.
