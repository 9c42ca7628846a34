# Tenant runtime: protocols and recovery

This project models the stateful core of the tenant runtime and proves what it promises.

- **From Hermes to Foundry.** A stream of Hermes events is normalised (`HermesLog`, `HermesStream`,
  `HermesTheorems`, `HermesOutcomes`, with the recogniser of typed routine results in `Transcript`), its text deltas are
  coalesced (`Coalescer`), and one claim reports it to Foundry under lost responses, a lost lease,
  approvals and an event budget (`ClaimCalls`, `ClaimEvidence`, `ApprovalLaws`, `ClaimWorker`, `ClaimOutcomes`). `Pipeline`
  puts the three together.
  `WorkerLoop` is the supervisor that claims slots and replays ambiguous claims.
- **Crash recovery on disk.** The publication spool ledger is a quota allocator whose truth is spread over a
  ledger, snapshot directories and journals (`Spool`, `SpoolOutcomes`, `PublicationVolume`, and `SpoolRaces` for concurrent
  calls). A profile is materialised, upgraded in place, fenced and removed (`ProfileSeeds`,
  `LegacyUpgrades`, `ProfileLifecycle`, `ProfileOutcomes`, `ProfileStore`).
- **The sliding-window limiter** of the runtime and the backend (`RateLimiter`).

## How it is built

Classes follow the code step by step; their contracts tie every result and every new state to a
specification that does not mention the fields: the log of accepted events, the log of calls made, the events
consumed and yielded, or the *trail* of disk states after each write. The theorems are then about those
specifications. Everything the environment decides - answers of Foundry and Hermes, clock readings, listing
orders, what a failed removal leaves behind, where a crash falls - is an argument, so each statement holds for
every choice.

The modules named `...Outcomes` say what those specifications come to, without the steps they are made of: which logs are
accepted and what each yielded event carries, what is on disk when a call has finished, and when a claim must be brought
to its conclusion.

Conventions of the model:

- An atomic write (rename, unlink, directory removal in the spool, ledger or manifest replacement) is one
  step. A crash may fall between any two steps; for the profile directory also inside its removal.
- Digests, name-based UUIDs and receipt ids are the tuples they are computed from. The approval request id joins its parts with
  colons, so two different runs could collide in text; within one claim the run is fixed.
- The JSON codec, the activity-kind table, the printable test for activity subjects, timestamp parsing and the soul
  templates are parameters.
- A value that cannot be hashed, where the code tests membership in a set, is treated as not a member.
- A clock reading is identified by the number of answers received before it and its place since the last of them, so
  that nothing can be awaited between readings of one moment. No order of the readings is assumed.
- Every status poll, decision, question to Hermes and settlement of an approval is in the log of calls. From the log and the
  answers alone it is computed where the approval stands, and each such call must fit that and the clock
  (`ClaimEvidence.PhaseOf`, `Fits`); the theorems of `ApprovalLaws` hold for every such log, and the worker's logs are such.
- The worker's answers come from a finite script; when it runs out the process has died. A timeout that
  escapes a call other than an approval wait counts as the death of the process too.

## What does not hold as documented, and when it does

Each of these is proved of the code as it is: a lemma at a concrete input shows the failure, and another states the
exact condition for all inputs.

- *Quota.* `freeze` reserves the prepared size but reconciliation charges the copied size without any check, so a source
  that grows between the two can push a profile over its byte quota (`Spool.GrownSourceExceedsQuota`). After any sweep that
  finds the publication the quotas hold exactly when the copies fit beside what the sweep has left
  (`Spool.GrownSourceCharge`), and on a quiet volume exactly when they fit in the room there was before the call
  (`Spool.GrownSourceFits`). Coverage and the two count quotas hold whatever the sources do.
- *Epochs.* A completed deletion leaves a marker without an epoch. A later cleanup without deletion overwrites
  it and may record a lower epoch (`ProfileLifecycle.ForgottenEpochReturnsLower`); the marker is overwritten exactly then
  (`DeletedIsOverwritten`), and along cleanups epochs only ever grow while there is one (`EpochsNeverDecrease`).
- *Fences.* `fence_deletion` lowers the epoch exactly when the tombstone asks for a repair and the manifest does
  not forbid it (`FenceIsFenced`, with `FenceLowersRepair`).
- *Idempotence.* Repeating a materialisation that answered EXISTING changes nothing exactly when it left a
  steady profile (`LegacyUpgrades.RepeatChangesNothing`); a seed that still names the legacy model route can
  make the second call ask for a repair (`UnsteadyRepeat`).
- *Retry after a crash.* A combined model and provider upgrade refuses the configuration that it has written itself
  (`UpgradeTwice`, `CrashBeforeMark`, with `CombinedUpgradeIsRefused`). A crash between the soul's mark and the memory
  record is answered EXISTING on retry, but the old memory record stays (`CrashAfterMark`, with `MemoryRecordStaysOld`).
- *What EXISTING says.* The configuration agrees with the fingerprint exactly when every section that no upgrade
  rewrites agreed before (`ExistingAgrees`). In particular an old soul on the old model with the previous memory default
  ends with a manifest that records the new memory mode and a configuration that keeps the old one (`MemoryStaysOld`).
- *Provider upgrade.* A seed without a base URL can never have its own older configuration upgraded
  (`ProviderUpgradeNeedsBaseUrl`, with `NoBaseUrlIsRefused`).

## Model

| member | source | states |
|---|---|---|
| Spool.CapacityIsRoom | runtime/allies_runtime/files.py:1455-1474 | the four capacity checks of a reservation hold exactly when all quotas still hold with the new record |
| Spool.FreezeKeepsSafe | runtime/allies_runtime/files.py:174-225 | every disk state of a freeze keeps coverage and the counts; and the recorded sizes and the bytes too if the copies are no longer than the reservation |
| Spool.ReleaseKeepsSafe | runtime/allies_runtime/files.py:259-277 | the same for a release |
| Spool.MergeKeepsSafe | runtime/allies_runtime/files.py:382-421 | on a safe disk the merge drops and adds no record, charges no byte more where sizes are claimed, and leaves releasing records alone |
| Spool.ReconcileKeepsSafe | runtime/allies_runtime/files.py:338-422 | every disk state of a reconciliation is safe |
| Spool.StaleKeepsSafe | runtime/allies_runtime/files.py:473-519 | the same for the removal of stale copies |
| Spool.ProfileCleanupKeepsSafe | runtime/allies_runtime/files.py:314-335 | the same for the removal of a profile's spools |
| Spool.StepKeepsSafe | runtime/allies_runtime/files.py:174-519 | any operation, cut short after any write, leaves a safe disk; only the byte quotas need sources that do not grow |
| Spool.EveryRunIsSafe | runtime/allies_runtime/files.py:174-519 | the same over every run with crashes, at each level: coverage, counts, and - for sources that do not grow - bytes |
| Spool.EveryRunIsCovered | runtime/allies_runtime/files.py:174-519 | over every run with crashes, whatever becomes of the sources, each snapshot directory is recorded under its profile |
| Spool.ReconcileAddsNoCharge | runtime/allies_runtime/files.py:382-421 | after any such run reconciliation adds no record |
| Spool.QuotasHoldForever | runtime/allies_runtime/files.py:1455-1474 | from an empty volume: at most 20 records and 2 copying for every run; 100,000,000 bytes a profile and 250,000,000 a volume for every run whose sources do not grow |
| Spool.GrownSourceCharge | runtime/allies_runtime/files.py:396-418 | after a freeze of a grown source and any sweep that finds it, the quotas hold if and only if the copies fit beside the other records |
| Spool.GrownSourceFits | runtime/allies_runtime/files.py:396-418 | on a quiet volume, if and only if the copies fit in the room left before the freeze |
| Spool.GrownSourceExceedsQuota | runtime/allies_runtime/files.py:396-418 | a concrete grown source after which a profile is over its quota |
| Spool.AllReleasingPicked | runtime/allies_runtime/files.py:428-432 | with at most `limit` records releasing, every one of them is picked |
| Spool.ReconcileCompletes | runtime/allies_runtime/files.py:425-458 | a picked release ends with record, snapshot and journal gone |
| Spool.CrashedReleaseIsFinished | runtime/allies_runtime/files.py:259-277 | reconciliation after a crash anywhere in a release removes record, snapshot and journal |
| SpoolOutcomes.ReleaseEnds | runtime/allies_runtime/files.py:259-277 | a release of a frozen or releasing publication under its profile leaves the disk without its record, snapshot and journal and all else as it was; any other release changes nothing |
| SpoolOutcomes.StaleEnds | runtime/allies_runtime/files.py:473-519 | with at most `limit` of them, exactly the copying records past their age and without a journal lose record, snapshot and copies |
| SpoolOutcomes.ProfileCleanupEnds | runtime/allies_runtime/files.py:314-335 | nothing of the profile is left, and everything of the others is |
| SpoolOutcomes.AllCompleteFound | runtime/allies_runtime/files.py:350-381 | a scan discovers every complete publication it lists when there are at most `limit` |
| SpoolOutcomes.MergeSettles | runtime/allies_runtime/files.py:396-421 | a complete publication that is not being released is frozen by the merge, if discovered, under its profile and with the size of its journal |
| SpoolOutcomes.MergeLeaves | runtime/allies_runtime/files.py:382-421 | the record of a publication without a complete snapshot is left alone |
| SpoolOutcomes.ReconcileSettles | runtime/allies_runtime/files.py:338-422 | after a sweep every complete publication the scan lists, unless it is being released, has a frozen record with its profile and the size of its journal |
| SpoolOutcomes.ReconcileLeavesRest | runtime/allies_runtime/files.py:338-422 | a sweep leaves every other record that is not releasing alone |
| SpoolOutcomes.FreezeEnds | runtime/allies_runtime/files.py:174-225 | a new freeze on a swept disk ends with the prepared copies as a snapshot, its journal and a frozen record if there is room and the sources can be copied; otherwise the disk is as after the sweep |
| SpoolOutcomes.FreezeRefused | runtime/allies_runtime/files.py:174-190 | what is prepared or frozen already decides whether a freeze writes nothing at all |
| SpoolOutcomes.CrashedFreezeIsFinished | runtime/allies_runtime/files.py:174-225 | a freeze cut before its last write, the ledger mark, and one sweep that finds it end, up to the time of the update, as the completed freeze and the same sweep |
| PublicationVolume.PickReleasing | runtime/allies_runtime/files.py:426-432 | finds the first `limit` releasing records in listing order |
| PublicationVolume.DropCompleted | runtime/allies_runtime/files.py:445-458 | removes exactly the completed records that are still releasing under the same profile |
| PublicationVolume.ScanJournals | runtime/allies_runtime/files.py:350-381 | discovers up to `limit` journals with a complete snapshot, in scan order |
| PublicationVolume.MergeFound | runtime/allies_runtime/files.py:382-421 | re-checks each discovered publication under the lock and merges it; what that comes to is `SpoolOutcomes.MergeSettles` and `MergeLeaves` |
| PublicationVolume.PickStale | runtime/allies_runtime/files.py:473-519 | picks up to `limit` copying records past their age and without a journal, in listing order |
| PublicationVolume.CheckCapacity | runtime/allies_runtime/files.py:1455-1476 | the reservation's loops over the ledger decide capacity and free space |
| PublicationVolume.Volume.CompleteRelease | runtime/allies_runtime/files.py:461-470 | snapshot first, journal second |
| PublicationVolume.Volume.Release | runtime/allies_runtime/files.py:259-277 | goes through exactly the specified disk states: marked, snapshot gone, journal gone, record gone |
| PublicationVolume.Volume.CompleteReleasing | runtime/allies_runtime/files.py:425-458 | goes through exactly the specified disk states |
| PublicationVolume.Volume.Reconcile | runtime/allies_runtime/files.py:338-422 | goes through exactly the specified disk states, which end as `SpoolOutcomes.ReconcileSettles` says, and reports at most `limit` discoveries |
| PublicationVolume.Volume.CleanStale | runtime/allies_runtime/files.py:473-519 | goes through exactly the specified disk states |
| PublicationVolume.Volume.CleanProfile | runtime/allies_runtime/files.py:314-335 | goes through exactly the specified disk states |
| PublicationVolume.Volume.ReservePublication | runtime/allies_runtime/files.py:1443-1483 | accepts an equal reservation, refuses a different one, and otherwise needs capacity |
| PublicationVolume.Volume.Snapshot | runtime/allies_runtime/files.py:190-225 | copy, rename, journal, ledger - or the copy removed and the record released |
| PublicationVolume.Volume.Freeze | runtime/allies_runtime/files.py:174-225 | goes through exactly the specified disk states, which end as `SpoolOutcomes.FreezeEnds` says; a success has a journal |
| SpoolRaces.NextKeeps | runtime/allies_runtime/files.py:382-470 | every step of concurrent releases and reconciliations keeps coverage and every process's view |
| SpoolRaces.ReleasesAreNeverUndone | runtime/allies_runtime/files.py:382-420 | a releasing record is never made frozen again and a deleted one never comes back, in any interleaving |
| SpoolRaces.GoneStaysGone | runtime/allies_runtime/files.py:382-420 | once its record is gone a publication under release stays gone |
| RateLimiter.SpacedIsLimited | runtime/allies_runtime/observability.py:318-328 | a spaced history has at most the limit in every window of one second |
| RateLimiter.LiveIsWindow | runtime/allies_runtime/observability.py:319-324 | the pruned deque is exactly the accepted events of the last second |
| RateLimiter.Prune | backend/observability/events.py:463-466 | drops exactly the expired front |
| RateLimiter.ErrorRateLimiter.Allow | backend/observability/events.py:455-471 | accepts exactly when fewer than the limit were accepted in the last second, for any nondecreasing clock |
| RateLimiter.ErrorRateLimiter.EveryWindow | runtime/allies_runtime/observability.py:312-329 | no window of any bucket ever exceeds its limit |
| RateLimiter.UnlimitedExactly | runtime/allies_runtime/observability.py:296-314 | exactly the nameless events that report neither an error nor a meaningful status are not limited |
| RateLimiter.FailuresAreLimited | runtime/allies_runtime/observability.py:296-305 | every failure is limited as one, by its status class if it has one |
| Coalescer.GroupingKeepsMeaning | runtime/allies_runtime/foundry.py:1789-1796 | joining groups changes neither the text nor the other events nor their order |
| Coalescer.TextIsJoined | runtime/allies_runtime/foundry.py:1815-1868 | text that follows text it could have been joined to is only yielded apart from it after the first text or when a window closed, and there are no more such places than timeouts |
| Coalescer.MoveOk | runtime/allies_runtime/foundry.py:1841-1868 | one event of the input keeps the account: yielded groups, buffer and held event are the input in order, and joined text fits the cap |
| Coalescer.CoalescedStream.Flush | runtime/allies_runtime/foundry.py:1789-1796 | joins the buffer; it is never called on an empty one |
| Coalescer.CoalescedStream.Next | runtime/allies_runtime/foundry.py:1815-1868 | keeps the account; an error of the source is raised once and, like the end, only after everything before it went out, and the stream ends only if the source has |
| Coalescer.CoalescedStream.Pull | runtime/allies_runtime/foundry.py:1819-1868 | the first text goes out at once; the loop stops at the end of the source |
| Coalescer.CoalescedStream.Drain | runtime/allies_runtime/foundry.py:1820-1826 | after the end: the buffer, then the error once, then nothing |
| Coalescer.CoalescedStream.Accept | runtime/allies_runtime/foundry.py:1841-1868 | does with one event what the step specification says |
| Coalescer.CoalescedStream.AwaitTimeout | runtime/allies_runtime/foundry.py:1836-1837 | a window that closes flushes the buffer |
| Coalescer.CoalescedStream.Close | runtime/allies_runtime/foundry.py:1870-1877 | closing loses nothing that was buffered |
| Transcript.VerdictIsUnique | runtime/allies_runtime/hermes.py:694-836 | a transcript has at most one lawful report |
| Transcript.ReferencesMean | runtime/allies_runtime/hermes.py:635-660 | references are read exactly when each is one, in order and unchanged |
| Transcript.ReportMeans | runtime/allies_runtime/hermes.py:663-691 | a report is read exactly when it has the three fields within their limits, and carries them over |
| Transcript.IsRejected | runtime/allies_runtime/hermes.py:751-769 | finds whether a wrapper call was rejected by its single reply |
| Transcript.FindCalls | runtime/allies_runtime/hermes.py:697-771 | collects exactly the non-rejected result calls and the last assistant tool call, or finds the transcript malformed |
| Transcript.FindReply | runtime/allies_runtime/hermes.py:783-835 | finds the only reply to a call, after it, last among tool messages, and accepted |
| Transcript.Recognise | runtime/allies_runtime/hermes.py:773-836 | the one call that is the last assistant call and has an accepted reply |
| Transcript.RoutineResultFromTranscript | runtime/allies_runtime/hermes.py:694-836 | no result exactly when nothing reports one and nothing is malformed; a typed result exactly from the sole lawful report; otherwise refused |
| HermesStream.NormalizedStream.Normalize | runtime/allies_runtime/hermes.py:1022-1351 | accepts an event exactly when the log so far admits it (`HermesOutcomes.AcceptedExactly`), yields what the log makes visible (`YieldsCarryPayloads`, `TerminalCarriesReport`), and changes no history otherwise |
| HermesStream.NormalizedStream.StartRun | runtime/allies_runtime/hermes.py:1042-1055 | one run.started, first, with a run id and the session asked for |
| HermesStream.NormalizedStream.Text | runtime/allies_runtime/hermes.py:1201-1210 | a bounded delta is yielded as text |
| HermesStream.NormalizedStream.CompleteText | runtime/allies_runtime/hermes.py:1176-1198 | a completion yields its content only if no delta came before |
| HermesStream.NormalizedStream.StartLegacy | runtime/allies_runtime/hermes.py:1214-1233 | an unidentified start is counted per tool |
| HermesStream.NormalizedStream.StartIdentified | runtime/allies_runtime/hermes.py:1234-1252 | an identified start has a new call id |
| HermesStream.NormalizedStream.EndLegacy | runtime/allies_runtime/hermes.py:1259-1273 | an unidentified completion needs an open start |
| HermesStream.NormalizedStream.EndIdentified | runtime/allies_runtime/hermes.py:1274-1297 | an identified completion closes an open call of the same kind |
| HermesStream.NormalizedStream.RequestApproval | runtime/allies_runtime/hermes.py:1086-1148 | one bounded approval request at a time, under a new id |
| HermesStream.NormalizedStream.AnswerApproval | runtime/allies_runtime/hermes.py:1149-1174 | only the pending request is answered, once |
| HermesStream.NormalizedStream.CompleteRun | runtime/allies_runtime/hermes.py:1298-1337 | the run completes only with nothing open, and keeps its terminal event back |
| HermesStream.NormalizedStream.Finish | runtime/allies_runtime/hermes.py:1062-1075 | done releases the terminal event once |
| HermesTheorems.Shape | runtime/allies_runtime/hermes.py:1042-1084 | an accepted log is run.started, running events, run.completed, done - or a prefix |
| HermesTheorems.YieldsAreNumbered | runtime/allies_runtime/hermes.py:1340-1351 | yielded events are numbered 1 to n under the run id of run.started |
| HermesTheorems.YieldsInOrder | runtime/allies_runtime/hermes.py:1062-1075 | exactly one execution.completed is yielded, last, once done is accepted |
| HermesTheorems.YieldsCarryText | runtime/allies_runtime/hermes.py:1176-1210 | the yielded text is the assistant text accepted |
| HermesTheorems.StartedOnce | runtime/allies_runtime/hermes.py:1234-1252 | no call id is started twice |
| HermesTheorems.EndedAfterStart | runtime/allies_runtime/hermes.py:1274-1297 | every identified completion follows its start, under the same kind, and is the only one |
| HermesTheorems.CallsAreMatched | runtime/allies_runtime/hermes.py:1211-1305 | in a completed run each identified start has exactly one later completion of its kind |
| HermesTheorems.LegacyCallsBalance | runtime/allies_runtime/hermes.py:1214-1273 | unidentified completions never outnumber starts and balance at the end |
| HermesTheorems.ApprovalsAlternate | runtime/allies_runtime/hermes.py:1086-1174 | requests and answers alternate with matching ids |
| HermesTheorems.ApprovalIdsAreFresh | runtime/allies_runtime/hermes.py:1086-1174 | no approval id is requested twice |
| HermesOutcomes.AcceptedExactly | runtime/allies_runtime/hermes.py:1022-1351 | a log is accepted if and only if each of its events belongs there, which is said by positions: what came before, what is still open and what waits |
| HermesOutcomes.YieldsCarryPayloads | runtime/allies_runtime/hermes.py:1086-1297 | each accepted event yields what it shows, at its place: an activity with its kind, subject, duration and the raw failed flag, an approval with its raw id and outcome |
| HermesOutcomes.TerminalCarriesReport | runtime/allies_runtime/hermes.py:1298-1337 | in an accepted log with done the last yield carries the routine result r if and only if the transcript has a sole lawful report of r, and none if and only if it reports none; a run that is no routine carries none |
| ClaimCalls.NoGap | runtime/allies_runtime/foundry.py:2502-2523 | event numbers are 1, 2, 3, ... without a gap and at most 100000 |
| ClaimCalls.SentAtMostTwice | runtime/allies_runtime/foundry.py:1889-1907 | an event is sent at most twice, the second time right after a lost response and unchanged |
| ClaimCalls.FreshIsNext | runtime/allies_runtime/foundry.py:2948-2964 | a new event takes the next number, and none is sent once any call has been made with the lease known to be lost |
| ClaimCalls.NothingNewAfterLoss | runtime/allies_runtime/foundry.py:2498-2517 | a call made with the lease known to be lost is an event only as the replay under way, and no event of any kind follows it |
| ClaimCalls.TerminalIsLast | runtime/allies_runtime/foundry.py:3154-3157 | terminal calls are numbered above every event, at most 100001, and no event follows any closing call |
| ClaimCalls.ClosedOnce | runtime/allies_runtime/foundry.py:2613-3205 | at most one closing call is acknowledged, and none follows it |
| ClaimCalls.ConclusionComesFirst | runtime/allies_runtime/foundry.py:3012-3101 | a completion or typed result is one call and its resends, before any other closing call |
| ClaimCalls.ConclusionLeavesNothingOpen | runtime/allies_runtime/foundry.py:2622-2628 | no approval is unanswered when the claim concludes |
| ClaimCalls.FailureKnowsOfConclusion | runtime/allies_runtime/foundry.py:3101-3113 | a failure is never reported over a conclusion whose outcome is unknown |
| ClaimCalls.ApproveIsAuthorised | runtime/allies_runtime/foundry.py:2785-2847 | approve goes to Hermes only after the request was announced and a poll for it came back with a recorded approve |
| ClaimCalls.ApprovedIsFounded | runtime/allies_runtime/foundry.py:2878-2947 | "approved" is only posted after such an approve was sent |
| ClaimCalls.PostedGrows | runtime/allies_runtime/foundry.py:2613-2975 | posted events are never taken back |
| ClaimCalls.PostedBeforeClosing | runtime/allies_runtime/foundry.py:2613-3205 | every posted event precedes every closing call |
| ClaimCalls.RelayableKeepsText | runtime/allies_runtime/foundry.py:2629-2636 | events that are not relayed carry no text |
| ClaimEvidence.ApproveIsInTime | runtime/allies_runtime/foundry.py:2801-2847 | every approve rests on an answer that reported a recorded approve for that very request, and on a clock reading before expiry and acknowledgement deadline with no await before the sending |
| ClaimEvidence.ApproveIsCheckedLast | runtime/allies_runtime/foundry.py:2829-2838 | the last two readings before an approve find the expiry and the acknowledgement deadline still ahead |
| ClaimEvidence.ApprovedIsInTime | runtime/allies_runtime/foundry.py:2878-2947 | a posted "approved" goes back to such a timely approve |
| ClaimEvidence.DecisionsBeatExpiry | runtime/allies_runtime/foundry.py:2829-2838 | whatever is decided at Hermes goes out before the announced expiry |
| ClaimEvidence.LossStopsEvents | runtime/allies_runtime/foundry.py:2167-2177 | once an answer has brought the loss of the lease no new event goes out, and at most the first call after it repeats one |
| ApprovalLaws.OnlyForward | runtime/allies_runtime/foundry.py:2694-2947 | until the next announcement an approval only moves forward: waited for, told by a poll, sent to Hermes, known, settled, resolved |
| ApprovalLaws.JudgementEndsPolling | runtime/allies_runtime/foundry.py:2200-2265 | the first poll that says how the wait ends is the last poll |
| ApprovalLaws.PollsBeatExpiry | runtime/allies_runtime/foundry.py:2200-2217 | every poll goes out before the announced expiry and never with the lease known to be lost |
| ApprovalLaws.DecidedOnce | runtime/allies_runtime/foundry.py:2267-2329 | a decision goes to Hermes once, after the last poll, and is not resent when its answer is lost |
| ApprovalLaws.DecisionFollowsJudgement | runtime/allies_runtime/foundry.py:2785-2847 | a decision is the one a poll for the request announced last recorded, or the rejection of a wait it called cancelled, with no await between and the announced expiry ahead |
| ApprovalLaws.SettledOnce | runtime/allies_runtime/foundry.py:2785-2877 | one announcement is settled at most once |
| ApprovalLaws.SettlementIsEarned | runtime/allies_runtime/foundry.py:2785-2877 | how a wait is settled was earned since its announcement: Hermes reported that lapse, or took what the poll had recorded, or, for "expired", a poll said so or the clock passed the expiry |
| ApprovalLaws.VerdictStands | runtime/allies_runtime/foundry.py:2849-2877 | once a poll says "expired", Hermes reports a lapse or takes the decision, or the wait is settled, nothing is polled or decided any more and every settlement and resolution says just that |
| ApprovalLaws.LapseIsFinal | runtime/allies_runtime/foundry.py:2785-2904 | an expired or cancelled wait sends no approve to Hermes and can only be settled and resolved as expired or cancelled |
| ApprovalLaws.PassedExpiryEndsWait | runtime/allies_runtime/foundry.py:2202-2263 | when the clock has passed the expiry after the announcement, a poll or the pause behind it, the wait resolves as expired whatever is answered later, and nothing is polled or decided any more |
| ApprovalLaws.ResolutionIsSettled | runtime/allies_runtime/foundry.py:2878-2947 | a posted resolution answers the request announced last and says how its wait was settled, which was done exactly once since |
| ApprovalLaws.AllWaitsStand | runtime/allies_runtime/foundry.py:2694-2947 | over a whole log what has come to light about a wait stands, and a lapsed wait stays lapsed |
| ClaimWorker.ClaimRun.SendRetry | runtime/allies_runtime/foundry.py:1889-1907 | sends a call once more after a lost response and keeps the log lawful |
| ClaimWorker.ClaimRun.Post | runtime/allies_runtime/foundry.py:2948-2964 | posts the event in hand under the next number |
| ClaimWorker.ClaimRun.WaitForApproval | runtime/allies_runtime/foundry.py:2179-2265 | the wait ends with what the last poll said, at the first poll that says anything; or, with nothing said, because the last clock reading is past the expiry, the lease is lost, or the process went away |
| ClaimWorker.ClaimRun.AwaitDecision | runtime/allies_runtime/foundry.py:2785-2877 | the approval is settled exactly as the log, the answers and the clock say by then, or the lease is lost, or the fault is the one the poll, Hermes or a passed deadline calls for |
| ClaimWorker.ClaimRun.TurnDown | runtime/allies_runtime/foundry.py:2825-2877 | a cancelled request is rejected at Hermes first, then settled as the lapse Hermes reports with its answer, otherwise as cancelled |
| ClaimWorker.ClaimRun.Carry | runtime/allies_runtime/foundry.py:2805-2877 | the decision goes out only right after three readings that find both deadlines, the expiry and the acknowledgement deadline ahead |
| ClaimWorker.ClaimRun.Acknowledge | runtime/allies_runtime/foundry.py:2849-2877 | when Hermes answers, the wait is settled as the lapse it reports, otherwise by the decision; when its answer is lost, as Hermes reports later |
| ClaimWorker.ClaimRun.Reconcile | runtime/allies_runtime/foundry.py:2267-2329 | a decision whose answer was lost is settled by what Hermes reports before the acknowledgement deadline, without resending it; a contradiction or the passed deadline is a fault |
| ClaimWorker.ClaimRun.HandleRequest | runtime/allies_runtime/foundry.py:2694-2877 | posts exactly the wanted announcement, or refuses without a call; a fault is one of an event that does not fit, an undecided wait or a failed call |
| ClaimWorker.ClaimRun.HandleResponse | runtime/allies_runtime/foundry.py:2878-2947 | posts exactly the wanted resolution, or refuses without a call; a fault is one of an event that does not fit or a failed call |
| ClaimWorker.ClaimRun.Forward | runtime/allies_runtime/foundry.py:2948-2980 | relays a delta or an activity; a fault is one of an event that does not fit or a failed call |
| ClaimWorker.ClaimRun.ExhaustBudget | runtime/allies_runtime/foundry.py:2652-2693 | at the event limit the claim ends in the reserved slot |
| ClaimWorker.ClaimRun.Handle | runtime/allies_runtime/foundry.py:2613-2980 | every event is answered by the post it calls for before anything else, or refused |
| ClaimWorker.ClaimRun.Follow | runtime/allies_runtime/foundry.py:2613-2980 | the loop goes on to the end of the stream unless the lease is lost or there is a cause: a failed arrival, a script that ran out, an event refused, a wait left undecided, a failed call or the budget spent |
| ClaimWorker.ClaimRun.Prepare | runtime/allies_runtime/foundry.py:2369-2523 | checks, staging and bootstrap, then the dispatched event as number 1, which must go out unless the claim is invalid, a continued routine, or a call failed; with files the renewal is watched since before their staging |
| ClaimWorker.ClaimRun.Finish | runtime/allies_runtime/foundry.py:2981-3113 | after the stream: stopped if the lease is lost, a fault without a terminal event, otherwise the conclusion, which is sent and acknowledged unless something hindered it |
| ClaimWorker.ClaimRun.Recover | runtime/allies_runtime/foundry.py:3114-3205 | every fault is first reported by the call it calls for |
| ClaimWorker.ClaimRun.Run | runtime/allies_runtime/foundry.py:2355-3214 | for every pattern of answers the log is lawful and backed by answers and clock, waits stand, renewal is watched since before the staging of files and before every event above number 1, a conclusion says what the terminal event said, the claim closes unless its process dies or is cancelled, and it is concluded unless one of the named causes hindered it |
| ClaimOutcomes.CleanRunConcludes | runtime/allies_runtime/foundry.py:2613-3090 | a claim that may be dispatched, whose calls and renewals all succeed and whose stream brings relayable events of this claim and then the terminal event, is concluded and the conclusion is acknowledged |
| Pipeline.PostedTextIsPrefix | runtime/allies_runtime/foundry.py:2613-2975 | at every point the posted text is a prefix of the assistant text of the whole accepted log |
| Pipeline.PostedIsAccepted | runtime/allies_runtime/foundry.py:2613-2975 | ... and, at every call, of the assistant text in the raw events accepted by the time of that call |
| Pipeline.ConcludedTextIsWhole | runtime/allies_runtime/foundry.py:3065-3090 | when the claim concludes the two are equal and done has been accepted |
| Pipeline.WholeIsClean | runtime/allies_runtime/foundry.py:2613-2975 | a complete log without approvals, within the budget and with a reportable result for a routine, gives such a stream |
| Pipeline.TurnConcludes | runtime/allies_runtime/foundry.py:2592-3090 | so that a turn over such a log is concluded if its calls and renewals succeed |
| Pipeline.Arrivals | runtime/allies_runtime/hermes.py:1022-1351 | normalises raw events up to the first that is refused and brings what is yielded, with pauses, to the coalescer; the stream ends only after a complete log |
| Pipeline.Turn | runtime/allies_runtime/foundry.py:2592-3090 | normaliser, coalescer and worker end to end: lawful and backed calls, text at every call a prefix of what was accepted by then and all of it at the conclusion, which is reached if nothing disturbs it |
| WorkerLoop.JitterStaysClose | runtime/allies_runtime/foundry.py:79-84 | a drawn delay is at most a quarter below its base and between the initial delay and 10 seconds |
| WorkerLoop.BackoffDoubles | runtime/allies_runtime/foundry.py:3345-3347 | after n fruitless polls the backoff is the initial delay doubled n times, capped at 10 seconds |
| WorkerLoop.ReplaysAreContiguous | runtime/allies_runtime/foundry.py:3327-3351 | requests for one claim id follow each other, and a settled or given-up id is never asked for again |
| WorkerLoop.LostIsReplayed | runtime/allies_runtime/foundry.py:3314-3351 | over the whole run a claim whose answer was lost is asked for by every request until an answer settles it or a turn finds its lease run out |
| WorkerLoop.OpenWasAskedLast | runtime/allies_runtime/foundry.py:3327-3351 | an ambiguous claim is the one asked for last |
| WorkerLoop.Supervisor.BackOff | runtime/allies_runtime/foundry.py:3345-3347 | draws the next delay around the backoff and doubles it |
| WorkerLoop.Supervisor.Expire | runtime/allies_runtime/foundry.py:3314-3321 | forgets exactly the ambiguous claims older than the lease |
| WorkerLoop.Supervisor.SendRequest | runtime/allies_runtime/foundry.py:3327-3344 | asks for exactly the free slots; a lost answer makes the claim ambiguous, a settled one ends that, and a claim that ended is counted out |
| WorkerLoop.Supervisor.Ask | runtime/allies_runtime/foundry.py:3322-3366 | while a claim is ambiguous the request carries its id, the backoff follows the answer, and a claim granted is due to be started |
| WorkerLoop.Supervisor.FillSlots | runtime/allies_runtime/foundry.py:3322-3372 | asks while there is room and claims are granted, and starts every one; it returns only when stopping, full, out of answers or after another answer |
| WorkerLoop.Supervisor.TakeOn | runtime/allies_runtime/foundry.py:3366-3372 | one more claim is started and active, and polling starts afresh |
| WorkerLoop.Supervisor.AwaitClaims | runtime/allies_runtime/foundry.py:3373-3392 | polling starts afresh when a claim ends |
| WorkerLoop.Supervisor.Idle | runtime/allies_runtime/foundry.py:3393-3427 | waits for activity or the current delay, and does what the activity says; the loop ends only when stopping or idle for long enough |
| WorkerLoop.Supervisor.Turn | runtime/allies_runtime/foundry.py:3311-3427 | a turn first forgets the claims whose lease has run out, and asks when reconciled and with room |
| WorkerLoop.Supervisor.Run | runtime/allies_runtime/foundry.py:3284-3427 | over every run the requests are lawful - each carries the ambiguous id if there is one and asks for 1 to 8 slots - at most one claim is ambiguous, every pause is within bounds, the claims started are exactly those granted, in order, the active ones those granted and not ended, and the loop ends only when stopping, idle for long enough or out of answers |
| ProfileSeeds.UpToDate | runtime/allies_runtime/profile_store.py:1987-2010 | a manifest with the seed's fingerprint needs no upgrade unless the seed names the legacy model route |
| ProfileSeeds.SoulHidesMemory | runtime/allies_runtime/profile_store.py:965-1012 | the soul and the managed memory are never upgraded together |
| LegacyUpgrades.UpgradeTwice | runtime/allies_runtime/profile_store.py:863-962 | upgrading again changes nothing, except that a combined model and provider upgrade refuses its own result |
| LegacyUpgrades.ProviderUpgradeNeedsBaseUrl | runtime/allies_runtime/profile_store.py:946-962 | the provider upgrade accepts the runtime's own older configuration exactly when there is a base URL |
| LegacyUpgrades.ExistingIsCurrent | runtime/allies_runtime/profile_store.py:1901-2244 | EXISTING means fingerprint, epoch, operation, generation and identity are the seed's and the profile is complete |
| LegacyUpgrades.ExistingAgrees | runtime/allies_runtime/profile_store.py:2132-2220 | after EXISTING the configuration agrees with the fingerprint if and only if each section no upgrade rewrites agreed before; the memory record is true of it if and only if the memory section was upgraded or as wanted |
| LegacyUpgrades.CurrentStays | runtime/allies_runtime/profile_store.py:1901-2244 | a current profile is left exactly as it is if and only if it is steady |
| LegacyUpgrades.RepeatChangesNothing | runtime/allies_runtime/profile_store.py:1901-2244 | repeating a call that answered EXISTING changes nothing if and only if the profile is steady |
| LegacyUpgrades.UnsteadyRepeat | runtime/allies_runtime/profile_store.py:914-934 | a concrete profile whose second materialisation asks for a repair |
| LegacyUpgrades.CrashBeforeMark | runtime/allies_runtime/profile_store.py:2091-2188 | a retry after a crash before the fingerprint is rewritten ends as the first call would have, unless model and provider were upgraded together |
| LegacyUpgrades.CrashAfterMark | runtime/allies_runtime/profile_store.py:2172-2244 | a retry after it ends the same way, but for the memory record in one gap and for a configuration that is not steady, which is looked at again |
| LegacyUpgrades.CrashInFirst | runtime/allies_runtime/profile_store.py:1915-1973 | the rewrite of a version 1 manifest is taken up after a crash |
| LegacyUpgrades.CombinedUpgradeIsRefused | runtime/allies_runtime/profile_store.py:914-962 | a concrete combined upgrade that is refused after a crash |
| LegacyUpgrades.MemoryRecordStaysOld | runtime/allies_runtime/profile_store.py:2172-2206 | a concrete crash after which the old memory record stays |
| LegacyUpgrades.MemoryStaysOld | runtime/allies_runtime/profile_store.py:965-1012 | a concrete profile whose manifest records a memory mode its configuration does not have |
| LegacyUpgrades.NoBaseUrlIsRefused | runtime/allies_runtime/profile_store.py:946-962 | a concrete seed without a base URL whose older profile is refused |
| ProfileLifecycle.CleanupKeeps | runtime/allies_runtime/profile_store.py:3085-3198 | every state of a cleanup keeps the tombstone and what it says about the removal |
| ProfileLifecycle.MaterializeKeeps | runtime/allies_runtime/profile_store.py:2455-2487 | under a tombstone a materialisation touches nothing and never answers CREATED or EXISTING |
| ProfileLifecycle.DeprovisionedIsTrue | runtime/allies_runtime/profile_store.py:2953-2970 | every DEPROVISIONED receipt, replays included, finds profile, siblings and spools gone |
| ProfileLifecycle.TombstonesAreForever | runtime/allies_runtime/profile_store.py:2455-3198 | over every run with crashes a key that has a tombstone keeps one, and tombstones stay true |
| ProfileLifecycle.CleanupResumes | runtime/allies_runtime/profile_store.py:2971-3046 | the same request after a crash anywhere reaches the state of an undisturbed cleanup |
| ProfileLifecycle.CleanupIsFenced | runtime/allies_runtime/profile_store.py:2971-3101 | a cleanup never lowers an epoch, never acts below the manifest's, and without deletion never displaces a pending deletion |
| ProfileLifecycle.FenceIsFenced | runtime/allies_runtime/profile_store.py:2643-2741 | a fence lowers the epoch exactly over a tombstone that asks for a repair |
| ProfileLifecycle.FenceLowersRepair | runtime/allies_runtime/profile_store.py:2707-2722 | a concrete fence that does |
| ProfileLifecycle.EpochsNeverDecrease | runtime/allies_runtime/profile_store.py:2971-3101 | along cleanups the epoch never decreases while the tombstone has one |
| ProfileLifecycle.EpochsAreForgottenByDeletion | runtime/allies_runtime/profile_store.py:3182-3198 | only a completed deletion forgets the epoch |
| ProfileLifecycle.ForgottenEpochReturnsLower | runtime/allies_runtime/profile_store.py:3048-3083 | after it a lower epoch can be recorded |
| ProfileLifecycle.DeletedIsOverwritten | runtime/allies_runtime/profile_store.py:3048-3083 | exactly a cleanup without deletion and with an epoch above 0 overwrites the deletion marker |
| ProfileLifecycle.CreatedIsThenExisting | runtime/allies_runtime/profile_store.py:2489-2531 | a profile just created is EXISTING for the next call, which changes nothing |
| ProfileLifecycle.CreationResumes | runtime/allies_runtime/profile_store.py:2493-2531 | a creation cut short is completed by the next call for the same seed |
| ProfileOutcomes.ExistingHasCredentials | runtime/allies_runtime/profile_store.py:2246-2268 | after EXISTING each credential of the seed has the value it resolves to now and all others are as before; with a binding sidecar none changes |
| ProfileOutcomes.ExistingHasSoul | runtime/allies_runtime/profile_store.py:2148-2172 | after EXISTING the soul is the seed's where the manifest recorded another or the file was still the bootstrap one; an edited one is kept |
| ProfileOutcomes.MaterializeIsFenced | runtime/allies_runtime/profile_store.py:1901-2244 | no materialisation changes identity, key or epoch of a profile or touches one that has others; one of a later epoch fences it out |
| ProfileOutcomes.OlderIsUpgraded | runtime/allies_runtime/profile_store.py:1987-2220 | every profile as an older runtime left it - threshold, model, memory, soul or provider - is EXISTING and then agrees with the seed in every section |
| ProfileOutcomes.FirstVersionIsUpgraded | runtime/allies_runtime/profile_store.py:1915-1973 | a version 1 manifest is rewritten exactly when the profile is whole and the seed keeps to what version 1 could do |
| ProfileOutcomes.CreatedExactly | runtime/allies_runtime/profile_store.py:2455-2531 | a profile is created if and only if there is no tombstone, nothing in its place, no sibling but its own leftover, and all credentials resolve |
| ProfileOutcomes.CreatedHasEverything | runtime/allies_runtime/profile_store.py:2489-2531 | what is created is current, agrees with the seed, and has its soul and exactly its credentials as resolved |
| ProfileOutcomes.FenceHolds | runtime/allies_runtime/profile_store.py:2738-2763 | a fence answered FENCED without a code has left a pending tombstone of that request and epoch, under which nothing is materialised |
| ProfileOutcomes.FenceTakesHold | runtime/allies_runtime/profile_store.py:2643-2769 | a fence that nothing outranks is answered FENCED and leaves that tombstone exactly when it has not run out |
| ProfileOutcomes.CleanupCompletes | runtime/allies_runtime/profile_store.py:3085-3198 | a cleanup that nothing outranks and in which no removal fails removes profile, siblings and spools and says so exactly when it has not run out and the path can be removed; otherwise a repair is required |
| ProfileOutcomes.TroubleIsReported | runtime/allies_runtime/profile_store.py:3150-3198 | a cleanup in which a removal fails answers that a repair is required and leaves its tombstone pending |
| ProfileStore.Store.CleanUp | runtime/allies_runtime/profile_store.py:2876-3203 | goes through admitted disk states only and ends in the specified one, which is that of `ProfileOutcomes.CleanupCompletes` or `TroubleIsReported` |
| ProfileStore.Store.RemoveAll | runtime/allies_runtime/profile_store.py:3150-3163 | spools, then the directory, then the siblings |
| ProfileStore.Store.FenceDeletion | runtime/allies_runtime/profile_store.py:2565-2769 | writes nothing but the tombstone, and that as `ProfileOutcomes.FenceHolds` and `FenceTakesHold` say |
| ProfileStore.Store.InspectExisting | runtime/allies_runtime/profile_store.py:1883-2244 | goes through exactly the specified states of the files; what they come to is `ProfileOutcomes.ExistingHasCredentials`, `ExistingHasSoul` and `OlderIsUpgraded` |
| ProfileStore.Store.UpgradeConfig | runtime/allies_runtime/profile_store.py:2132-2146 | the replacements tried one after the other succeed exactly when every section asked for is as an older runtime wrote it or as wanted, and leave the catalog, those sections as wanted and all others alone |
| ProfileStore.Store.RewriteFiles | runtime/allies_runtime/profile_store.py:2091-2244 | the writes of an upgrade, in order |
| ProfileStore.Store.MaterializeProfile | runtime/allies_runtime/profile_store.py:2430-2560 | goes through exactly the specified disk states; when they are gone through is `ProfileOutcomes.CreatedExactly` and `MaterializeIsFenced` |

## Left out

- Server-sent event framing and the transports: events start as decoded name and payload pairs, as section 9.2.6 of the WHATWG HTML Standard delivers them.
- Credential resolution, sockets, threads, Docker and release scripts: calls into services that cannot be seen.
- Ownership, file modes, symbolic links inside spools, fsync, Windows branches and stale lock stealing: every locked section is taken to be atomic.
- `.copy` directories left by a crash: no ledger record names them, so coverage is stated for final snapshot directories.
- Terminal calls after the lease is lost: the code awaits between its last check and `complete`, so the lease-loss claim covers ordinary events.
- The `results` and `max_turns` counting of the run loop: a finished claim can be dropped before its result is collected.
- The activity-kind alias table and the subject test: look-ups that would only add easy members.
- `apply_binding`, the publication bridge, incoming file staging and profile reconciliation: they appear only as answers that the claim awaits.
- Order, comments and the server key of the `.env` file: it is modelled as a map of credentials.
- Formatting of a rewritten configuration: sections are compared as values, and a rewrite may change the layout of the file.
- Metadata writes that fail: the disk is then as after a crash at the same point.
- Failure codes in reports: every fault that is neither a loss nor a fence is reported under one code.
