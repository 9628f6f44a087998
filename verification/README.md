# Entryva in Dafny

A model of the parts of Entryva whose guarantees only show over whole runs, with proofs of those guarantees.

- **The gate ledger.** `GateLedger` holds the invitation, visit and event tables and every operation on them.
  `GateMachine` interleaves the read and write halves of entry and extension with sweep writes, scans, link views,
  withdrawals and creations. `GateOneTime`, `GateBooks`, `GateExpiry` and `ExtensionTotals` prove what all runs keep;
  `GateVisits` and `GateAnswers` say what the operations answer and what of it stays; `GateLookups` takes scans and link
  views apart as well; `ExpirySweep` treats the batched sweep with interference; `GateService` is the services in place.
- **The offline gate protocol.** `OfflineSync` is the server's replay. `OfflineRuns` has one device, the server, and a
  network that loses, delays and repeats, with every delivered batch handled step by step and in pieces; `OfflineVisits`
  and `OfflineOnce` count what replay did against what the log says; `OfflineVerification` compares the device's answer with
  the server's after syncing; `OfflineService` is both sides in place.
- **Canonical text for signing.** `CanonicalJson` sorts and prints, `CanonicalNumbers` and `CanonicalText` show that
  printing is injective, `CanonicalSigning` that the signed text determines the value.
- **Recurring passes.** `Calendar` and `DateKeys` are the date arithmetic on string keys; `RecurringRules` the nine checks
  and the daily code; `RecurringScan` the IN/OUT history, `RecurringAnswers` what the guard is told, and
  `RecurringOverlaps` the history with scans that overlap; `RecurringListing` the inside flag; `RecurringQr` the QR text; `RecurringService` the services in place.
- **Caches and loops.** `Occupancy`, `OccupancyRuns`, `OccupancyInvites`, `OccupancyAnswers` and `OccupancyService` are
  apartments, residents and invites; `PassCache` the passes kept on the device; `RouteGuidance` and `VoiceGuide` the nearest-point search and
  what is spoken.

A class method is proved against a function of the old state; what is promised about that function over runs is proved
as lemmas. `Domain`, `Lists` and `Texts` hold what the modules share.

Where the code does less than its texts promise, the model follows the code. Each case has its exact condition and an
input that reaches it:

- The repository's README says that verification never changes the invitation. It does: a scan past validUntil writes
  EXPIRED (`backend/src/modules/verification/verification.service.ts:109-117`). The write is unconditional: if the pass is
  extended and used between the scan's read and its write, a ONE_TIME pass can be used twice
  (`GateLookups.MarkedLateAdmitsTwice`). Without such late writes of the pass it is used at most once
  (`GateLookups.OneTimeWhenNothingLate`), and they are exactly when a used or withdrawn pass does not stay so
  (`GateLookups.OverStaysExactly`).
- An extension whose write comes after a sweep can leave a row EXPIRED with its time still running. Scans then say VALID
  and a ONE_TIME entry is refused (`GateExpiry.SplitExtensionCanDisagree`); `GateExpiry.EntryAgainstScan` is the exact
  condition in every interleaving.
- A retry while the first handling of an event is still under way can record an entry, log it as FAILED and act on the
  event twice (`OfflineOnce.OverlapMislabels`); a database that refuses the SYNCED row has the entry logged as FAILED too.
  `OfflineOnce.ActedOnOnce` is exactly when every logged event was acted on
  once, `OfflineVisits.VisitsMatchAtRest` exactly when the visits made by replay are as many as the SYNCED ALLOWED rows.
- A queued allow of a ONE_TIME pass that leaves no trace on the server makes the device say ALREADY_USED when the server
  does not (`OfflineVerification.AgreeExactly`): the pass was left EXPIRED (`OfflineVerification.StrandedAllowDisagrees`),
  the allow came too late (`OfflineVerification.LateAllowDisagrees`), or it was refused and the pass then extended
  (`OfflineVerification.RefusedThenExtendedDisagrees`).
- Sorting drops a field named `"__proto__"`, so two values that differ only there share their signed text
  (`CanonicalSigning.ProtoKeyIsLost`), and one put into a stored entry goes unnoticed
  (`CanonicalSigning.AddedProtoIsAccepted`); `CanonicalSigning.CanonicalExactly` is the exact law.
- Two scans of one pass at the same moment can both say IN (`RecurringOverlaps.TwoAtOnceBothSayIn`);
  `RecurringOverlaps.KeptThroughoutExactly` is the condition.
- The inside flag of the pass list looks at the newest 500 scans of all passes together
  (`RecurringListing.InsideFlagExactly`, and `RecurringListing.FlagIsMissed`).
- Only one live invite per apartment is promised. Resending a superseded invite makes two
  (`OccupancyInvites.TwoLiveInvites`), and so do two creations at once (`OccupancyInvites.CrossingInvites`);
  `OccupancyInvites.OneLiveThroughoutExactly` is the condition. Two completions checked before either writes share the
  apartment (`OccupancyRuns.SplitCompletionsShare`, `OccupancyRuns.FinishedCompletionExactly`).
- A resend or cancellation that checks an invite before it is completed and writes after makes a used invite open or
  cancelled (`OccupancyInvites.UsedInviteReopened`, `OccupancyInvites.StaysUsedExactly`).
- Reinstating a removed resident does not recompute the apartment's flag (`OccupancyInvites.ReinstatingMisleads`,
  `OccupancyRuns.FlagsRightExactly`).

## Model

| member | source | states |
|---|---|---|
| GateOneTime.OneTimeAdmitsOnce | backend/src/modules/entry-exit/entry-exit.service.ts:51-67 | After any interleaving of the read and write halves of entry and extension, sweep writes, scans, link views, withdrawals and creations, a ONE_TIME invitation has at most one visit |
| GateOneTime.SpentStaysSpent | backend/src/modules/invitation-extensions/invitation-extensions.service.ts:96-111 | Once a ONE_TIME pass is USED or withdrawn, no continuation of the run makes it ACTIVE or EXPIRED again, whatever extensions are still in flight |
| GateOneTime.ReactivationFindsTheRowExpired | backend/src/modules/invitation-extensions/invitation-extensions.service.ts:97-108 | An in-flight extension that read (EXPIRED, v) wins its compare-and-swap on v only while the row is still EXPIRED |
| GateOneTime.CommittedExtensionEvolves | backend/src/modules/invitation-extensions/invitation-extensions.service.ts:98-111 | The extension's write only moves validUntil later and never revives a used or withdrawn ONE_TIME row |
| GateOneTime.StepEvolvesRows | backend/src/modules/entry-exit/entry-exit.service.ts:58-61 | No step of any operation moves validUntil back, un-withdraws a row, un-spends a ONE_TIME row, or takes a row out of EXPIRED without moving validUntil |
| GateOneTime.RunKeepsInv | backend/src/modules/entry-exit/entry-exit.service.ts:30-116 | Every interleaved run keeps the invariant behind one-time use, including what each request in flight remembers of its row |
| GateBooks.EntriesMinusExits | backend/src/modules/entry-exit/entry-exit.service.ts:179-198 | After every run, an estate's ENTRY events less its EXIT events is the length of its currently-inside list |
| GateBooks.HistoryAlternates | backend/src/modules/entry-exit/entry-exit.service.ts:122-157 | Each invitation's ENTERED and EXITED events strictly alternate from ENTERED, and it has exactly one open visit after an ENTERED and none otherwise |
| GateBooks.RunKeepsBooks | backend/src/modules/entry-exit/entry-exit.service.ts:69-90 | Every run keeps the ledger balanced: one open visit per invitation, marks matching visits, counts matching the list, visits in time order |
| GateBooks.ClosingRemovesOne | backend/src/modules/entry-exit/entry-exit.service.ts:139-142 | Closing one visit takes exactly that visit off its own estate's list and no other |
| GateBooks.InsideListIsExact | backend/src/modules/entry-exit/entry-exit.service.ts:179-190 | The list holds exactly the estate's open visits, each once, in descending order of id |
| GateBooks.InsideListIsNewestFirst | backend/src/modules/entry-exit/entry-exit.service.ts:189-189 | In every reachable state that order is newest entry first |
| GateExpiry.EntryAgainstScan | backend/src/modules/verification/verification.service.ts:100-131 | In any interleaving an entry is accepted exactly when a scan would give VALID or NOT_YET_VALID, no visit is open, and the row is not a ONE_TIME row left EXPIRED |
| GateExpiry.EntryAgreesWithScan | backend/src/modules/entry-exit/entry-exit.service.ts:42-74 | When extensions are atomic the EXPIRED case disappears, and for ONE_TIME passes so does the open-visit condition |
| GateExpiry.AtomicRunKeepsExpiredPast | backend/src/modules/invitations/invitations.service.ts:165-171 | When extensions are atomic, EXPIRED implies validUntil is before now in every reachable state |
| GateExpiry.OneTimeNeedsNoOpenVisitCheck | backend/src/modules/entry-exit/entry-exit.service.ts:69-74 | A ONE_TIME pass that a scan would let through never has an open visit |
| GateExpiry.SplitExtensionCanDisagree | backend/src/modules/invitation-extensions/invitation-extensions.service.ts:96-108 | A run in which the sweep falls between an extension's read and write and leaves a row EXPIRED with its time still running: the scan says VALID, the entry is refused |
| GateVisits.ExitSucceedsExactly | backend/src/modules/entry-exit/entry-exit.service.ts:122-142 | In every run an exit succeeds exactly for a visit of the officer's estate that has not ended; otherwise it is NotFound or, for one that has ended, Conflict, and changes nothing |
| GateVisits.ExitIsRecorded | backend/src/modules/entry-exit/entry-exit.service.ts:139-175 | The exit writes the time it is made at into that visit and leaves every other visit alone, and whatever follows the visit keeps both times |
| GateVisits.EntryIsRecorded | backend/src/modules/entry-exit/entry-exit.service.ts:76-90 | An accepted entry adds one visit of that pass, entered at that moment, and whatever follows the visit keeps that time |
| GateVisits.TimesStay | backend/src/modules/entry-exit/entry-exit.service.ts:139-142 | No step of any run ever changes a visit's pass, its entry time, or an exit time once written |
| GateAnswers.WithdrawalHolds | backend/src/modules/invitations/invitations.service.ts:259-273 | Once the owner has withdrawn a pass it stays withdrawn over every continuation, and no entry that had not already passed its checks adds a visit |
| GateAnswers.WithdrawnIsRefused | backend/src/modules/entry-exit/entry-exit.service.ts:42-44 | A withdrawn pass is WITHDRAWN at scans, Gone on its page, and refused by entries and extensions, none of which changes anything |
| GateAnswers.RevokeSucceedsExactly | backend/src/modules/invitations/invitations.service.ts:259-273 | A withdrawal succeeds exactly for the resident who made the pass, in its estate, and touches no other pass |
| GateAnswers.RefusalsFollowTheScan | backend/src/modules/entry-exit/entry-exit.service.ts:34-74 | In every run the reason an entry is refused for is what a scan says of the pass |
| GateAnswers.ExtendedMayEnter | backend/src/modules/invitation-extensions/invitation-extensions.service.ts:72-142 | In every run a successful extension gives the end it names, the minutes asked after the old end or after now; then a scan passes the pass and the gate lets it in unless somebody is inside on it; no other row changes |
| GateAnswers.ExtensionRefusals | backend/src/modules/invitation-extensions/invitation-extensions.service.ts:72-94 | A refused extension changes nothing, is NotFound exactly when the pass is not the resident's, and otherwise is the error of the first rule that forbids it |
| GateAnswers.PageFollowsTheScan | backend/src/modules/invitations/invitations.service.ts:159-192 | In every run the visitor's page shows Gone, USED, EXPIRED or ACTIVE exactly as a scan would say, but for passes left EXPIRED with their time running |
| GateAnswers.CreationSucceedsExactly | backend/src/modules/invitations/invitations.service.ts:80-107 | A creation succeeds exactly for a new id, an unused token and times in order; the pass is ACTIVE, its resident's to withdraw, and admits more than once only if asked to and not for a courier |
| GateAnswers.CourierEntersOnce | backend/src/modules/invitations/invitations.service.ts:80-96 | Whatever entry policy was asked for, a courier's pass has at most one visit over every run |
| GateLookups.OverStaysExactly | backend/src/modules/verification/verification.service.ts:107-117 | With the read and the unconditional EXPIRED write of scans and link views apart, for every pass: throughout a run, once withdrawn, or used if ONE_TIME, it stays so if and only if no such write of this pass finds it so since the read, whatever happens to other passes |
| GateLookups.OneTimeWhenNothingLate | backend/src/modules/verification/verification.service.ts:111-117 | In such a run a ONE_TIME pass of which no mark comes late has at most one visit, however late the marks of others |
| GateLookups.MarkedLateAdmitsTwice | backend/src/modules/invitations/invitations.service.ts:165-171 | A run in which a mark comes late and a ONE_TIME pass gets two visits: extended and used between the read and the write, marked EXPIRED, extended again and used again |
| GateLookups.MarkingEvolvesExactly | backend/src/modules/verification/verification.service.ts:111-117 | One such write changes each row only as every other operation may if and only if it is not a late one of that row |
| GateLookups.UninterruptedIsAtomic | backend/src/modules/invitations/invitations.service.ts:165-171 | With nothing between the halves, both lookups are the single steps of the gate machine |
| ExtensionRules.QuietHoursAreAnArc | backend/src/modules/invitation-extensions/extension.rules.ts:40-44 | The two-case wrap test is (minute - from) mod 1440 < (to - from) mod 1440 |
| ExtensionRules.GrantBounds | backend/src/modules/invitation-extensions/extension.rules.ts:72-88 | A grant ends at least the minutes asked after the old end, at most 120 minutes more than that, after now, and not past validFrom + maxTotalMinutes |
| ExtensionRules.GrantsAvoidQuietHours | backend/src/modules/invitation-extensions/extension.rules.ts:95-102 | Neither the moment of asking nor the new end lies on the quiet arc |
| ExtensionTotals.StepGrowth | backend/src/modules/invitation-extensions/extension.rules.ts:82-89 | In any interleaved run under fixed rules, every step that moves a pass's end moves it by at least the minutes asked and at most 120 more |
| ExtensionTotals.RunBounds | backend/src/modules/invitation-extensions/extension.rules.ts:84-87 | Over any interleaved run under fixed rules, validUntil exceeds validFrom by more minutes than there were grants and stays within the total |
| ExtensionTotals.ExtensionsAreLimited | backend/src/modules/invitation-extensions/extension.rules.ts:87-89 | So a pass is granted fewer than maxTotalMinutes extensions and never ends beyond validFrom + maxTotalMinutes |
| ExpirySweep.OneMessagePerFlip | backend/src/modules/invitation-expiry/invitation-expiry.service.ts:62-75 | Whatever other requests do between the sweep's writes, a row is messaged exactly once if the sweep's own conditional update flipped it and not otherwise |
| ExpirySweep.QuietRowsAreNotMessaged | backend/src/modules/invitation-expiry/invitation-expiry.service.ts:45-54 | Whatever others do between the quiet update and the query, a row the quiet update flipped is in the batch only if an extension moved its end to one that has passed as well |
| ExpirySweep.SweepAlone | backend/src/modules/invitation-expiry/invitation-expiry.service.ts:51-69 | Without interference every row of the batch is flipped and k recently overdue rows become max(0, k - 200) |
| ExpirySweep.BacklogShrinks | backend/src/modules/invitation-expiry/invitation-expiry.service.ts:51-76 | After n sweeps at most max(0, k - 200 n) overdue rows are left |
| ExpirySweep.BacklogCleared | backend/src/modules/invitation-expiry/invitation-expiry.service.ts:51-76 | Enough sweeps turn exactly the rows that were ACTIVE and past their end, whatever their kind, into EXPIRED and leave all others as they were |
| ExpirySweep.SweepTellsExactly | backend/src/modules/invitation-expiry/invitation-expiry.service.ts:45-75 | Alone, one sweep tells up to 200 of those whose pass ran out within the last day, each once, and nobody else |
| GateService.GateDatabase.CreateInvitation | backend/src/modules/invitations/invitations.service.ts:89-107 | Adds an ACTIVE row, ONE_TIME for couriers and by default, and a CREATED event; keeps one-time use and the books |
| GateService.GateDatabase.Revoke | backend/src/modules/invitations/invitations.service.ts:259-273 | Marks the owner's row REVOKED and appends one event, or changes nothing; keeps one-time use and the books |
| GateService.GateDatabase.RecordEntry | backend/src/modules/entry-exit/entry-exit.service.ts:34-93 | Every error branch in order, a rolled-back transaction leaves no trace, and success adds the visit and both events; keeps one-time use and the books |
| GateService.GateDatabase.RecordExit | backend/src/modules/entry-exit/entry-exit.service.ts:122-157 | Closes exactly the open visit and appends both events, or reports which check failed and changes nothing; keeps the books |
| GateService.GateDatabase.ListCurrentlyInside | backend/src/modules/entry-exit/entry-exit.service.ts:179-198 | Exactly the estate's open visits, newest first |
| GateService.GateDatabase.Verify | backend/src/modules/verification/verification.service.ts:98-131 | The five outcomes in the code's order, and the lazy EXPIRED write with PAST only; keeps one-time use and the books |
| GateService.GateDatabase.FindPublic | backend/src/modules/invitations/invitations.service.ts:159-192 | NotFound, Gone, or the status after the lazy expiry; keeps one-time use and the books |
| GateLedger.ExtendSucceedsExactly | backend/src/modules/invitation-extensions/invitation-extensions.service.ts:72-111 | An extension in one go succeeds exactly when the pass is the resident's own and none of the eight rules, each stated on its own, forbids it |
| GateService.GateDatabase.Extend | backend/src/modules/invitation-extensions/invitation-extensions.service.ts:72-142 | Decision, compare-and-swap and reactivation as one request, succeeding exactly when no rule forbids it; keeps one-time use and the books |
| GateService.GateDatabase.Sweep | backend/src/modules/invitation-expiry/invitation-expiry.service.ts:38-83 | One whole sweep with other requests before the query and between its writes: the rows after it, the messages sent and the count returned, which is 0 if the database throws in the quiet update, the query or any write, and 0 while another sweep runs |
| GateService.GateDatabase.SweepBatch | backend/src/modules/invitation-expiry/invitation-expiry.service.ts:60-76 | The loop over the batch, until its end or the write that throws: each message follows its own write |
| OfflineRuns.NothingLost | frontend/src/offline/sync-queue.ts:60-77 | Over any run of enqueues, sends, deliveries handled lookup, check, write and log row one at a time, crashes anywhere, lost, late or repeated batches and answers, and online activity in between: every event ever queued is in the queue or in the log as it was queued |
| OfflineRuns.LeavesQueueOnlyWhenLogged | frontend/src/offline/sync-queue.ts:70-71 | In all those runs an event leaves the device's queue only when the server has logged it |
| OfflineRuns.RunKeepsDelivered | backend/src/modules/offline-sync/offline-sync.service.ts:126-213 | The invariant behind both, over queue, wire, half-handled batches, answers and log |
| OfflineVisits.OneTimeAcrossReplay | backend/src/modules/offline-sync/offline-sync.service.ts:149-152 | In all those runs, the same event handled twice at once included, a ONE_TIME invitation has at most one visit |
| OfflineVisits.ReplayedVisitsMatchLog | backend/src/modules/offline-sync/offline-sync.service.ts:148-212 | In all those runs and for any group of invitations: visits made by replay are as many as the SYNCED ALLOWED log rows, plus the visits whose handling has yet to write its row, plus the visits lost so far, by a handling that stopped after its visit or whose SYNCED row was refused |
| OfflineOnce.ActedOnExactly | backend/src/modules/offline-sync/offline-sync.service.ts:126-213 | In every run, an event has been acted on once if it is logged, once for each handling that has yet to write its row, and once for each handling dropped so far: stopped after acting, or unable to write any row |
| OfflineOnce.ActedOnOnce | backend/src/modules/offline-sync/offline-sync.service.ts:131-144 | So whenever no handling is between effect and log row, each logged event was acted on exactly once and no other event at all, if and only if no action of the run dropped a handling |
| OfflineVisits.VisitsMatchAtRest | backend/src/modules/offline-sync/offline-sync.service.ts:148-212 | So whenever no handling is between effect and log row, visits made by replay are as many as the SYNCED ALLOWED rows if and only if no action of the run lost a visit |
| OfflineOnce.OverlapMislabels | backend/src/modules/offline-sync/offline-sync.service.ts:148-212 | A whole run, from the pass's creation on: a slow flush is retried, both handlings of the one allowed event pass the lookup, the visit is recorded, the log says FAILED, and the event was acted on twice |
| OfflineOnce.HandledIsSyncOne | backend/src/modules/offline-sync/offline-sync.service.ts:126-213 | All steps of one event with nothing in between are the one-event replay function |
| OfflineOnce.UninterruptedIsSyncBatch | backend/src/modules/offline-sync/offline-sync.service.ts:115-124 | A batch handled without interruption is the batch function, server and answer |
| OfflineOnce.RoundEmptiesQueue | frontend/src/offline/sync-queue.ts:60-77 | From any state with at most 200 events queued, a whole round of send, delivery, handling and answer leaves the queue empty and every event in the log |
| OfflineOnce.OversizedRoundIsRefused | backend/src/modules/offline-sync/dto/offline-sync-batch.dto.ts:50-53 | With more than 200 events queued the whole round is refused and nothing changes on either side |
| OfflineSync.DeliveringTwiceIsOnce | backend/src/modules/offline-sync/offline-sync.service.ts:131-144 | Delivering any batch to any server twice leaves the server as delivering it once |
| OfflineSync.RedeliveryIsANoOp | backend/src/modules/offline-sync/offline-sync.service.ts:134-144 | A batch whose events are all logged changes nothing and is answered ALREADY_SYNCED with the first status throughout |
| OfflineSync.BatchIsLogged | backend/src/modules/offline-sync/offline-sync.service.ts:115-124 | A batch is answered event by event in order, every event ends up logged, and older log rows stay as they were |
| OfflineSync.NewEventIsLogged | backend/src/modules/offline-sync/offline-sync.service.ts:148-212 | A new event is logged as sent: a denied one SYNCED exactly when its pass is the estate's, changing nothing else, an allowed one exactly when the gate lets it in, and then as that entry |
| OfflineService.OfflineSyncService.SyncOne | backend/src/modules/offline-sync/offline-sync.service.ts:126-213 | The server's tables and answer after one event, in place, equal the replay function's |
| OfflineService.OfflineSyncService.SyncBatch | backend/src/modules/offline-sync/offline-sync.service.ts:115-124 | The loop over a batch equals the batch function |
| OfflineService.GateDevice.TakeResults | frontend/src/offline/sync-queue.ts:68-78 | The queue loses exactly the answered ids; failures are handed back in order and the rest are counted |
| OfflineService.FailuresAreComplete | frontend/src/offline/sync-queue.ts:68-78 | The failures handed back are exactly the failed results, in their order |
| OfflineService.GateDevice.FlushOfflineQueue | frontend/src/offline/sync-queue.ts:56-79 | Server and device after a flush whose answer arrives, is lost, or is refused for being over the cap |
| OfflineService.FlushEmptiesQueue | frontend/src/offline/sync-queue.ts:60-78 | A flush that gets its answer empties the queue, and the server then has every event of it |
| OfflineService.GateDevice.ReplaceManifest | frontend/src/offline/db.ts:83-97 | The store is cleared and then holds the new entries by id |
| OfflineService.StoredHoldsAll | frontend/src/offline/db.ts:90-93 | With distinct ids the store holds exactly the entries it was given |
| OfflineService.GateDevice.HasQueuedAllow | frontend/src/offline/db.ts:137-140 | True exactly when an ALLOWED event for the invitation is queued |
| OfflineService.GateDevice.VerifyOffline | frontend/src/offline/verify-offline.ts:38-84 | The device's answer is the outcome function of its stores, and NOT_FOUND without a key |
| OfflineVerification.OfflineRefinesOnline | frontend/src/offline/verify-offline.ts:50-84 | For every scan, from any reachable server state, log, queue and order of arrivals with repeats, at any moment: the device's answer is the one the server gives once the queue is synced if and only if the scan is no pass of this estate, or the pass is in the manifest, its signature genuine, and no queued allow of it leaves no trace on the server |
| OfflineVerification.AgreeExactly | frontend/src/offline/verify-offline.ts:68-84 | For one pass at any moment: the two answers agree if and only if it is not the case that a queued allow of a ONE_TIME pass leaves no trace on the server |
| OfflineVerification.AgreeWhileValid | backend/src/modules/verification/verification.service.ts:98-131 | Until validUntil they agree if and only if, when an allow of a ONE_TIME pass is queued, the pass was not left EXPIRED and, if ACTIVE, some queued allow of it is not yet logged |
| OfflineVerification.StrandedAllowDisagrees | frontend/src/offline/verify-offline.ts:70-71 | They disagree for a pass a split extension left EXPIRED |
| OfflineVerification.LateAllowDisagrees | frontend/src/offline/verify-offline.ts:70-71 | They disagree when the allow arrives after validUntil |
| OfflineVerification.RefusedThenExtendedDisagrees | backend/src/modules/offline-sync/offline-sync.service.ts:131-144 | They disagree when the allow was refused and logged, the answer lost, and the pass then extended |
| OfflineVerification.SyncedRow | backend/src/modules/offline-sync/offline-sync.service.ts:126-171 | Syncing any events in any order, with repeats, changes a pass only from ACTIVE to USED, exactly when an unlogged allow for it arrives in time |
| OfflineVerification.SnapshotStatus | backend/src/modules/offline-sync/offline-sync.service.ts:74-82 | Which statuses a manifest can show: EXPIRED only if an extension was split |
| OfflineVerification.DeviceFindsTheSame | frontend/src/offline/verify-offline.ts:24-36 | For tokens and for codes, the device finds the row the server finds if the manifest has it, and nothing otherwise, the cap of 2000 included |
| OfflineVerification.RunKeepsTokensUnique | backend/src/modules/invitations/invitations.service.ts:89-96 | No run gives two invitations the same token hash |
| CanonicalSigning.CanonicalExactly | backend/src/common/crypto/signing.util.ts:61-76 | The signed texts of two JSON values are equal exactly when the values are the same up to key order at every depth, "__proto__" fields aside |
| CanonicalSigning.CanonicalUpToKeyOrder | frontend/src/offline/crypto.ts:28-43 | Without "__proto__" keys: equal texts if and only if equal values up to key order |
| CanonicalSigning.SampleText | backend/src/common/crypto/signing.util.ts:61-76 | One signed text in full: an object, an array, a number-like key and an escape |
| CanonicalSigning.ProtoKeyIsLost | backend/src/common/crypto/signing.util.ts:70-73 | Two different values, one with a "__proto__" key, that share their signed text |
| CanonicalSigning.SignedTextIsRecovered | frontend/src/offline/crypto.ts:81-96 | Taking the signature field off any held entry and printing the rest gives the text the server signed exactly when the other fields are as signed, "__proto__" fields at any depth aside |
| CanonicalSigning.UntouchedEntryVerifies | frontend/src/offline/verify-offline.ts:59-61 | In particular it does for an entry whose fields are the signed ones, in any order, and a signature |
| CanonicalSigning.AcceptedEntriesWereIssued | frontend/src/offline/verify-offline.ts:56-66 | If signatures verify only for texts the server signed, every accepted entry says what some issued entry said, "__proto__" fields of the held one aside |
| CanonicalSigning.AddedProtoIsAccepted | frontend/src/offline/verify-offline.ts:56-66 | Any issued entry with a "__proto__" field put in gives the signed text and is accepted, though it says something else |
| CanonicalSigning.SortKeeps | backend/src/common/crypto/signing.util.ts:65-76 | Sorting gives a value sorted at every depth with the same meaning, less "__proto__" |
| CanonicalSigning.SortedIsUnique | backend/src/common/crypto/signing.util.ts:69-73 | A sorted value is determined by its meaning, integer-like keys included |
| CanonicalText.PrintIsInjective | backend/src/common/crypto/signing.util.ts:62-62 | Two values print alike if and only if they are the same, numbers in all of JavaScript's forms included |
| CanonicalNumbers.NumberReadsBack | backend/src/common/crypto/signing.util.ts:62-62 | A number's text, whole, with a dot, with leading zeros or with an exponent, reads back as the number |
| CanonicalNumbers.NumbersAreListedFirst | backend/src/common/crypto/signing.util.ts:69-73 | A key that is the text of a number up to 4294967294 is listed before all other keys, and those among themselves in the order of the numbers |
| CanonicalNumbers.WhereFormsChange | backend/src/common/crypto/signing.util.ts:62-62 | The four forms of a number's text and where one ends and the next begins, as Number::toString of ECMA-262 has them |
| CanonicalNumbers.SameNumber | backend/src/common/crypto/signing.util.ts:62-62 | Two texts that go on after a number with a comma, a bracket or nothing are the same only if the numbers and the rests are |
| CanonicalText.StringReadBack | backend/src/common/crypto/signing.util.ts:62-62 | An escaped string reads back, with every escape of section 7 of RFC 8259, surrogate pairs and lone surrogates |
| CanonicalText.EscapedAsShortAsCanBe | backend/src/common/crypto/signing.util.ts:62-62 | A character is escaped only if it must be, by two characters where there is such an escape and by six otherwise, with lower-case digits |
| Calendar.EarlierIsSmaller | backend/src/modules/recurring-passes/recurring-qr.ts:27-31 | Calendar order of valid dates is the order of their day numbers |
| Calendar.DateRoundTrip | backend/src/modules/recurring-passes/recurring-qr.ts:33-39 | A date turned into its day and back is unchanged, for all four-digit years |
| Calendar.DateOfIsRight | backend/src/modules/recurring-passes/recurring-qr.ts:27-31 | Every day number of a four-digit year stands for a valid date with that number |
| DateKeys.KeyOrderIsDayOrder | backend/src/modules/recurring-passes/recurring-pass.rules.ts:162-162 | On valid dates, comparing keys as strings is comparing the days (sections 5.1 and 5.6 of RFC 3339) |
| DateKeys.KeyRoundTrip | backend/src/modules/recurring-passes/recurring-qr.ts:33-39 | A key reads back as the date it was written for |
| DateKeys.AddDaysComposes | backend/src/modules/recurring-passes/recurring-qr.ts:27-31 | Shifting by a and then b is shifting by a + b, across months, leap days and centuries |
| DateKeys.PreviousUndoesNext | backend/src/modules/recurring-passes/recurring-pass.rules.ts:114-118 | previousDateKey undoes addDays by one day, for every date but the last of year 9999 |
| DateKeys.AddDaysMoves | backend/src/modules/recurring-passes/recurring-qr.ts:27-31 | A shift succeeds exactly within the four-digit years; the shifted key stands for the shifted day and is later as text exactly when the shift is forward |
| RecurringRules.CodeWindow | backend/src/modules/recurring-passes/recurring-pass.rules.ts:125-143 | The code shown on date D passes the gate's check at every moment of D and in the first 60 minutes of D + 1, and at no other moment of any date |
| RecurringRules.OnlyShownCodesPass | backend/src/modules/recurring-passes/recurring-pass.rules.ts:125-143 | Whatever is presented, nothing but the code of that date, or of the date before in the first 60 minutes, is taken |
| RecurringRules.ShownCodeWillDo | backend/src/modules/recurring-passes/recurring-passes.service.ts:370-386 | A code is shown exactly while neither status nor dates block the pass; with it one is let through at any minute of the day exactly when none of the checks for skipped days, schedule, hours and blacklist, each stated on its own, blocks, and is refused for no other reason |
| RecurringRules.PreviousIsTheDayBefore | backend/src/modules/recurring-passes/recurring-pass.rules.ts:114-118 | previousDateKey of E is D exactly when E is the day after D |
| RecurringRules.ExceptionOrderIsFree | backend/src/modules/recurring-passes/recurring-pass.rules.ts:164-168 | With one exception a day the decision does not depend on the order in which the exceptions are listed |
| RecurringRules.FindExtra | backend/src/modules/recurring-passes/recurring-pass.rules.ts:168-168 | None exactly when no extra day is listed for the date; otherwise the first one listed |
| RecurringScan.ScansAlternateDaily | backend/src/modules/recurring-passes/recurring-scan.service.ts:114-160 | Over any run of scans, the allowed ones recorded on each local date read IN, OUT, IN, OUT from IN, and consecutive ones are at least 10 seconds apart |
| RecurringAnswers.ScanIsAnsweredExactly | backend/src/modules/recurring-passes/recurring-scan.service.ts:114-170 | A scan is a duplicate exactly when the last allowed one is less than ten seconds old; any other adds one row, allowed in the next direction if no check, each stated on its own, blocks it, and otherwise denied for the first that does |
| RecurringAnswers.UnblockedScanCounts | backend/src/modules/recurring-passes/recurring-scan.service.ts:138-160 | Over any run of scans, one that nothing blocks, ten seconds or more after the last allowed one, makes its date's list one longer |
| RecurringAnswers.GuardIsTold | backend/src/modules/recurring-passes/recurring-scan.service.ts:118-121 | Over any run of scans, the guard is told of an open earlier visit exactly when the last allowed scan is IN and nothing is recorded today, and of someone overdue exactly then or when they are in after today's hours and grace |
| RecurringOverlaps.KeptThroughoutExactly | backend/src/modules/recurring-passes/recurring-scan.service.ts:114-160 | With a scan's read and its row apart: the history alternates daily and keeps its distances throughout a run if and only if no allowed row is written against the way the history goes by then |
| RecurringOverlaps.UndisturbedRunIsKept | backend/src/modules/recurring-passes/recurring-scan.service.ts:114-149 | So it does whenever each decision is written with the same last allowed scan and on the same local date it was made with |
| RecurringOverlaps.RowKeepsExactly | backend/src/modules/recurring-passes/recurring-scan.service.ts:151-160 | Adding a row keeps a history in order if and only if it is denied, or continues the alternation ten seconds or more after the last |
| RecurringOverlaps.TwoAtOnceBothSayIn | backend/src/modules/recurring-passes/recurring-scan.service.ts:114-160 | Any first arrival scanned by two guards at once is recorded IN twice |
| RecurringScan.InsMinusOuts | backend/src/modules/recurring-passes/recurring-scan.service.ts:114-120 | For every run, INs less OUTs is the number of local dates left open, so it is never negative |
| RecurringScan.OpenDatesMeaning | backend/src/modules/recurring-passes/recurring-scan.service.ts:118-120 | A date counts as open exactly when its last allowed scan is IN |
| RecurringScan.DeniedChangesNothing | backend/src/modules/recurring-passes/recurring-scan.service.ts:162-170 | A denied scan never changes the direction the next allowed one gets |
| RecurringScan.NextContinues | backend/src/modules/recurring-passes/recurring-pass.rules.ts:187-192 | The direction given to an allowed scan is the one that continues its own date's alternation |
| RecurringScan.RecordKeeps | backend/src/modules/recurring-passes/recurring-scan.service.ts:114-170 | One scan keeps the history well kept, whatever the pass, exceptions, code and time |
| RecurringListing.LastDirections | backend/src/modules/recurring-passes/recurring-passes.service.ts:162-163 | The loop's map holds, for each pass, the first direction seen in newest-first order and nothing else |
| RecurringListing.InsideFlagExactly | backend/src/modules/recurring-passes/recurring-passes.service.ts:154-167 | The inside flag agrees with the pass's own latest allowed scan except exactly when that is IN and it is not among the newest 500; so always with at most 500 |
| RecurringListing.FlagIsMissed | backend/src/modules/recurring-passes/recurring-passes.service.ts:154-167 | 500 newer scans of another pass hide someone who is inside |
| RecurringService.ValidatePassSchedule | backend/src/modules/recurring-passes/recurring-pass.rules.ts:214-243 | The problems reported are exactly the schedule's problems |
| RecurringService.WindowInKeys | backend/src/modules/recurring-passes/recurring-pass.rules.ts:232-241 | The checks see every held pass as stored, with its window as keys, from not after until, spanning at most 90 days |
| RecurringService.RecurringPassesService.Create | backend/src/modules/recurring-passes/recurring-passes.service.ts:93-128 | Succeeds exactly for a schedule without problems that has not ended and whose dates exist; adds the one row and keeps every window and history in order |
| RecurringService.RecurringPassesService.Renew | backend/src/modules/recurring-passes/recurring-passes.service.ts:294-317 | Succeeds exactly for an owned pass not revoked when read nor when written, for at most 90 days; the new window starts today and lasts that many days; the status is ACTIVE if the pass was read EXPIRED and otherwise whatever it has become, and the answer shows the stored row exactly when it was EXPIRED or has not changed since the read |
| RecurringService.RecurringPassesService.SetStatus | backend/src/modules/recurring-passes/recurring-passes.service.ts:189-212 | A compare-and-swap on the owner's pass: changes the status exactly when it was one of the allowed ones |
| RecurringService.RecurringPassesService.Pause | backend/src/modules/recurring-passes/recurring-passes.service.ts:214-216 | Only an active pass is paused |
| RecurringService.RecurringPassesService.Resume | backend/src/modules/recurring-passes/recurring-passes.service.ts:218-220 | Only a paused pass is resumed |
| RecurringService.RecurringPassesService.RevokePass | backend/src/modules/recurring-passes/recurring-passes.service.ts:222-231 | Any pass not yet revoked is revoked |
| RecurringService.RecurringPassesService.PutException | backend/src/modules/recurring-passes/recurring-passes.service.ts:241-275 | One exception a day, inside the pass's dates and not in the past, with both hours in order or neither |
| RecurringService.RecurringPassesService.RemoveException | backend/src/modules/recurring-passes/recurring-passes.service.ts:287-291 | Removes exactly that day's exception of an owned pass |
| RecurringService.RecurringPassesService.Scan | backend/src/modules/recurring-passes/recurring-scan.service.ts:52-170 | The scan in place equals the scan step, keeps every pass's history well kept, and touches no other pass |
| RecurringQr.ParseExactly | backend/src/modules/recurring-passes/recurring-qr.ts:10-19 | Parsing gives (token, code) if and only if both are valid and the last non-empty segment of the text is exactly token, tilde, code |
| RecurringQr.WhatIsValid | backend/src/modules/recurring-passes/recurring-qr.ts:17-18 | A token is 16 to 128 characters of the base64url alphabet of section 5 of RFC 4648, a code 6 to 16 of its letters and digits, by code points |
| RecurringQr.PrintedReadsBack | backend/src/modules/recurring-passes/recurring-qr.ts:10-19 | The printed form reads back, bare or at the end of any link, with any number of slashes after it |
| RecurringQr.LastSegmentEnds | backend/src/modules/recurring-passes/recurring-qr.ts:11-11 | The last non-empty segment has no slash, follows a slash or nothing, and only slashes follow it |
| RecurringQr.EndIsLastSegment | backend/src/modules/recurring-passes/recurring-qr.ts:11-11 | Conversely any such end of a text is its last segment |
| OccupancyRuns.FlagsRightExactly | backend/src/modules/administration/administration.service.ts:512-543 | Over every interleaving: at every moment each apartment is OCCUPIED exactly when someone not removed is assigned to it, if and only if nobody removed is ever reinstated into an apartment then marked VACANT |
| OccupancyAnswers.ArrivalExactly | backend/src/modules/administration/administration.service.ts:368-395 | A resident is added exactly to an apartment of the estate under an address no account has, and then lives there |
| OccupancyAnswers.MoveExactly | backend/src/modules/administration/administration.service.ts:424-455 | A move succeeds exactly within the estate, and the resident then lives in the new apartment and no other |
| OccupancyAnswers.RemovalExactly | backend/src/modules/administration/administration.service.ts:474-499 | A removal needs the resident to be of the estate and the password, and the resident then lives nowhere; nobody else changes |
| OccupancyAnswers.StatusExactly | backend/src/modules/administration/administration.service.ts:531-543 | Suspending and reinstating set the status asked for and nothing else |
| OccupancyRuns.StatusChangeExactly | backend/src/modules/administration/administration.service.ts:531-543 | One status change keeps the flags right if and only if it does not reinstate someone removed into an apartment now marked VACANT |
| OccupancyInvites.ReinstatingMisleads | backend/src/modules/administration/administration.service.ts:531-543 | A run that reinstates someone removed and leaves an apartment with somebody in it marked VACANT |
| OccupancyRuns.MoveKeepsFlags | backend/src/modules/administration/administration.service.ts:445-455 | Moving a resident, removed or not, leaves both apartments' flags right |
| OccupancyRuns.RemoveKeepsFlags | backend/src/modules/administration/administration.service.ts:488-499 | Removing a resident leaves the flag right whoever else is there |
| OccupancyRuns.EachInviteOnce | backend/src/modules/resident-invites/resident-invites.service.ts:303-339 | In every interleaving of the halves of completions, resends, cancellations and creations with everything else, an invite becomes at most one resident, however often it is resent or reopened |
| OccupancyAnswers.CompletedWithinTwoHours | backend/src/modules/resident-invites/resident-invites.service.ts:303-373 | In every run a completion is accepted only with an open invite and within 120 minutes of its creation or of the last time it was sent again, whichever is later |
| OccupancyAnswers.CompletionExactly | backend/src/modules/resident-invites/resident-invites.service.ts:303-376 | A completion succeeds exactly with an open link whose time has not run out, to an apartment marked vacant, for an unused address; Gone says exactly that the link is dead, and a used link is dead for good |
| OccupancyAnswers.NewLinkWorks | backend/src/modules/resident-invites/resident-invites.service.ts:60-110 | An invite is created exactly for a vacant apartment and an unused address; its link then works for two hours and no other of the apartment does |
| OccupancyAnswers.ResentLinkWorks | backend/src/modules/resident-invites/resident-invites.service.ts:154-171 | Any invite but a used one can be sent again; its link then works for two hours while the apartment is vacant |
| OccupancyAnswers.CancelledLinkIsDead | backend/src/modules/resident-invites/resident-invites.service.ts:210-232 | Only an open invite can be cancelled; its link is then dead and every other as it was |
| OccupancyInvites.StaysUsedExactly | backend/src/modules/resident-invites/resident-invites.service.ts:156-171 | Over every run, a completed invite is still marked used if and only if no resend or cancellation that read it before the completion wrote after it |
| OccupancyInvites.StepUsesExactly | backend/src/modules/resident-invites/resident-invites.service.ts:217-229 | The same for every single step |
| OccupancyInvites.UsedInviteReopened | backend/src/modules/resident-invites/resident-invites.service.ts:161-171 | A run in which a resend checks before a completion and writes after it, so a used invite is open again |
| OccupancyRuns.CompletionFillsEmpty | backend/src/modules/resident-invites/resident-invites.service.ts:310-339 | An invite checked and completed in one go fills an apartment that had nobody, with one person, under the invited address |
| OccupancyRuns.FinishedCompletionExactly | backend/src/modules/resident-invites/resident-invites.service.ts:306-333 | With check and write apart, the apartment was empty exactly when its flag still says so at the write |
| OccupancyRuns.SplitCompletionsShare | backend/src/modules/resident-invites/resident-invites.service.ts:312-333 | Two completions checked before either writes both succeed and share the apartment |
| OccupancyInvites.OneLiveThroughoutExactly | backend/src/modules/resident-invites/resident-invites.service.ts:90-110 | At every moment of a run every apartment has at most one live invite if and only if no resend, and no last half of a creation, opens one while another of its apartment is open |
| OccupancyInvites.StepKeepsOneLiveExactly | backend/src/modules/resident-invites/resident-invites.service.ts:90-110 | The same for every single step of the interleaved machine |
| OccupancyInvites.TwoLiveInvites | backend/src/modules/resident-invites/resident-invites.service.ts:161-171 | A run that reaches two live invites for one empty apartment, by resending one that a newer one superseded |
| OccupancyInvites.CrossingInvites | backend/src/modules/resident-invites/resident-invites.service.ts:90-110 | A run that reaches them by two creations at once: both supersede before either is written |
| OccupancyInvites.ResendKeepsOneLiveExactly | backend/src/modules/resident-invites/resident-invites.service.ts:156-171 | Resending in one go keeps one live invite per apartment if and only if no other invite of the apartment is open |
| OccupancyInvites.NewInviteKeepsOneLive | backend/src/modules/resident-invites/resident-invites.service.ts:90-110 | Creating an invite in one go keeps one live invite per apartment |
| OccupancyService.ResidentOffice.CreateResident | backend/src/modules/administration/administration.service.ts:368-395 | The tables after creating a resident, or which check failed; keeps flags and used invites right |
| OccupancyService.ResidentOffice.RecomputeApartmentOccupancy | backend/src/modules/administration/administration.service.ts:518-529 | Rewrites one apartment's flag from the count of who is left |
| OccupancyService.ResidentOffice.UpdateResident | backend/src/modules/administration/administration.service.ts:424-455 | The tables after a move within the estate, both flags recomputed; keeps flags and used invites right |
| OccupancyService.ResidentOffice.RemoveResident | backend/src/modules/administration/administration.service.ts:474-499 | The tables after a removal, or Forbidden without the password; keeps flags and used invites right |
| OccupancyService.ResidentOffice.UpdateResidentStatus | backend/src/modules/administration/administration.service.ts:531-543 | The tables after a status change, and exactly when it keeps the flags right |
| OccupancyService.ResidentOffice.CreateInvite | backend/src/modules/resident-invites/resident-invites.service.ts:60-110 | Refusals in order, superseding of open invites, the new two-hour invite; keeps flags and used invites right |
| OccupancyService.ResidentOffice.ResendInvite | backend/src/modules/resident-invites/resident-invites.service.ts:154-171 | A used invite is refused; any other gets a new link and is open again |
| OccupancyService.ResidentOffice.CancelInvite | backend/src/modules/resident-invites/resident-invites.service.ts:210-232 | Only an open invite is cancelled |
| OccupancyService.ResidentOffice.CompleteInvite | backend/src/modules/resident-invites/resident-invites.service.ts:303-339 | Lookup, re-check and transaction with each refusal; keeps flags and used invites right |
| PassCache.FoundExactly | frontend/src/lib/pass-cache.ts:52-64 | A saved id can be shown again if and only if, at every save since its last one, it stands among the first 40 of the same list kept without bound |
| PassCache.MissingOnlyIf | frontend/src/lib/pass-cache.ts:54-58 | A saved id is missing only if a later save found it three days past its end or at least 40 distinct other ids were saved since |
| PassCache.FoundIsTheLastSaved | frontend/src/lib/pass-cache.ts:61-64 | What is found under an id is the last pass saved under it |
| PassCache.StoredInOrder | frontend/src/lib/pass-cache.ts:58-58 | After any run of saves the list has at most 40 entries, newest first, each the last save of its own id |
| PassCache.StoredIsPrefix | frontend/src/lib/pass-cache.ts:54-58 | The bounded list is always the start of the unbounded one |
| PassCache.RememberedUntilExpired | frontend/src/lib/pass-cache.ts:56-56 | With no bound, an id is dropped exactly when a later save finds it three days past its end |
| PassCache.PassStore.SavePass | frontend/src/lib/pass-cache.ts:52-59 | The loop drops the same id and what is long expired, puts the pass in front and cuts at 40; keeps the list the result of the saves so far |
| PassCache.PassStore.GetPass | frontend/src/lib/pass-cache.ts:61-64 | The first entry with the id, if any |
| RouteGuidance.LocateIsFirstNearest | frontend/src/lib/voice-guidance.ts:117-138 | The step found is the first, from the clamped starting step on, that attains the true minimum over all vertices and segment midpoints |
| RouteGuidance.LocateOnRoute | frontend/src/lib/voice-guidance.ts:117-138 | The nested loops compute that search |
| RouteGuidance.LineGivesNearest | frontend/src/lib/voice-guidance.ts:126-135 | One line's points can only bring the best nearer, and name the step only when strictly nearer |
| RouteGuidance.FrontOfSorted | frontend/src/lib/voice-guidance.ts:151-156 | The instruction chosen is due, has the least distance among those due, and is the first of those with it |
| RouteGuidance.ParseRoute | frontend/src/lib/voice-guidance.ts:80-111 | A route results exactly when there are steps and each has a location; each step ends where the next begins and has a line |
| RouteGuidance.VoicesAreComplete | frontend/src/lib/voice-guidance.ts:94-98 | Exactly the voice instructions with both a distance and a text are kept, in order |
| RouteGuidance.MidpointIsHalfway | frontend/src/lib/voice-guidance.ts:131-131 | A segment's middle is as far from one end as from the other in both coordinates |
| VoiceGuide.NeverBackwards | frontend/src/components/visitor/VoiceGuidance.tsx:109-110 | Over any run of fixes and fetches, on one route the step index never decreases and nothing marked as spoken is forgotten |
| VoiceGuide.SpokenOnce | frontend/src/components/visitor/VoiceGuidance.tsx:121-126 | Each instruction of a route is spoken at most once |
| VoiceGuide.FixSpeaksWhatIsDue | frontend/src/components/visitor/VoiceGuidance.tsx:109-126 | A fix that neither arrives nor re-routes stands on the first nearest step, speaks if anything is due there, then one of least distance, and leaves nothing due unspoken |
| VoiceGuide.FixDecides | frontend/src/components/visitor/VoiceGuidance.tsx:97-119 | In every run, when a fix arrives, asks for a route, asks for a new one or goes on: by 30 metres, a missing route, the whole remaining route more than 60 metres away twice running, and 5 and 15 seconds since the last request |
| VoiceGuide.FetchedRouteStartsAfresh | frontend/src/components/visitor/VoiceGuidance.tsx:83-94 | In every run a route that comes in is followed from its first step with nothing counted as spoken but what is due there |
| VoiceGuide.NoRouteIsLeft | frontend/src/components/visitor/VoiceGuidance.tsx:89-91 | In every run a start and a failed fetch leave no route, so the next fix short of the destination finds none |
| VoiceGuide.VoiceGuidance.HandleFix | frontend/src/components/visitor/VoiceGuidance.tsx:97-127 | All references after one fix, in place, with arrival, missing route, re-routing and speaking |
| VoiceGuide.VoiceGuidance.RouteFetched | frontend/src/components/visitor/VoiceGuidance.tsx:83-94 | A route starts afresh and takes its starting point as a fix; a failed fetch forgets the route |

## Left out

- Transactions: the write half of an entry, an exit, the write half of an invite's completion and every administrative operation are one step each, as if they did not overlap.
- GateOneTime.OneTimeAdmitsOnce: scans and link views are single steps there; GateLookups takes them apart.
- OfflineRuns: one device; event ids are random and never repeat; batches above the cap of 200 are refused whole. A database error outside the writing of a log row stops the handling.
- OfflineOnce.ActedOnOnce: speaks of moments at which no handling is between an effect and its row; OfflineOnce.ActedOnExactly is the count at every moment.
- OfflineVerification.OfflineRefinesOnline: assumes distinct visitor codes within an estate (device and server break ties differently) and no online activity between the manifest and the end of the sync.
- RecurringScan.ScansAlternateDaily: a scan's read and its row are one step there; RecurringOverlaps takes them apart. Scans with the very same time are listed in the order they were written.
- RecurringScan: the time zone is a function from time to local date, weekday and minute whose date never goes back; time-zone tables are not modelled.
- RecurringService.RecurringPassesService.Create: takes the weekdays already without repeats and sorted, as the service makes them; names, phones and links carry no rules here.
- RecurringService.RecurringPassesService.Renew: days is at least 1, as the request's validation demands, and today has a four-digit year.
- RecurringService: linking a pass to one phone; changes to a pass between the check and the write of an exception.
- CanonicalJson: a number is the decimal that JavaScript prints for it, so 0 and -0 are one number; how a double is turned into its shortest decimal, and encoding the text to bytes, are left out. Values that JSON cannot hold do not occur.
- PassCache: the stored text is taken to read back as it was written; a full or blocked store, and the 30-minute reopening of a screen, are left out.
- RouteGuidance: distances are an arbitrary real function, so nothing depends on the great-circle formula; rounding is left out. A coordinate has both its numbers.
- RouteGuidance.FrontOfSorted: stands for the first element of the stable sort; the sorted rest only feeds a set.
- VoiceGuide: speech, muting, the screen lock and a missing map token; the accuracy filter on fixes.
- Occupancy: buildings, flat numbers, passwords and emails sent are left out.
- GateLedger.RecordExit: visit ids are positions in the table, in the order of creation.
- SHA-256, HMAC and ECDSA: uninterpreted. Token uniqueness is the table's constraint; the daily code is injective in the date and already in the form a presented code is brought to.
- Notifications, audit logs, verification events, sessions, guards, request validation, HTTP and storage drivers: input and output that changes nothing above.
- The resident overview's counts, emergency status, signup, sockets and calls: separate or easier.
- Minutes are whole numbers and times whole milliseconds.
