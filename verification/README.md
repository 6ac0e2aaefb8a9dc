# Proofs about the eMeal server's billing, sessions, schedules, vacations and audit trail

This project models the parts of the eMeal server whose answers must agree with each other, and proves
that they do. Everything is stated for all inputs, all runs or all interleavings.

| file | what it models |
|---|---|
| `Prelude.dfy`, `Text.dfy` | optional values, sums over finite sets, cutting joined texts apart |
| `Calendar.dfy`, `BillingCycle.dfy` | civil dates, and billing cycles anchored on a day that clamps to short months |
| `RetentionFloor.dfy` | the first retained date and its process-wide memo |
| `Ledger.dfy` | billable rows, signed ledger sums, and the single paise-to-rupee rounding |
| `CarryForward.dfy` | closing snapshots and opening balances, read fast or recomputed |
| `CarryForwardRuns.dfy` | carry-forward over runs of the guarded writers, and after an earlier period is redone |
| `PeriodLock.dfy`, `BookAnswers.dfy` | finalise, reopen, refinalise and the writers the lock stops; what each writer answers and changes |
| `RefundCap.dfy`, `IdempotencyKey.dfy`, `BillingCache.dfy` | three small concurrent protocols |
| `BillingSummary.dfy` | the fold behind the billing summary |
| `TokenFamilies.dfy` | refresh-token rotation, rescue and theft detection |
| `PublishedDay.dfy`, `ResolvedDay.dfy` | resolving a published day, freezing it against drafts, and what a day shows in terms of the stored rows |
| `VacationCoverage.dfy`, `VacationSweep.dfy` | who is on vacation for a meal, and the daily flag sweep |
| `AttendanceWindows.dfy`, `Materialisation.dfy` | attendance windows and their validator; sweeps that write attendance for members who did not |
| `AuditCanon.dfy`, `AuditUnique.dfy`, `AuditBars.dfy` | canonical text of metadata, what it determines, and where a bar can stand in it |
| `AuditTrail.dfy`, `AuditBuffer.dfy` | signed rows and their verification; buffered writes whose inserts overlap |
| `QrPayload.dfy` | the signed QR invitation text |

Services that change state are classes whose methods are proved equal to a transition function on values
(`Do`, `Refresh`, `Sweep…`, `Step`); the runs and interleavings are then proved about those
functions, and what each function answers and changes is stated on its own, row by row, with statuses, flags and
conditions written out (`OneMore…`, `…Answers`, `…Means`). Loops of the
source are loops here. Database tables are sequences or maps, a grouped query is an input that must state the
right sums, and Redis keys are fields. Clocks, random ids, hashes, JSON text and the answers of the network
are parameters; a command that may fail takes a flag that says how.

Several promises turned out to hold only under a condition the code does not check. Each is kept as the code
has it, with the exact condition and an input that breaks it:

* the refund cap is sound for exactly the amounts that do not round down to the rupee (`CapSoundIffRoundsUp`, `SmallRefundsLeak`);
* the summary cache is coherent through a run exactly when every bump, and every version fetch that fails and falls back to
  zero, finds no answer short of the bumped writes cached, or about to be cached, under its value (`NeverStaleIffSafe`);
  two bumps in one clock tick break it (`ReusedVersionServesStale`);
* altered audit rows that keep a hash are reported for exactly the changes to signed columns and metadata if and only if the
  target columns hold no bar, the request id hides no action, and the metadata held no undefined member and no date object
  (`ReportsExactlyIff`); a caller's own request id is enough to break it (`RequestIdHidesAction`). In no case is a change of
  the address reported, which is not signed (`AddressChangeIsUnreported`), nor any change once the hash is cleared
  (`ClearedHashIsUnreported`);
* a sweep on a day already finalised keeps the period's figures exactly when its rows cost nothing (`SweepOnFinalisedDay`, `SweepBreaksFigures`);
* refinalising keeps finalised periods disjoint exactly when nothing overlaps (`RefinaliseKeepsDisjointIff`, `OverlapIsReachable`),
  and leaves later openings short of exactly the corrections their chain never took up (`OpeningsMissCorrections`), until
  every later period is redone in order (`RedoingInOrderRepairs`);
* finalising checks for overlaps and not for gaps: openings read from a snapshot leave out exactly what was charged on days
  never finalised (`SnapshotMissesTheGaps`, `GapIsNeverBilled`);
* snapshots rounded period by period drift from one final rounding, by a bound that legal runs reach (`SnapshotRefinesLive`, `DriftIsReached`);
* an approved correction request is never used up: it posts any number of debits (`OneRequestPostsAnyDebits`);
* a session family without a live row stays dead exactly when none of its tokens is inside the grace window (`DeadForeverIff`);
  within it one token sent twice leaves two live rows (`GraceAllowsTwoLiveRows`), and a reset or tokenless logout can be
  undone (`GraceRevivesEndedFamily`);
* drafts never show exactly when every published week has a snapshot or entries to freeze (`DraftsNeverShowIff`);
* audit metadata survives its round trip exactly when it holds no undefined member and no date object (`RoundTripKeepsTextIff`);
* audit rows reach the table in order while inserts do not overlap, and can be swapped when they do (`OrderKept`, `OverlapReorders`);
* a day that overrides only a meal's opening time passes the window validator, which lends it the meal's closing time, and
  is then never swept, because the sweep does not (`OpenOnlyOverrideIsNeverSwept`);
* the account's vacation flag is switched off after a vacation exactly when a sweep runs within two days of its end (`AccountFlagClearsIff`).

The source's comments and code disagree in two places, and the model follows the code. The redis service says family
operations must throw on failure, while `revokeFamily` and `isFamilyRevoked` go through helpers that swallow errors;
here a failed check reads as not revoked. The comment above the cache says hits are coherent by construction; they
are when every bump and every failed fetch is safe in the sense above.

## Model

| member | source | states |
|---|---|---|
| `BillingCycle.PeriodsPartitionCalendar` | src/features/billing/billing.service.ts:1012-1055 | for every date and any anchor setting: the period contains the date, exactly its dates resolve to it, neighbours abut it on both sides, and it has 28 to 31 days |
| `BillingCycle.PeriodStartsOnConfiguredDay` | src/features/billing/billing.service.ts:1015-1043 | a period starts on the configured day, or on the last day of a month too short for it, or on the first when none is configured |
| `BillingCycle.PeriodStartIsLatestAnchor` | src/features/billing/billing.service.ts:1037-1049 | the period's first day is the latest clamped anchor of any month that is not after the date |
| `BillingCycle.CalendarMonthEnds` | src/features/billing/billing.service.ts:1028-1036 | a calendar-month period runs from the first to the last day of its month; that of a February ends on the 29th exactly in leap years, of April, June, September and November on the 30th |
| `BillingCycle.FebruaryClamps` | src/features/billing/billing.service.ts:1037-1049 | an anchor of 29 to 31 starts February's period on its last day, the 29th exactly in leap years, and the period before ends the day before |
| `Calendar.MonthStartClosed` | src/features/billing/billing.service.ts:1030-1044 | the calendar in closed form: the days before the first of any month of any year, one leap day in four years, none in a century unless in four hundred |
| `Calendar.FourCenturies` | src/features/billing/billing.service.ts:1030-1044 | it repeats every 4800 months, after 146097 days |
| `Calendar.MillisOfDate` | src/common/utils/retention-floor.util.ts:23 | an instant is on a date exactly when it is less than 86400000 ms after that date's midnight, counted from 1 January 1970 |
| `RetentionFloor.WalkBack` | src/common/utils/retention-floor.util.ts:68-72 | the counting loop ends on the anchor `cycles - 1` periods before the boundary's own |
| `RetentionFloor.WindowIsWholePeriods` | src/common/utils/retention-floor.util.ts:63-72 | that date, and no other, makes the span to the boundary period's end exactly `cycles` whole consecutive periods |
| `RetentionFloor.FloorBounds` | src/common/utils/retention-floor.util.ts:73-83 | the floor is the creation date or the window start, never before creation, and before the window exactly in the first published window |
| `RetentionFloor.KeyInjective` | src/common/utils/retention-floor.util.ts:52-54 | the memo's text key determines all five inputs |
| `RetentionFloor.Memo.RetainedDataFrom` | src/common/utils/retention-floor.util.ts:47-61 | whatever was called or cleared before, the memoised answer is the unmemoised one, and the memo stays bounded |
| `RetentionFloor.ComputeRetainedDataFrom` | src/common/utils/retention-floor.util.ts:63-84 | the walk and the creation-date rules compute the floor |
| `Ledger.SumAdjustmentsByUser` | src/features/billing/billing.service.ts:913-941 | each listed user gets debits plus refunds minus credits, summed in paise and rounded once |
| `Ledger.SumAdjustmentsByUserDetailed` | src/features/billing/billing.service.ts:955-1010 | the same total, with each type's own rounded sum beside it |
| `Ledger.NetOfGroups` | src/features/billing/billing.service.ts:919-937 | netting the grouped rows is the signed sum over the posted entries themselves |
| `Ledger.OneMoreMeal` | src/features/billing/billing.service.ts:789-796 | one more attendance row moves its member's sum by its price when it is present, skipped, or absent with the flag set, and never when it is pending, on vacation, or absent without it |
| `Ledger.OneMoreGuest` | src/features/billing/billing.service.ts:815-834 | one more guest moves the host's sum by the snapshot price when booked, when a no-show under the policy, and never when cancelled, awaiting approval, or the feature is off |
| `Ledger.OneMoreEntry` | src/features/billing/billing.service.ts:919-937 | one more ledger entry counts once posted: a credit lowers the sum, a debit or refund raises it |
| `Ledger.DetailAddsUp` | src/features/billing/billing.service.ts:943-954 | the itemised parts differ from the total by at most one rupee |
| `Ledger.RoundingOftenVersusOnce` | src/features/billing/billing.service.ts:895-911 | rounding n sums and rounding their sum differ by less than (n + 1) / 2 rupees, and not at all for whole rupees |
| `Ledger.RoundingBoundIsTight` | src/features/billing/billing.service.ts:895-911 | n sums of fifty paise differ by n / 2 rupees |
| `CarryForward.OpeningFromSnapshot` | src/features/billing/billing.service.ts:1296-1311 | the balances are read exactly when every row is readable; one malformed row gives nothing |
| `CarryForward.OpeningMapCarriesNonzero` | src/features/billing/billing.service.ts:1287-1310 | with one row per user, exactly the users with a nonzero closing balance are carried, at that balance |
| `CarryForward.ComputeOpeningBalances` | src/features/billing/billing.service.ts:1106-1237 | the opening balance of every member: nothing, the last finalised snapshot, or all raw rows through its end; exactly the nonzero ones are in the map |
| `CarryForward.LastFinalIsLatest` | src/features/billing/billing.service.ts:1125-1137 | on any list the query finds a finalised period that ends before the date, none of which ends later, or nothing exactly when there is none |
| `CarryForward.BuildTotalsSnapshot` | src/features/billing/billing.service.ts:1313-1425 | from the grouped queries' answers, through the two calls for adjustments and openings: one row for each user with any figure, each with the true figures of the period and a closing balance that adds them |
| `CarryForward.MealMovesBilled` | src/features/billing/billing.service.ts:1338-1362 | in a period's snapshot a meal moves the billed amount by its price, or not at all |
| `CarryForward.GuestMovesGuests` | src/features/billing/billing.service.ts:1363-1380 | a guest moves the guest amount by the snapshot price, or not at all |
| `CarryForward.EntryMovesPaise` | src/features/billing/billing.service.ts:919-937 | an entry moves the adjustments once posted, with its sign |
| `CarryForward.SnapshotStates` | src/features/billing/billing.service.ts:1396-1424 | each stored line holds, column by column, its member's opening, billed, guest and adjustment figures, present count and amount, and a closing balance that adds the first four; every member with any of them has a line |
| `CarryForward.GroupedAnswer` | src/features/billing/billing.service.ts:1386-1394 | a grouped answer gives a user the sum of their row, a missing sum counting nothing |
| `CarryForward.ClosingOfSnapshot` | src/features/billing/billing.service.ts:1396-1424 | what a snapshot carries for any user, listed or not, is opening plus billed plus guests plus adjustments |
| `CarryForward.LastFinalInChain` | src/features/billing/billing.service.ts:1125-1137 | the query finds the last period of a chain that ends before the date |
| `CarryForward.SnapshotMissesTheGaps` | src/features/billing/billing.service.ts:1132-1237 | after any run of edits and finalisations in date order, for every member and date: the snapshot's opening plus the charges on days no finalised period covers is the recomputed opening, up to the rounding of each period and exactly on whole-rupee ledgers |
| `CarryForward.SnapshotRefinesLive` | src/features/billing/billing.service.ts:1132-1237 | without gaps, fast and slow opening balances differ by less than (n + 1) / 2 rupees, and are equal on whole-rupee ledgers |
| `CarryForwardRuns.GuardedRunIsLegal` | src/features/billing/billing.service.ts:1245-1263 | the period lock is enough: marks, bulk marks, adjustments, decisions and sweeps on open days, with finalisations in date order, are such runs |
| `CarryForwardRuns.GuardedSnapshotMissesTheGaps` | src/features/billing/billing.service.ts:1132-1237 | so over every run of the guarded writers the snapshot's opening leaves out exactly the gaps |
| `CarryForwardRuns.GuardedSnapshotRefinesLive` | src/features/billing/billing.service.ts:1132-1237 | and without gaps is the recomputed one, up to the bound |
| `CarryForwardRuns.GapIsNeverBilled` | src/features/billing/billing.service.ts:134-155 | two finalisations around a meal's day leave it out of every later opening |
| `CarryForwardRuns.DriftIsReached` | src/features/billing/billing.service.ts:895-911 | for every n a legal run of n finalisations makes the two differ by n / 2 rupees |
| `CarryForwardRuns.OpeningsMissCorrections` | src/features/billing/billing.service.ts:253-287 | over any sequence of reopening, correcting and refinalising, in any order, an opening read at any date is short of exactly the sum of the corrections its chain of snapshots never took up |
| `CarryForwardRuns.RedoingInOrderRepairs` | src/features/billing/billing.service.ts:253-287 | redoing every period from the first one short onwards, in order, makes every snapshot true again |
| `PeriodLock.FinalisedFiguresAreFrozen` | src/features/billing/billing.service.ts:1239-1263 | over any run of marks, bulk marks, adjustments, decisions, guarded sweeps, finalise, reopen and refinalise, recomputing a finalised period gives its snapshot's billed amounts and adjustments |
| `PeriodLock.ApprovedDebitLandsOnOpenDay` | src/features/billing/billing.service.ts:663-706 | an approved debit is posted whole on a day that is not finalised, moved to today only if its own day was locked |
| `PeriodLock.RejectedDebitNeverBills` | src/features/billing/billing.service.ts:698-706 | rejection changes no member's ledger sum over any dates |
| `PeriodLock.DecisionIsFinal` | src/features/billing/billing.service.ts:645-662 | a second decision, either way, is turned away and changes nothing |
| `PeriodLock.DebitsNeedConsent` | src/features/billing/billing.service.ts:396-428 | every posted debit a run created was approved in that run by the member it bills, or names a request that was an approved one of that member when it was posted |
| `PeriodLock.OneRequestPostsAnyDebits` | src/features/billing/billing.service.ts:405-428 | one approved request posts any number of debits of any amounts, and the member's ledger grows by all of them |
| `PeriodLock.SweepOnFinalisedDay` | src/workers/system-default.worker.ts:1359-1465 | a sweep batch on a finalised day keeps the period's figures exactly when it is empty or free |
| `PeriodLock.SweepBreaksFigures` | src/features/billing/billing.service.ts:124-132 | finalising through today and then sweeping today breaks the figures, in two ordinary steps |
| `PeriodLock.OtherStepsKeepDisjoint` | src/features/billing/billing.service.ts:134-155 | every step but refinalise keeps finalised periods disjoint |
| `PeriodLock.RefinaliseKeepsDisjointIff` | src/features/billing/billing.service.ts:253-287 | refinalise keeps them disjoint exactly when the period overlaps no finalised one |
| `PeriodLock.OverlapIsReachable` | src/features/billing/billing.service.ts:253-287 | four ordinary steps reach two overlapping finalised periods |
| `PeriodLock.BillingBook.IsDateFinalized` | src/features/billing/billing.service.ts:1245-1263 | locked exactly when some finalised period contains the day, with such a period's end |
| `PeriodLock.BillingBook.MarkAttendance` | src/features/attendance/attendance.service.ts:501-506 | a mark on a locked day changes nothing; otherwise it is the keyed upsert |
| `PeriodLock.BillingBook.BulkMarkAttendance` | src/features/attendance/attendance.service.ts:869-883 | one locked date refuses the whole batch; otherwise every row is upserted |
| `PeriodLock.BillingBook.CreateAdjustment` | src/features/billing/billing.service.ts:396-520 | the request lookup, the lock and the refund cap are checked in this order, and an accepted entry is appended posted or awaiting the member |
| `PeriodLock.BillingBook.DecideAdjustment` | src/features/billing/billing.service.ts:633-706 | the member's decision, with every refusal and the move to an open day |
| `PeriodLock.BillingBook.FinalizePeriod` | src/features/billing/billing.service.ts:90-174 | a valid, past, non-overlapping range is locked with a snapshot true to the tables and to the openings carried in; each refusal changes nothing |
| `PeriodLock.BillingBook.RefinalizePeriod` | src/features/billing/billing.service.ts:253-287 | a reopened period is locked again with a fresh true snapshot |
| `BookAnswers.RefusalChangesNothing` | src/features/billing/billing.service.ts:1245-1263 | a request that is refused, for whatever reason, changes nothing |
| `BookAnswers.MarkLands` | src/features/attendance/attendance.service.ts:501-506 | a mark is refused exactly when a finalised period holds its day; otherwise it is the one row of its member, meal and date, and every other row is as it was |
| `BookAnswers.BatchLands` | src/features/attendance/attendance.service.ts:869-883 | a batch is refused whole exactly when one of its days is locked; otherwise each key it names holds its last row for it, and every other row is as it was |
| `BookAnswers.AdjustmentAnswers` | src/features/billing/billing.service.ts:396-520 | every answer to a new adjustment: no consent exactly when a named request is not an approved one of the member, a locked day, over the member's credit, else stored posted or awaiting the member |
| `BookAnswers.AcceptedRefundNeverOwes` | src/features/billing/billing.service.ts:472-512 | on the book, an accepted refund that does not round down leaves meals plus guests plus the rounded ledger at or below zero |
| `BookAnswers.RefundsStayWithinCredit` | src/features/billing/billing.service.ts:462-520 | over every run in which the member's other rows stay fixed, whatever other members and the periods do, whole-rupee refunds never total more than the credit there was |
| `BookAnswers.DecisionAnswers` | src/features/billing/billing.service.ts:633-706 | every answer to a decision, and the entry it leaves: status and, only if its own day was locked, its date |
| `BookAnswers.PeriodAnswers` | src/features/billing/billing.service.ts:90-174 | every answer to finalise, reopen and refinalise, and the one period each changes |
| `BookAnswers.EditsReplace` | src/features/billing/billing.service.ts:405-428 | guests, requests and the policy are whatever was last written elsewhere |
| `RefundCap.ComputeMemberNetBalance` | src/features/billing/billing.service.ts:796-849 | meals plus guests plus the signed ledger, rounded once, over all dates |
| `RefundCap.MealMovesNet` | src/features/billing/billing.service.ts:796-849 | a meal moves the net by its price exactly when it bills |
| `RefundCap.GuestMovesNet` | src/features/billing/billing.service.ts:815-834 | a guest moves the net by the snapshot price exactly when it bills |
| `RefundCap.GroupedByType` | src/features/billing/billing.service.ts:835-843 | a grouped answer gives a type the sum of its row, a missing sum counting nothing |
| `RefundCap.EntryMovesNet` | src/features/billing/billing.service.ts:835-849 | a whole-rupee entry moves the net by its rupees once posted, down for a credit |
| `RefundCap.CapSoundIffRoundsUp` | src/features/billing/billing.service.ts:472-512 | accepting an amount never leaves the member owing, on any account, exactly when the amount does not round down; otherwise a member without charges breaks it |
| `RefundCap.RefundsNeverExceedCredit` | src/features/billing/billing.service.ts:462-520 | in every interleaving of refund transactions each commit leaves the net at or below zero, and whole-rupee refunds total at most the initial credit |
| `RefundCap.LedgerAfterStep` | src/features/billing/billing.service.ts:505-511 | only a commit changes what others see: it appends one posted refund of the member, of the amount asked for |
| `RefundCap.LockIsHeldByTheActive` | src/features/billing/billing.service.ts:469-475 | in every run the lock is held exactly by the transaction between taking it and its end, so it never stays behind |
| `RefundCap.FinishedIsFinal` | src/features/billing/billing.service.ts:466-511 | a committed or refused transaction never runs again |
| `RefundCap.UnpaidLeavesNothing` | src/features/billing/billing.service.ts:486-512 | a refund over the credit, and a crash before the commit, leave the ledger as it was and give the lock back |
| `RefundCap.SmallRefundsLeak` | src/features/billing/billing.service.ts:472-512 | two refunds of 49 paise against no credit leave the member owing a rupee |
| `IdempotencyKey.AtMostOnceAndSameResponse` | src/features/billing/billing.service.ts:310-356 | in every interleaving, with any Redis failures, at most one row exists and every successful response is that row's |
| `IdempotencyKey.ResponsesArePermanent` | src/features/billing/billing.service.ts:613-624 | once someone has been answered, rows and that answer never change |
| `IdempotencyKey.FailureFreesTheKey` | src/features/billing/billing.service.ts:341-355 | a failed attempt leaves no row, and a retry can reserve the key exactly when the delete was not lost |
| `IdempotencyKey.DuplicateIsAnswered` | src/features/billing/billing.service.ts:326-340 | a duplicate at any time after the response was stored is answered with it exactly when its read gets through, else with a conflict; while the first attempt is at work, always with a conflict; it never posts |
| `IdempotencyKey.FirstAttemptSucceeds` | src/features/billing/billing.service.ts:323-356 | an undisturbed first attempt posts one row, answers with it and stores the answer |
| `IdempotencyKey.FailuresOfRedis` | src/redis/redis.service.ts:137-200 | a lost command leaves the key, an applied one takes effect though it reports failure |
| `BillingCache.CacheIsCoherent` | src/features/attendance/attendance.service.ts:1772-1789 | with fresh versions and no failed fetch, every answer reflects each write whose bump completed before its reader fetched the version |
| `BillingCache.NeverStaleIffSafe` | src/features/billing/billing.service.ts:66-86 | for every run: no prefix of it can go on, without another bump or failed fetch, to a stale answer exactly when each bump and failed fetch finds nothing short of the bumped writes cached, or held by a reader about to cache it, under its value |
| `BillingCache.UnsafeBumpServesStale` | src/features/attendance/attendance.service.ts:1772-1789 | after any other bump, in any state, some continuation serves a later reader stale |
| `BillingCache.UnsafeLossServesStale` | src/features/billing/billing.service.ts:80-86 | after any other failed fetch, in any state, some continuation serves its own reader stale |
| `BillingCache.OwedIsFixedAtFetch` | src/features/attendance/attendance.service.ts:2265-2282 | the writes an answer owes are those bumped at the fetch, whatever happens afterwards |
| `BillingCache.ExpiredIsGone` | src/features/billing/billing.service.ts:66-72 | an answer that expires is gone, and no other |
| `BillingCache.ReusedVersionServesStale` | src/features/billing/billing.service.ts:72-78 | for any version value, a reader that straddles two bumps to it makes the next reader miss the second write |
| `BillingSummary.GetBillingSummary` | src/features/attendance/attendance.service.ts:1848-2104 | net bills add up to carried balances plus net revenue; each member has one bill, with their billed rows, counts by status, guests, debits, credits and refunds; both breakdowns split the present-only revenue and count; nobody with a row or an active membership is missing |
| `BillingSummary.FoldRow` | src/features/attendance/attendance.service.ts:1868-1939 | one row adds to its member, meal, slot and the totals by status |
| `BillingSummary.RowMovesKitchen` | src/features/attendance/attendance.service.ts:1874-1896 | one more row adds one meal and its price to its own meal's and slot's breakdown when it is present, and nothing else |
| `BillingSummary.RowMovesMeals` | src/features/attendance/attendance.service.ts:1868-1939 | one more row moves its member's meal charges and the revenue by its price when present, skipped, or absent with the flag set, else by nothing |
| `BillingSummary.GroupsAddUp` | src/features/attendance/attendance.service.ts:1868-1939 | buckets by any key add up to the whole |
| `BillingSummary.GetMyBilling` | src/features/attendance/attendance.service.ts:2138-2222 | a member's own view shows every figure of their row, or zeros, and reconciles |
| `BillingSummary.ViewShowsMeals` | src/features/attendance/attendance.service.ts:2138-2222 | a member is shown every figure of their row, and the bill without the guests is exactly what their billed rows charge |
| `TokenFamilies.OneLiveRowPerFamily` | src/features/auth/auth.service.ts:644-870 | in every run no row replaces two, and with the grace window off a family has at most one live row |
| `TokenFamilies.AcceptsExactly` | src/features/auth/auth.service.ts:663-771 | in any state refresh accepts exactly the tokens inside their window of an unflagged family, the unexpired live token, and the one it directly replaced |
| `TokenFamilies.AcceptedRotates` | src/features/auth/auth.service.ts:812-870 | an accepted refresh stores a live new row with its expiry and, outside a window, leaves the presented row revoked, used and replaced by it, and no other row of the family live |
| `TokenFamilies.StrangerEndsFamily` | src/features/auth/auth.service.ts:700-743 | presenting, outside its window, a revoked or unknown token that is not a live one's unexpired predecessor yields nothing and leaves no live row |
| `TokenFamilies.FailedLookupEndsFamily` | src/features/auth/auth.service.ts:660-743 | with a failed lookup of the token, or of a revoked token's successor, the request ends the family and flags it |
| `TokenFamilies.KeysExpire` | src/redis/redis.service.ts:168-209 | a flag or a window that Redis loses is gone, and nothing else is |
| `TokenFamilies.DeadYieldsIff` | src/features/auth/auth.service.ts:663-743 | a family without a live row yields a token exactly to a token of it still inside its window, with a healthy Redis and no flag |
| `TokenFamilies.DeadForeverIff` | src/features/auth/auth.service.ts:663-743 | no run ever yields another token for it, flags lost or not and other windows open or not, exactly when none of its tokens is inside its window |
| `TokenFamilies.SpentForever` | src/features/auth/auth.service.ts:709-743 | a token that is neither live, nor a live one's predecessor, nor inside its window is refused ever after, in every run |
| `TokenFamilies.SignOutEndsFamilies` | src/features/auth/auth.service.ts:775-791 | logout with a token, without one, and a reset that ends sessions leave nothing live |
| `TokenFamilies.SignOutSparesOtherUsers` | src/features/auth/repositories/auth.repository.ts:56-61 | a logout without a valid token and a reset that ends sessions revoke that user's rows, change no other user's row and no Redis key; a reset that does not changes nothing |
| `TokenFamilies.LogoutSparesOtherFamilies` | src/features/auth/repositories/auth.repository.ts:49-54 | a logout with a valid token revokes and flags that family, and changes no row of another |
| `TokenFamilies.CleanUpDeletesExpired` | src/features/auth/repositories/auth.repository.ts:63-67 | the clean-up deletes exactly the expired rows |
| `TokenFamilies.OthersKeepTheirSession` | src/features/auth/auth.service.ts:644-791 | after any run in which no step names the token's user or family, nothing of its family has changed, and the token is accepted exactly when it was before |
| `TokenFamilies.ForkIsFatal` | src/features/auth/auth.service.ts:709-743 | in any reachable state, of two tokens from one rotation, outside their windows, once one is accepted, presenting the other at any later time ends the family; for good, when the window is off or the family's windows have closed |
| `TokenFamilies.GraceAllowsTwoLiveRows` | src/features/auth/auth.service.ts:673-698 | with the window open, every live token sent twice leaves two live rows |
| `TokenFamilies.GraceRevivesEndedFamily` | src/features/auth/auth.service.ts:746-771 | a token rotated just before a password reset or a tokenless logout brings the ended family back |
| `TokenFamilies.Sessions.RefreshTokens` | src/features/auth/auth.service.ts:644-771 | the request, step by step, is the transition the runs are proved about |
| `TokenFamilies.Sessions.IssueTokens` | src/features/auth/auth.service.ts:812-870 | a fresh row is stored and the presented one is revoked, used and linked to it |
| `TokenFamilies.RevokingKeepsInv` | src/features/auth/repositories/auth.repository.ts:42-67 | revoking or deleting any rows keeps the lineage invariant |
| `PublishedDay.NormalizeAfterFreeze` | src/common/utils/published-snapshot.util.ts:58-89 | freezing an entry and reading it back is reading it live, exactly when it has no frozen preferences and no known mode |
| `PublishedDay.FrozenIsPlain` | src/common/utils/published-snapshot.util.ts:58-89 | what is frozen is plain JSON: no date object, no absent list, no configuration of its own |
| `PublishedDay.CarryForwardEntries` | src/common/utils/published-day.util.ts:245-257 | the loop finds the latest dated day before the target and all its entries |
| `PublishedDay.CarriedIsLatestPublishedDay` | src/common/utils/published-day.util.ts:230-257 | no published day lies between the carried one and the target, and none of its entries is missing |
| `PublishedDay.ResolvePublishedDayEntries` | src/common/utils/published-day.util.ts:265-407 | exact day, then weekday of the latest week, then the carried day, as one function of the table, the date and the caller's flag, or the group row's when the caller has none |
| `ResolvedDay.ExactDayWins` | src/common/utils/published-day.util.ts:285-300 | a date its own published week has rows for shows exactly those rows, field by field, the last one for each meal |
| `ResolvedDay.LatestWeekRecurs` | src/common/utils/published-day.util.ts:301-313 | otherwise it shows exactly the rows of its weekday in the published week with the latest start |
| `ResolvedDay.CarriedDayShows` | src/common/utils/published-day.util.ts:315-399 | with neither, it shows the rows of the latest earlier day of those two weeks, if the first mode they record, or else the flag, says day-wise |
| `ResolvedDay.EmptyDayShowsNothing` | src/common/utils/published-day.util.ts:265-407 | with nothing dated earlier either, it shows nothing |
| `ResolvedDay.MondayIsZero` | src/common/utils/published-day.util.ts:287-288 | the weekday of Monday 5 January 1970 is 0, and the next day is the next weekday |
| `PublishedDay.FlagMattersIff` | src/common/utils/published-day.util.ts:359-399 | the group's day-wise flag changes a day exactly when both earlier steps are empty and the carried day records no mode |
| `PublishedDay.DraftWall` | src/common/utils/published-snapshot.util.ts:91-118 | no sequence of draft saves changes what any date resolves to, over any table of protected rows |
| `PublishedDay.EmptyWeekIsNotProtected` | src/common/utils/published-snapshot.util.ts:104-112 | in any table, under either flag, a draft entry on the Monday of a published week with no snapshot and no entries becomes all of that published day |
| `PublishedDay.DraftsNeverShowIff` | src/common/utils/published-snapshot.util.ts:91-118 | for every table of database rows: no sequence of draft saves changes any day exactly when each published week has a snapshot or entries |
| `PublishedDay.ScheduleTable.FreezeLegacyPublishedSnapshot` | src/common/utils/published-snapshot.util.ts:99-118 | only a published row without a snapshot and with live entries is frozen |
| `VacationCoverage.CoverageIsInterval` | src/common/utils/vacation-coverage.util.ts:41-98 | with known clocks coverage is exactly a lexicographic (day, clock) interval, one-day requests included |
| `VacationCoverage.BoundaryMealsCovered` | src/common/utils/vacation-coverage.util.ts:46-85 | the boundary meals are covered whatever the clocks say, unless a one-day request also has another boundary meal |
| `VacationCoverage.OtherMealsGoByClock` | src/common/utils/vacation-coverage.util.ts:64-98 | every other meal of the request's days is covered unless it is known to open before the start slot on the first day or after the end slot on the last |
| `VacationCoverage.ClockTextReads` | src/common/utils/vacation-coverage.util.ts:35-39 | one or two digits, a colon and two digits read as sixty minutes an hour and the minutes |
| `VacationCoverage.OnlyClockTextReads` | src/common/utils/vacation-coverage.util.ts:35-39 | no other text reads as a clock |
| `VacationCoverage.UnknownClocksEnlarge` | src/common/utils/vacation-coverage.util.ts:17-19 | forgetting clocks never uncovers a meal |
| `VacationCoverage.FindCoveredTakenMeal` | src/common/utils/vacation-coverage.util.ts:120-145 | the first covered taken meal, or nothing exactly when none is covered |
| `VacationCoverage.MasterClockIs` | src/common/utils/vacation-coverage.util.ts:127-131 | a slot's clock is that of the group's first meal with it |
| `VacationCoverage.GetVacationCoveredUserIds` | src/common/utils/vacation-coverage.util.ts:237-385 | exactly the candidates whom a governing request of this group or of all groups covers, or whose flag is on when none governs |
| `VacationCoverage.OneMoreRequest` | src/common/utils/vacation-coverage.util.ts:251-383 | with no request the flag decides; a request that is not approved, is deleted, or is for other days, another group or member decides nothing; any other beats the flag, and one that covers the meal is enough |
| `VacationCoverage.SlotClockIs` | src/common/utils/vacation-coverage.util.ts:328-335 | a slot's clock is its last meal's: the published day's own opening time, else the frozen configuration's, else the meal's |
| `VacationCoverage.OtherGroupsDoNotSpill` | src/common/utils/vacation-coverage.util.ts:342-350 | requests scoped to another group decide nothing here |
| `VacationCoverage.SplitVacationTargets` | src/common/utils/vacation-coverage.util.ts:211-221 | the account target and the group targets, each exactly when such a request is there |
| `VacationCoverage.ResolveVacationScope` | src/common/utils/vacation-coverage.util.ts:171-186 | no list exactly when nothing covers today or something covers every group; otherwise exactly the covered groups |
| `VacationSweep.Flags.VacationSweep` | src/workers/system-default.worker.ts:524-744 | the sweep sets every account and membership flag to what its own requests say |
| `VacationSweep.OnlyRequestDecides` | src/workers/system-default.worker.ts:524-744 | one sweep and a member's only request: approved, near and covering the day it switches the account or that group's membership on, ended it switches it off or hands it back, and nothing else changes |
| `VacationSweep.GroupRequestsDoNotSpill` | src/workers/system-default.worker.ts:598-680 | over any number of days, requests scoped to one group change no account flag and no other group's flag |
| `VacationSweep.ToggleIsLeftAlone` | src/workers/system-default.worker.ts:627-661 | a member with no all-groups request near today keeps the account flag |
| `VacationSweep.SecondSweepChangesNothing` | src/workers/system-default.worker.ts:683-731 | a later sweep on the same day leaves every flag as it is |
| `VacationSweep.CoveredAccountIsOn` | src/workers/system-default.worker.ts:598-661 | after a sweep that a vacation covers the account flag is on, whatever happened before |
| `VacationSweep.AccountFlagClearsIff` | src/workers/system-default.worker.ts:545-661 | over any sweeps after a vacation's end the account flag is cleared exactly when one of them still sees the request |
| `VacationSweep.MembershipFlagClearsIff` | src/workers/system-default.worker.ts:720-731 | over any sweeps after a group vacation's end the membership flag is handed back to the account's, for good, exactly when one of them still sees the request |
| `VacationSweep.MembershipIsLeftAlone` | src/workers/system-default.worker.ts:706-731 | a membership no request of its group is near keeps its flag, set or absent |
| `VacationSweep.CoveredMembershipIsOnIff` | src/workers/system-default.worker.ts:706-719 | a covered membership is switched on unless its flag was absent and the database skips absent flags |
| `Materialisation.SweepsAreSafe` | src/workers/system-default.worker.ts:1359-1465 | in every interleaving: one record per key, one winner per sweep, meal and date, and after a System Skip every active member read has a record or is on vacation |
| `Materialisation.MarkStands` | src/features/attendance/attendance.service.ts:501-506 | a member's mark stands as the record of its meal and date, and every other record is as it was |
| `Materialisation.TickWinsIff` | src/workers/system-default.worker.ts:1374-1378 | a tick wins exactly when Redis answers and nobody has won its sweep, meal and date |
| `Materialisation.ReadFinds` | src/workers/system-default.worker.ts:1399-1449 | the winner writes for exactly the members let through who have no record and are not on vacation |
| `Materialisation.SweepsOnlyAppend` | src/workers/system-default.worker.ts:1435-1450 | a sweep never alters, moves or removes an existing record |
| `Materialisation.SweepWritesOnlyEligible` | src/workers/system-default.worker.ts:1421-1450 | it appends only system rows for eligible members without a record |
| `Materialisation.MemberMarkWins` | src/workers/system-default.worker.ts:1435-1450 | a record made before the insert stands and gets no second row |
| `AttendanceWindows.FullChanceIff` | src/workers/system-default.worker.ts:72-79 | a window found closed has been open for its whole length exactly when it does not pass midnight or its grace keeps it from closing |
| `AttendanceWindows.WindowStates` | src/common/utils/date.utils.ts:95-113 | a window is upcoming before it opens, open to its close, then in grace, then closed; an unreadable clock never holds it back |
| `AttendanceWindows.AssertMealWindowsValid` | src/features/meals/utils/window-conflict.util.ts:89-109 | accepts exactly when every window is acceptable on its own, and otherwise reports the first that is not |
| `AttendanceWindows.AcceptedMeans` | src/features/meals/utils/window-conflict.util.ts:89-109 | a window is acceptable exactly when both times are readable times of one day, the closing one later, and which of the two errors it gets otherwise; the system's own slot is exempt |
| `AttendanceWindows.MinutesReadsClock` | src/features/meals/utils/window-conflict.util.ts:89-109 | a text reads as hour h and minute m exactly when it is "HH:mm" for them, the hour's leading zero being optional |
| `Materialisation.AcceptedWindowsAreFair` | src/features/meals/schedules.service.ts:974-998 | every window the sweep meets, for a meal and a day's entry the validator accepted, lies within one day and gives members its whole length |
| `Materialisation.EntryIsJudgedWithFallback` | src/features/meals/schedules.service.ts:982-996 | a day's entry is judged with each of its times falling back to the meal's on its own |
| `Materialisation.OpenOnlyOverrideIsNeverSwept` | src/features/meals/schedules.service.ts:974-998 | a day with an opening time of its own and no closing time is accepted with the meal's closing time and never swept |
| `Materialisation.DecisionIsFair` | src/workers/system-default.worker.ts:1178-1357 | on a window within one day nobody is recorded before close and grace, Present needs an opt-out group, no preferences and the floor's minutes since opening, and a price only what the group bills |
| `Materialisation.DecisionMeans` | src/workers/system-default.worker.ts:1276-1357 | on a window within one day a meal is decided exactly when it is on offer, its close and grace have passed, and Present leaves the floor's minutes; a row that bills carries the day's price, else the meal's |
| `Materialisation.NoWindowNoDecision` | src/workers/system-default.worker.ts:1307-1312 | without an opening or a closing time nothing is decided |
| `Materialisation.OvernightIsClosedAtOpening` | src/common/utils/date.utils.ts:95-113 | for a row stored before the validator, on a window past midnight the decision is taken at the minute it opens |
| `Materialisation.Store.MaterializeMeal` | src/workers/system-default.worker.ts:1359-1450 | one tick: who is on vacation is the resolver's answer, exactly the other members let through by the reminder gate end up with a record beside those who had one, every new record is a system row of the job, and a lost tick adds none |
| `AuditCanon.SameStringifiesSame` | src/audit/audit.service.ts:58-80 | values equal up to key order at every depth have one canonical text |
| `AuditCanon.EscapesAsJson` | src/audit/audit.service.ts:58-80 | strings are escaped as section 7 of RFC 8259 lists it |
| `AuditUnique.TextDeterminesValue` | src/audit/audit.service.ts:58-80 | stored values have the same canonical text exactly when they are equal up to key order |
| `AuditUnique.RoundTripKeepsTextIff` | src/audit/audit.service.ts:58-80 | metadata read back has its signed text exactly when it held no undefined member and no date object |
| `AuditTrail.UntouchedRowVerifiesIff` | src/audit/audit.service.ts:82-104 | an untouched row verifies exactly when its metadata was clean |
| `AuditBars.NoTextEndsAfterBar` | src/audit/audit.service.ts:58-80 | a bar in canonical text lies inside a string, so no canonical text ends with a bar and another one |
| `AuditTrail.ReportsExactlyIff` | src/audit/audit.service.ts:82-104 | for a signed row whose columns are altered in any way, its hash kept or cleared: it is reported exactly when it has a hash and a signed column or the metadata changed, if and only if the target columns hold no bar, the request id hides no action, and the metadata was clean |
| `AuditTrail.AddressChangeIsUnreported` | src/audit/audit.service.ts:82-133 | changing the address a row was written from is never reported |
| `AuditTrail.ClearedHashIsUnreported` | src/audit/audit.service.ts:220-231 | a row whose hash was set to null or to an empty text is never reported, whatever else changed |
| `AuditTrail.RequestIdHidesAction` | src/common/middleware/request-id.middleware.ts:17 | a request id made of an action's name, a bar and more, as the caller's header may hold, lets an update be read as a creation |
| `AuditTrail.VerifyIntegrity` | src/audit/audit.service.ts:191-248 | checked is signed plus unsigned, signed is valid plus mismatched, and the mismatched ids are exactly the invalid signed rows |
| `AuditTrail.UntouchedPageIsClean` | src/audit/audit.service.ts:220-248 | a page of untouched rows with clean metadata reports nothing |
| `AuditBuffer.NothingIsLost` | src/audit/audit.service.ts:106-180 | in every interleaving of writes, flushes and answered inserts each row is exactly once stored, dropped by its own insert, in flight or waiting, and waiting rows have a flush coming |
| `AuditBuffer.OrderKept` | src/audit/audit.service.ts:158-180 | rows are stored in the order written while no two inserts are in flight |
| `AuditBuffer.OverlapReorders` | src/audit/audit.service.ts:158-180 | two overlapping inserts can store two rows the other way round |
| `AuditBuffer.AuditLog.Log` | src/audit/audit.service.ts:106-155 | a row starts its own insert, waits with the timer set, or fills the buffer and starts a flush |
| `AuditBuffer.AuditLog.FlushBuffer` | src/audit/audit.service.ts:158-166 | the buffer is emptied and handed to an insert that is left pending |
| `AuditBuffer.AuditLog.Continue` | src/audit/audit.service.ts:167-180 | an answered batch is stored, or falls back to one insert a row |
| `AuditBuffer.RowsGoOut` | src/audit/audit.service.ts:106-166 | a row starts its own insert, waits with the timer set, or fills the buffer, which then becomes one insert |
| `AuditBuffer.BatchIsAnswered` | src/audit/audit.service.ts:167-180 | an accepted batch is stored whole; of a refused one each row is tried, and stored or dropped by its own answer, in order |
| `QrPayload.B64UrlRoundTrip` | src/common/utils/qr-payload.util.ts:29-40 | unpadded base64url decodes to the same bytes for every length |
| `QrPayload.B64UrlIsStandard` | src/common/utils/qr-payload.util.ts:29-34 | the text is base64url of section 5 of RFC 4648 without padding: four thirds as long, each character the letter, digit, dash or underscore of its six bits |
| `QrPayload.EncodedSplits` | src/common/utils/qr-payload.util.ts:47-50 | the encoded text splits into exactly the prefix, the body and the signature |
| `QrPayload.DecodeEncode` | src/common/utils/qr-payload.util.ts:63-84 | decoding gives the payload back exactly when its token is not empty and the two secrets sign alike |
| `QrPayload.AcceptedIsSigned` | src/common/utils/qr-payload.util.ts:63-84 | whatever is accepted is a body with its own signature, and yields that body's payload |

## Left out

- OneLiveRowPerFamily: the single live row holds with the rotation grace window switched off; `GraceAllowsTwoLiveRows` and `GraceRevivesEndedFamily` say what the window allows.
- TokenFamilies requests are atomic: the source takes no lock inside one, so interleavings inside a single refresh are not modelled.
- FinalisedFiguresAreFrozen: each write's lock check and update are one step, because the source does them without a transaction; guest charges are not claimed frozen, because guest writes do not go through these writers.
- AtMostOnceAndSameResponse: within the key's lifetime, and with a database whose failed create leaves no row.
- CacheIsCoherent: a bump that fails promises nothing: the write stays owed to nobody.
- SweepsAreSafe: within the once-key's lifetime; a worker that stops between winning its key and inserting leaves the meal as it was.
- SnapshotMissesTheGaps: one guest policy throughout; reopened periods are treated in `OpeningsMissCorrections`, a policy changed between finalisations is not, nor a period finalised before an earlier one.
- GuardedRunIsLegal: guest bookings have no lock, so finalised days keeping their guest charges is a hypothesis on guest edits.
- GetBillingSummary: names, contact fields, last activity, the average bill and the order of the lists are not modelled.
- ReportsExactlyIff: the keyed hash is assumed to tell texts apart; cryptographic strength is outside the model, and so are other texts put in the hash's place. An absent column and an empty one are signed alike and count as unchanged.
- AuditCanon sorts by character, the source by UTF-16 code unit; texts with unpaired surrogates are outside the model.
- BillingCycle dates have no year limits, so the remapping of years 0 to 99 by the platform's date constructor is not modelled.
- QrPayload leaves the decoding of malformed base64 to a parameter; no result depends on it.
- VacationSweep pairs a user with a group directly; the source joins the two ids with a colon.
- Period lists, audit log entries, notices, pushes, realtime events and cache deletions have no property of their own here.
- Preference validation and pricing, guest booking, the retention purge and schedule publishing are inputs to this model.
