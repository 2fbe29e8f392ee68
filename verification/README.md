# Rental shop backend: a Dafny model of its stateful core

The repository is the backend of a clothes-rental shop. This project models the parts of it in which mistakes are
expensive and hard to see: money recorded exactly once, sessions, periodic work shared by replicas, reminders, stock
given to orders, prices, the published API documents and the condition of physical items. `dafny verify dfyconfig.toml`
checks all of it.

Each component is modelled in the form it has in the repository. Tables and objects that are updated in place are
classes whose methods are proved against functions on values; loops are methods with invariants; pure code is functions.
What a component promises over whole runs is proved about those functions.

| files | component |
|---|---|
| `IdempotencyTable`, `ManualPayments`, `StoredPayments`, `PaymentReplay`, `PaymentCommands`, `PaymentProgress` | The claim protocol of idempotent commands, statement by statement, and the payments recorded under it. `ManualPayments` is a transition system of any number of calls: each database statement is one step, the payment transaction is one atomic step whose commit may be invisible to its caller, calls may stop anywhere and the clock may advance between any two steps |
| `ClaimStamps`, `StampWitness` | The stamps that claims store, over whole runs of `ManualPayments`: when one precedes the expiry it replaces, and a run that ends so |
| `Json`, `JsText`, `JsNumbers`, `StableJson`, `JsonRecords`, `CommandFingerprints` | The canonical JSON text of a request, down to escape sequences and number layouts, and what equal texts mean |
| `SchedulerLease` | The owner-token lease of periodic work: one replica against arbitrary interference, and behaviours of many replicas |
| `RefreshTokens`, `TokenLineage` | Rotation, reuse detection, logout, password change and purge of refresh tokens |
| `Reminders` | The paged refresh that reconciles reminders with orders |
| `RentalAccessories`, `RentalSelection`, `RentalAllocation`, `RentalQuote`, `BookableOrders`, `StaffAllocation` | Web selections, quotes, and the choice of physical items for web and staff orders |
| `RentalPricing` | The cycle tariff in whole cents |
| `PaymentState`, `PaymentLedger`, `LedgerRuns` | Payments of one order, refund cover, voids, the receipts of confirmation and settlement, and the cached statuses |
| `OpenApiFilter` | The part of an OpenAPI document that belongs to one surface |
| `InventoryStatus` | Status changes of physical items, what staff are shown, and the recorded history |

Where the code differs from what it or its comments suggest, the model follows the code:

- The candidate query of the reminders calls its workset lossless. It is not for RETURNED and DRAFT orders, nor for an
  order due back in the part of a local day of more than 24 hours that lies more than a day ahead.
  `Reminders.WorksetIsLossless` states exactly what is lost.
- The stored stamp of a claim is read before the statement that grants it, so it may precede the expiry of the record it
  replaces. `ClaimStamps.StampPrecedesExpiryExactlyWhen` states exactly when; retention windows are disjoint by the clock
  at the granting statement.
- A call whose commit took effect unseen and that tries its transaction again fails with a lost claim, although it has
  paid. A later call with the same key and command is answered with that payment.
- A payout with purpose OTHER is not held against any balance, so the rental balance can become negative; from then on
  other payments of the order cannot be voided. A settlement evens the balance out again.
- The error response is added to every API document without the schemas it refers to. `ErrorResDto` of this repository
  refers to none, so its documents are always self-contained; a reference added to it later would dangle wherever no
  path leads to the same schema.
- Items created together with a variant get no entry in the status history; their chain starts from AVAILABLE.

## Model

| member | source | states |
|---|---|---|
| ManualPayments.ExactlyOnePayment | src/modules/finance/infrastructure/prisma-finance.repository.ts:44-144 | In every reachable state of any number of concurrent calls, each completed record of a (shop, scope, key) has exactly one committed payment made under the claim it carries, and an incomplete record has none |
| ManualPayments.WindowsAreDisjoint | src/database/prisma/idempotency.ts:48-119 | Of two payments under one key, the later one's claim was granted no earlier than the expiry of the earlier one's record, by the clock at the granting statement |
| ManualPayments.AnswersAgree | src/modules/finance/application/finance.service.ts:118-169 | Every successful answer, first or replayed, comes from a committed payment for that key and command; two successful answers under one key are equal and for the same command unless their payments lie in disjoint retention windows |
| ManualPayments.ReplayIsAlwaysAvailable | src/modules/finance/application/finance.service.ts:118-123 | No call ever ends with the unreadable-replay error: every body stored under this scope is one the recogniser accepts |
| ManualPayments.PaymentsArePermanent | src/modules/finance/infrastructure/prisma-finance.repository.ts:44-144 | No continuation of any run removes or changes a committed payment, whatever calls time out, retry or clean up |
| PaymentReplay.RetainedRecordStands | src/database/prisma/idempotency.ts:54-177 | In every continuation of any reachable state, with any calls, takeovers, retries and releases: while the clock is below the expiry of a completed record, the record is unchanged and no further payment is made under its key |
| PaymentReplay.LostResponseIsReplayed | src/database/prisma/idempotency.ts:54-91 | Every call submitted for the key and command of a retained record, at whatever later point and with whatever interleaving, can do nothing but read and finish with the stored result |
| PaymentReplay.RetryIsAnsweredWithPayment | src/modules/finance/application/finance.service.ts:99-123 | Stated from the payment: such a call, once finished, is answered with the result of that payment |
| PaymentReplay.LostCommitResponseIsHarmless | src/modules/finance/application/finance.service.ts:124-166 | After a commit whose response was lost, in every continuation, through the call's own retries and release and whatever others do, its claim never pays again; until the record expires it is unchanged and no other claim pays under its key |
| PaymentReplay.GrantPaysOnce | src/modules/finance/infrastructure/prisma-finance.repository.ts:44-144 | In every reachable state no claim has paid twice |
| PaymentCommands.AnswerIsAboutOwnCommand | src/modules/finance/application/finance.service.ts:96-170 | In every run in which calls submit the fingerprint of their command and commit what it asks for: a successful answer, first or replayed, is the result of a committed payment under the caller's key with the caller's own order, direction, purpose, method, amount and, where given, instant |
| PaymentCommands.FingerprintsTellApart | src/modules/finance/application/finance.service.ts:290-311 | Two commands have one fingerprint text if and only if they are the same command |
| ManualPayments.StepKeepsInv | src/database/prisma/idempotency.ts:48-177 | Every single statement of every caller keeps the invariant that ties rows, issued claim ids, ledger and answers together |
| PaymentProgress.UndisturbedCallPays | src/modules/finance/application/finance.service.ts:99-170 | From any state: a call whose key is free, expired, or held by a stale claim of its own command ends, if its statements are undisturbed, with exactly one more payment, its result as the answer, and the completed record under its key |
| PaymentProgress.StaleClaimIsTakenOver | src/database/prisma/idempotency.ts:77-116 | A call that reads an incomplete row of its own command, at least one processing lease old, executes after its next statement, under a new id that fences the old one |
| PaymentProgress.YoungClaimIsLeftAlone | src/database/prisma/idempotency.ts:77-92 | A younger incomplete row of the same command is answered with `in progress` and nothing changes |
| PaymentProgress.OtherCommandIsRefused | src/database/prisma/idempotency.ts:77-87 | A retained row of another command is answered with the key conflict and nothing changes |
| PaymentProgress.ClaimHolderPays | src/modules/finance/infrastructure/prisma-finance.repository.ts:44-144 | A call whose row still carries its claim pays with its next successful transaction |
| PaymentProgress.FailedCallFreesKey | src/modules/finance/application/finance.service.ts:142-167 | A transaction that did not commit and a delivered release leave the key free, the payments unchanged, and the error of the transaction as the answer |
| PaymentProgress.LostAttemptIsRepeated | src/database/prisma/idempotency.ts:77-87 | A row that vanished before it was read costs the call one of three attempts and changes nothing |
| PaymentProgress.UnseenCommitLosesClaim | src/modules/finance/infrastructure/prisma-finance.repository.ts:44-50 | A call whose commit took effect unseen fails with a lost claim when it tries again, although it has paid, and its release leaves the record alone |
| IdempotencyTable.IdempotencyStore.ClaimIdempotencyRecord | src/database/prisma/idempotency.ts:48-119 | With arbitrary statements of others between its own: CLAIMED means the row now carries the returned id, the caller's hash and expiry and no completion; COMPLETED and HASH_MISMATCH describe the row read; IN_PROGRESS means a young claim of the same command, or three attempts that were all disturbed. Undisturbed, the columns of the row found decide: none or expired is replaced, another hash refused, a result returned, a young claim left alone, and a claim at least one processing lease old taken over under a new id |
| IdempotencyTable.IdempotencyStore.LockIdempotencyClaim | src/database/prisma/idempotency.ts:125-137 | Succeeds exactly when the row is there, carries the id and has no completion |
| IdempotencyTable.IdempotencyStore.CompleteIdempotencyClaim | src/database/prisma/idempotency.ts:140-164 | Succeeds exactly for the current owner of an incomplete row, and changes nothing otherwise |
| IdempotencyTable.IdempotencyStore.ReleaseIdempotencyClaim | src/database/prisma/idempotency.ts:167-177 | Removes the row only for the current owner while it is incomplete |
| IdempotencyTable.OneOwner | src/database/prisma/idempotency.ts:125-177 | At most one id can own a row: lock, completion and release by any other id leave the table as it is |
| IdempotencyTable.CompletedRowOutlivesStatements | src/database/prisma/idempotency.ts:54-177 | Whatever statement runs, a completed row is removed or rewritten only by the deletion of expired rows, at or after its expiry |
| IdempotencyTable.LostClaimStaysLostForever | src/database/prisma/idempotency.ts:94-116 | Once an id has lost its row, no sequence of statements that does not issue that id again gives the row back |
| IdempotencyTable.TakeoverWaitsForLease | src/database/prisma/idempotency.ts:92-108 | A live incomplete claim changes hands only by the recovery update, for the same request hash, at least one processing lease after it was stamped |
| ClaimStamps.StampPrecedesExpiryExactlyWhen | src/database/prisma/idempotency.ts:54-108 | Of two payments under one key in any run, the stored stamp of the later claim precedes the expiry of the earlier record if and only if the granting attempt read its clock before that expiry and another call deleted the record while the attempt was under way |
| ClaimStamps.StampRespectsExpiry | src/database/prisma/idempotency.ts:54-108 | In any run, an attempt begun at or after the expiry, or with no other call deleting on the key while it is under way, stores a stamp no earlier than the expiry it replaces |
| StampWitness.ClaimStampMayPrecedeExpiry | src/database/prisma/idempotency.ts:54-69 | A run of three calls from the empty table, for any key, command and payments, at whose end the stamp of the later claim precedes the expiry of the earlier record |
| StoredPayments.StoredResultRoundTrip | src/modules/finance/domain/manual-payment-idempotency.ts:38-90 | Whatever snapshot is written is recognised as one and read back as the result given to the first caller |
| StoredPayments.RecognisedExactlyWhen | src/modules/finance/domain/manual-payment-idempotency.ts:65-90 | A stored body is recognised if and only if it is an object of this version and kind whose result reads as the columns of some payment |
| StoredPayments.StoredResultIsFaithful | src/modules/finance/domain/manual-payment-idempotency.ts:38-63 | Payments that leave the same stored snapshot agree in every public column |
| StableJson.EqualPrintsMeanEqualJson | src/modules/rentals/application/web-rental-order.service.ts:71-83 | For values with finite numbers and no undefined inside arrays, the canonical texts are equal if and only if the values are the same JSON up to field order, undefined fields and the sign of zero |
| StableJson.EqualPrintsInGeneral | src/modules/rentals/application/web-rental-order.service.ts:71-83 | For all values: texts are equal if and only if the values are the same JSON after non-finite numbers become null and `[undefined]` becomes `[]` |
| StableJson.ForgottenDifferences | src/modules/rentals/application/web-rental-order.service.ts:71-83 | The two kinds of distinct values that do print alike |
| StableJson.PrefixFree | src/modules/rentals/application/web-rental-order.service.ts:71-83 | No printed value is a proper prefix of another one when what follows starts with a delimiter: equal concatenations give equal values and equal rests |
| StableJson.MembersPrefixFree | src/modules/rentals/application/web-rental-order.service.ts:78-82 | Joined members of two objects, over any two key lists, determine the key lists and the values under them |
| StableJson.SamePrint | src/modules/rentals/application/web-rental-order.service.ts:71-83 | The canonical text depends on nothing but the JSON value: field order and undefined fields do not show |
| StableJson.AscendingIsUnique | src/modules/rentals/application/web-rental-order.service.ts:78-80 | A set of keys has one ascending arrangement, so the printed order is independent of the sorting algorithm |
| StableJson.FixedOrderIsFaithful | src/modules/finance/application/finance.service.ts:313-321 | For a printer that lists keys in any one fixed arrangement, equal texts still mean equal objects and conversely |
| JsText.QuotePrefixFree | src/modules/rentals/application/web-rental-order.service.ts:72-81 | A text quoted by JSON.stringify (section 7 of RFC 8259, lone surrogates escaped) is recovered exactly, together with what follows it |
| JsText.HeadPrefixFree | src/modules/rentals/application/web-rental-order.service.ts:72-81 | No escape sequence starts like another: equal texts come from the same code units read in one step |
| JsText.EscapedIsClean | src/modules/rentals/application/web-rental-order.service.ts:72-81 | Whatever the text, what is written has no control characters and no lone surrogate |
| JsNumbers.NumberRoundTrip | src/modules/rentals/application/web-rental-order.service.ts:72 | Sign, digits and position of the point of a finite non-zero double are recovered from any of the four layouts of its text |
| JsNumbers.PrintNumberInjective | src/modules/rentals/application/web-rental-order.service.ts:72 | Two finite doubles print alike if and only if they are equal, with both zeros alike |
| JsNumbers.LayoutByMagnitude | src/modules/rentals/application/web-rental-order.service.ts:72 | An exponent is written exactly below 1e-6 and from 1e21 on, and otherwise a point exactly where the digits need one |
| CommandFingerprints.WebFingerprintIsFaithful | src/modules/rentals/application/web-rental-order.service.ts:326-363 | The hashed texts of two web orders are equal if and only if the owners and the normalised orders are equal, where an absent role means PAID, an absent collateral means CASH and absent and null optional fields coincide |
| CommandFingerprints.AbsentCollateralIsCash | src/modules/rentals/application/web-rental-order.service.ts:351-354 | An order without collateral has the identity of exactly the orders with a collateral of CASH, or of no method, and no document |
| CommandFingerprints.AbsentMethodIsCash | src/modules/rentals/application/web-rental-order.service.ts:351-354 | A collateral without a method has the identity of exactly that of CASH with the same document |
| CommandFingerprints.AbsentRoleIsPaid | src/modules/rentals/application/web-rental-order.service.ts:337-345 | A line without a role has the identity of the line with the role PAID, and not of a free accessory |
| CommandFingerprints.EmptyRewardIsNone | src/modules/rentals/application/web-rental-order.service.ts:355 | An order without a reward has the identity of exactly that with an empty reward id |
| CommandFingerprints.EmptyAccountIsGuest | src/modules/rentals/application/web-rental-order.service.ts:360-362 | Two owners are the same exactly when they are equal or both without an account id |
| CommandFingerprints.PaymentFingerprintIsFaithful | src/modules/finance/application/finance.service.ts:290-321 | The hashed texts of two manual payments are equal if and only if the commands are, whatever fixed order the locale gives the keys |
| SchedulerLease.Coordinator.RunIfOwner | src/common/scheduling/prisma-scheduler-job-lease.coordinator.ts:38-112 | For any interference, any renewals during the work, and statements that fail with or without having taken effect: the result is `acquired` only if the run owned its row at every moment and its release was answered; otherwise the error is the one that comes first; the local guard is restored; a run that is not admitted changes no row |
| SchedulerLease.SuccessOwnsThroughout | src/common/scheduling/prisma-scheduler-job-lease.coordinator.ts:38-155 | In every behaviour of many replicas a successful run owned its row in every state from acquisition to release, whatever the timing |
| SchedulerLease.SuccessfulRunsNeverOverlap | src/common/scheduling/prisma-scheduler-job-lease.coordinator.ts:38-112 | Any two successful runs of one job key are ordered: one has released before the other acquired |
| SchedulerLease.TakeoverNotBeforeExpiry | src/common/scheduling/prisma-scheduler-job-lease.coordinator.ts:114-155 | A row leaves its owner only by the owner's release or by an acquisition at or after the expiry that owner wrote last |
| SchedulerLease.LostStaysLost | src/common/scheduling/prisma-scheduler-job-lease.coordinator.ts:114-155 | A run that has lost its row never owns it again |
| SchedulerLease.LocalGuardAdmitsOne | src/common/scheduling/prisma-scheduler-job-lease.coordinator.ts:43-47 | In every behaviour a replica has at most one unfinished run of a job key |
| SchedulerLease.OwnedAtEndOwnedThroughout | src/common/scheduling/prisma-scheduler-job-lease.coordinator.ts:92-96 | Rows are never handed back, so a release that finds its own row proves ownership at every earlier moment |
| SchedulerLease.ExpiredLeaseIsAcquired | src/common/scheduling/prisma-scheduler-job-lease.coordinator.ts:114-134 | In every behaviour, a seen acquisition takes a row that is absent or whose expiry the clock has reached, and leaves any other as it is; it then works and owns the row until clock plus lease time |
| SchedulerLease.ExpiredKeyCanRun | src/common/scheduling/prisma-scheduler-job-lease.coordinator.ts:38-112 | In every behaviour, once the lease of a key is free or expired, a replica without a run of its own on it can run the job to success and leaves the key free |
| SchedulerLease.OwnerRenews | src/common/scheduling/prisma-scheduler-job-lease.coordinator.ts:57-71 | A seen renewal of an owner extends its row and is no failure |
| SchedulerLease.LeaseTable.TryAcquire | src/common/scheduling/prisma-scheduler-job-lease.coordinator.ts:114-134 | Acquires exactly when the row is absent or expired, and writes the new owner and expiry only then |
| SchedulerLease.LeaseTable.TryRenew | src/common/scheduling/prisma-scheduler-job-lease.coordinator.ts:136-146 | Extends exactly the caller's own row |
| SchedulerLease.LeaseTable.TryRelease | src/common/scheduling/prisma-scheduler-job-lease.coordinator.ts:148-155 | Deletes exactly the caller's own row |
| TokenLineage.TokensFormOneChain | src/modules/auth/infrastructure/prisma-auth.repository.ts:42-153 | After any run, the tokens of a family are one parent chain from a single root, its length is one plus the successful rotations, and only the last token may be unrevoked |
| TokenLineage.OneChildPerToken | src/modules/auth/infrastructure/prisma-auth.repository.ts:107-122 | In any run, no two tokens have the same parent |
| TokenLineage.ReuseEndsFamily | src/modules/auth/infrastructure/prisma-auth.repository.ts:79-93 | After any run, presenting an unexpired ROTATED token of an unrevoked family is answered REUSED, revokes the family and its live tokens, and changes nothing else |
| TokenLineage.RotatesExactlyWhen | src/modules/auth/infrastructure/prisma-auth.repository.ts:77-126 | After any run, a token is exchanged if and only if it is the unrevoked end of its lineage, unexpired, of an unrevoked family, of an active user and of an active member of that user and shop; its replacement then ends the lineage |
| TokenLineage.RevocationIsFinal | src/modules/auth/infrastructure/prisma-auth.repository.ts:79-187 | After reuse, a password change of the owner or the logout of the current token, no later rotation in that family ever succeeds |
| TokenLineage.ClosedForever | src/modules/auth/infrastructure/prisma-auth.repository.ts:77-129 | The number of successful rotations of a family without an exchangeable token never grows again |
| TokenLineage.PurgeIsSafe | src/modules/auth-cleanup/infrastructure/prisma-auth-cleanup.repository.ts:50-70 | With a cutoff not after now, no purged token could still rotate, every remaining token keeps its family, and tokens of other families are untouched |
| RefreshTokens.RefreshTokenStore.RotateRefreshToken | src/modules/auth/infrastructure/prisma-auth.repository.ts:42-134 | Exactly when it rotates, detects reuse, rejects or reports a conflict, on the columns of token, family, user and member, with the new rows of each case |
| RefreshTokens.RefreshTokenStore.RevokeRefreshToken | src/modules/auth/infrastructure/prisma-auth.repository.ts:155-160 | Revokes at most the one live token with that hash, user and member |
| RefreshTokens.RefreshTokenStore.UpdatePasswordAndRevokeSessions | src/modules/auth/infrastructure/prisma-auth.repository.ts:174-187 | Revokes every unrevoked family and token of the user and no other row |
| RefreshTokens.RefreshTokenStore.PurgeRefreshFamilies | src/modules/auth-cleanup/infrastructure/prisma-auth-cleanup.repository.ts:50-70 | Deletes exactly a batch of the oldest eligible, unlocked families, full unless they run out, and their tokens |
| RefreshTokens.PurgeableExactlyWhen | src/modules/auth-cleanup/infrastructure/prisma-auth-cleanup.repository.ts:54-60 | A family is purgeable if and only if its reuse, else its revocation, else its creation, and of each token the revocation or else the expiry, lie at or before the cutoff |
| RefreshTokens.PurgesOldestFirst | src/modules/auth-cleanup/infrastructure/prisma-auth-cleanup.repository.ts:61-63 | No unlocked purgeable family left out of a batch ended before one in it |
| RefreshTokens.RefreshTokenStore.PurgeBatches | src/modules/auth-cleanup/application/auth-cleanup.service.ts:101-118 | On quiescent data the loop ends with no eligible family left, returns exactly how many were eligible and makes no more than the needed number of batches |
| Reminders.WorksetIsLossless | src/modules/reminders/infrastructure/prisma-reminder.repository.ts:26-52 | Exactly which orders with a reminder due the candidate query does not read |
| Reminders.WorksetCoversOrdinaryDays | src/modules/reminders/infrastructure/prisma-reminder.repository.ts:26-52 | On a local day of at most 24 hours, every RESERVED, CONFIRMED, ACTIVE or COMPLETED order with a reminder due is read |
| Reminders.LongDayLosesAReturn | src/modules/reminders/infrastructure/prisma-reminder.repository.ts:32-35 | On a 25-hour day an order due back in the last hour is classified but not read |
| Reminders.ReturnedOrderIsNotRead | src/modules/reminders/application/reminder.service.ts:202-214 | A returned order that owes money is classified as PAYMENT_DUE but never read |
| Reminders.ReminderService.CandidatePage | src/modules/reminders/infrastructure/prisma-reminder.repository.ts:21-88 | The least candidates behind the cursor in ascending order, with a next cursor exactly when more remain |
| Reminders.ReminderService.RefreshShopOwned | src/modules/reminders/application/reminder.service.ts:92-235 | The paging loop ends and visits each candidate once in ascending order; a completed refresh reconciles the table, an interrupted one has written due rows only and resolved nothing |
| Reminders.CandidatesAreReminded | src/modules/reminders/infrastructure/prisma-reminder.repository.ts:26-52 | Nothing is read in vain: every candidate is classified with at least one reminder |
| Reminders.PickupRows | src/modules/reminders/application/reminder.service.ts:148-161 | After a completed refresh the order has its PICKUP_TODAY row of the day, with content, priority and instant, exactly when it is reserved or confirmed and starts today |
| Reminders.ReturnTodayRows | src/modules/reminders/application/reminder.service.ts:162-174 | The same for RETURN_TODAY: out, due back today, and within a day or a candidate for another reason |
| Reminders.ReturnSoonRows | src/modules/reminders/application/reminder.service.ts:175-188 | The same for RETURN_SOON: out, due back within a day but not today |
| Reminders.OverdueRows | src/modules/reminders/application/reminder.service.ts:189-201 | The same for OVERDUE: out and due back before now |
| Reminders.PaymentRows | src/modules/reminders/application/reminder.service.ts:202-214 | The same for PAYMENT_DUE: not paid, and reserved, confirmed, active or completed |
| Reminders.DepositRows | src/modules/reminders/application/reminder.service.ts:215-229 | The same for DEPOSIT_DUE: reserved or confirmed, with a required deposit that is not fully held |
| Reminders.ReturnKindsExclude | src/modules/reminders/application/reminder.service.ts:162-188 | An order is never reminded of as due today and as due soon, and always as one of them when it is due back within a day |
| Reminders.RefreshReconciles | src/modules/reminders/application/reminder.service.ts:134-235 | After a refresh every due key has a row, every pending row of a managed kind is due today, no dismissed or resolved row is pending again, other shops are untouched |
| Reminders.SecondRefreshChangesNothing | src/modules/reminders/infrastructure/prisma-reminder.repository.ts:90-124 | A second refresh at the same instant changes no row |
| Reminders.InterruptionIsRecovered | src/modules/reminders/application/reminder.service.ts:134-235 | A refresh after an interrupted one ends in the same table as an undisturbed one |
| Reminders.InterruptedRefreshResolvesNothing | src/modules/reminders/application/reminder.service.ts:117-235 | A refresh that lost its lease keeps the status and processing time of every old row and adds only pending rows that are due |
| Reminders.DismissalSurvivesRefresh | src/modules/reminders/infrastructure/prisma-reminder.repository.ts:90-102 | A dismissed reminder stays dismissed through a refresh |
| RentalQuote.QuoteAgreesWithBooking | src/modules/rentals/application/web-rental-order.service.ts:180-215 | On one snapshot of stock and without a selection failure, every quoted line is available if and only if the greedy allocation succeeds, and then each line gets exactly its quantity of its own variant's items and no item is in two lines |
| RentalQuote.AvailableQuoteMeansBookable | src/modules/rentals/application/web-rental-order.service.ts:168-215 | For every request whatever: on one snapshot of stock the quote says available if and only if the booking of the same request finds its items |
| BookableOrders.BookableExactlyWhen | src/modules/rentals/application/web-rental-order.service.ts:168-215 | On one snapshot of stock a request can be booked if and only if each line has a positive quantity, an offered variant of its own product and a known role, at most 50 units are asked for, at least one of them paid and no more free than paid, free ones only where allowed, and no variant for more units than it has items |
| BookableOrders.QuotableExactlyWhen | src/modules/rentals/application/web-rental-evaluation.service.ts:103-112 | A quote is given if and only if the same checks hold but for stock, and each line of a wrong product comes after a line whose variant is missing |
| BookableOrders.LinesShowStock | src/modules/rentals/application/web-rental-selection.ts:126-163 | Each line shows the merged quantity of its variant and role, the product and stock of its variant, and whether that covers all lines of the variant; a line without a variant is not rentable |
| RentalQuote.CalculateQuote | src/modules/rentals/application/web-rental-evaluation.service.ts:103-143 | A quote is given exactly for requests that pass the checks, or fail only by a variant that is not available; it says available exactly when there is no failure and every line is; any other request is refused with the error of its first obstacle |
| RentalQuote.BookLines | src/modules/rentals/application/web-rental-order.service.ts:168-215 | Lines are chosen exactly when the request passes every check, none of its variants is missing and the greedy loop finds enough; on stock listed once the chosen items fulfil the quoted lines |
| RentalQuote.QuoteAvailable | src/modules/rentals/application/web-rental-evaluation.service.ts:113-143 | The flag is true exactly when there is no failure and every line is available |
| RentalQuote.MergedAllowanceIsTheSame | src/modules/rentals/application/web-rental-selection.ts:105-169 | The merged demands are granted, or refused, the same accessories as the lines the customer sent |
| RentalAllocation.GreedySucceedsIffCovered | src/modules/rentals/application/web-rental-order.service.ts:180-215 | On one snapshot the loop succeeds if and only if no variant is asked for more than it has; each line is then the slice of its variant's inventory after the earlier lines on it |
| RentalAllocation.GreedyGivesOnce | src/modules/rentals/application/web-rental-order.service.ts:180-215 | For any demands: each line gets exactly its quantity of its own variant's items, none twice, none already taken |
| RentalAllocation.AllocateInventory | src/modules/rentals/application/web-rental-order.service.ts:180-215 | The filtering loop over the set of allocated ids computes the greedy choice, or the inventory conflict |
| StaffAllocation.StaffOrderGivesOnce | src/modules/rentals/application/rental-creation.service.ts:141-198 | Whatever the readers answered, an allocated staff order gives each line exactly its quantity of its own variant's items, the named ones where named, and no item twice |
| StaffAllocation.AllocateLines | src/modules/rentals/application/rental-creation.service.ts:141-198 | Lines are served in turn, each from what the earlier ones left; otherwise the error is that of the first line that cannot be served |
| StaffAllocation.ChooseItems | src/modules/rentals/application/rental-creation.service.ts:142-196 | Items or error of one line: unknown variant, role, forbidden accessory, rejected price, wrong count, conflict, duplicate, in this order |
| StaffAllocation.NamedItemsAreGiven | src/modules/rentals/application/rental-creation.service.ts:142-196 | The items named for a line are given to it if and only if variant, role, price and count are in order and they are distinct free items of the variant |
| StaffAllocation.AutomaticChoiceIsGreedy | src/modules/rentals/application/rental-creation.service.ts:165-192 | A line left to the system is given what the web's greedy loop gives the same demand, and can fail only by a conflict |
| RentalSelection.EvaluateWebRentalSelection | src/modules/rentals/application/web-rental-selection.ts:55-170 | The first unacceptable line decides failure or error; an acceptable request is refused for its accessories, or evaluated into merged demands, lines and the first issue |
| RentalSelection.MergeConserves | src/modules/rentals/application/web-rental-selection.ts:105-124 | For every set of (variant, role) keys, the merged quantities sum to what the lines asked for |
| RentalSelection.MergeOrder | src/modules/rentals/application/web-rental-selection.ts:105-114 | One group per (variant, role), each opened by the first request for it, in first-request order, and every request has a group |
| RentalSelection.GroupQuantity | src/modules/rentals/application/web-rental-selection.ts:105-114 | A group's quantity is the sum over all lines with its variant and role |
| RentalSelection.TotalDemandByVariant | src/modules/rentals/application/web-rental-selection.ts:117-123 | The total of a variant is what all its groups ask for, in either role |
| RentalSelection.BuildLines | src/modules/rentals/application/web-rental-selection.ts:124-169 | Demands and lines of all groups; sorting by index leaves them in first-request order; a missing variant is a failure unless an earlier issue was found |
| RentalSelection.ReadCandidates | src/modules/rentals/application/web-rental-selection.ts:65-83 | Candidates exactly for acceptable requests, otherwise the problem of the first line that has one |
| RentalSelection.CheckCandidates | src/modules/rentals/application/web-rental-selection.ts:96-103 | A forbidden free accessory is found whenever there is one, otherwise the failure is the first issue in request order |
| RentalAccessories.RentalAccessoryAllowance | src/modules/rentals/domain/rental-accessories.ts:36-75 | Granted exactly when all quantities and roles count, there is a paid unit and the free units do not exceed the paid ones; otherwise the first reason |
| RentalAccessories.SelectionKeyInjective | src/modules/rentals/domain/rental-accessories.ts:88-90 | The text key tells variant and role apart whatever characters the id contains |
| RentalPricing.ResolvedPriceIsTariff | src/modules/rentals/domain/rental-cycle-pricing.ts:38-87 | A resolved unit price is the day-by-day tariff in cents with the bulk renewal day from the threshold quantity on and the standard one below it, at the item's price, else the order's, else the shop's; the day counts add up and are not negative |
| RentalPricing.FirstFailureDecides | src/modules/rentals/domain/rental-cycle-pricing.ts:41-68 | The error is that of the first check that fails: duration, quantity, policy, overrides |
| RentalPricing.MoreUnitsNeverCostMore | src/modules/rentals/domain/rental-cycle-pricing.ts:62-72 | With a cycle price of at least the fee, a larger order never has a higher unit price |
| RentalPricing.ResolvesExactlyWhen | src/modules/rentals/domain/rental-cycle-pricing.ts:41-72 | A price is resolved if and only if duration, quantity, each policy field and every supplied override are valid and the tariff of the tier is within the limit; the price in force is the item's, else the order's, else the shop's |
| RentalPricing.ClosedFormIsTariff | src/modules/rentals/domain/rental-cycle-pricing.ts:62-72 | The division-based closed form equals the sum over days of a cycle price on days 1 modulo the cycle length and an additional-day fee on the others |
| RentalPricing.LongerNeverCostsLess | src/modules/rentals/domain/rental-cycle-pricing.ts:62-72 | At one tier the unit price never decreases as the duration grows |
| RentalPricing.SplitCost | src/modules/rentals/domain/rental-cycle-pricing.ts:66-72 | Two rentals cost more than one of the same days by either nothing or once the difference of cycle price and additional-day fee |
| RentalPricing.OneRentalNeverCostsMore | src/modules/rentals/domain/rental-cycle-pricing.ts:66-72 | One rental of D1+D2 days costs no more than rentals of D1 and D2 days if and only if the cycle price is at least the fee or the split starts no extra cycle |
| RentalPricing.BulkNeverCostsMore | src/modules/rentals/domain/rental-cycle-pricing.ts:62-72 | With a cycle price of at least the fee the bulk tier never costs more per unit than the standard tier |
| RentalPricing.SumIsExactInAnyOrder | src/modules/rentals/domain/rental-cycle-pricing.ts:100-102 | The sum of amounts succeeds exactly when all are well formed and the total is below the limit, is then exact, and does not depend on the order |
| RentalPricing.MultiplyIsRepeatedSum | src/modules/rentals/domain/rental-cycle-pricing.ts:90-98 | A line total is what its units would sum to one by one, with the same errors |
| LedgerRuns.DepositIsAlwaysCovered | src/modules/finance/infrastructure/prisma-finance.repository.ts:65-104 | In every state of every run of payments, voids, confirmation, settlement and changes of totals, the live deposit balance is not negative and the stored statuses are those of the live ledger |
| LedgerRuns.ConfirmationCollects | src/modules/rentals/infrastructure/rental-confirmation.ts:81-114 | Whatever was paid before, a confirmation leaves exactly the agreed collateral as the deposit held and the rental paid in full, or as overpaid as it was |
| LedgerRuns.SettlementBalances | src/modules/rentals/infrastructure/rental-settlement.lifecycle.ts:53-139 | Whatever was paid before, the receipts of a settlement leave no deposit held and the rental paid to the exact grand total |
| LedgerRuns.SettledOrderStaysClosed | src/modules/rentals/infrastructure/rental-settlement.lifecycle.ts:45-139 | In every run, from the settlement on, the order stays completed, its deposit balance stays zero and its rental balance between zero and the total |
| LedgerRuns.RentalBalanceAfterStep | src/modules/finance/infrastructure/prisma-finance.repository.ts:65-85 | From a covered state, a step takes the rental balance below zero if and only if it is a payout for other purposes above the balance while the order is neither cancelled, completed nor settled |
| LedgerRuns.PaymentCommitsExactlyWhen | src/modules/rentals/domain/rental-monetary.policy.ts:53-74 | The fate of any payment on status, settlement and balances: which are recorded, and the reason each other one is refused for |
| LedgerRuns.VoidCommitsExactlyWhen | src/modules/rentals/domain/rental-monetary.policy.ts:76-111 | A live payment can be voided if and only if it is no internal transfer and no lifecycle receipt, the order is unconfirmed, unsettled and open, and both balances cover it; otherwise the reason |
| LedgerRuns.ConfirmedPaymentsArePermanent | src/modules/rentals/domain/rental-monetary.policy.ts:76-111 | In every run, from the confirmation of the order on, no payment is voided or changed |
| LedgerRuns.ConfirmedStatuses | src/modules/finance/infrastructure/order-payment-state.ts:19-34 | A confirmed order is paid, and its deposit is held in full against the agreed collateral unless some was returned before |
| LedgerRuns.SettlementCash | src/modules/rentals/infrastructure/rental-settlement-fees.ts:122-126 | A settlement pays out exactly what was paid and held above the total, or collects exactly what is missing |
| LedgerRuns.RentalIsCoveredWithoutPayouts | src/modules/finance/application/finance.service.ts:79-95 | In every run without a payout for other purposes the rental balance is never negative |
| LedgerRuns.BookedIsSound | src/modules/rentals/infrastructure/rental-booking.ts:154-157 | The statuses that booking writes are those of an empty ledger, so a booked order starts covered |
| LedgerRuns.PayoutUncoversRental | src/modules/finance/application/finance.service.ts:87-95 | Until an order is cancelled, completed or settled, a payout for other purposes above the rental balance is accepted and takes that balance below zero |
| LedgerRuns.UncoveredLedgerVoids | src/modules/finance/infrastructure/prisma-finance.repository.ts:303-332 | Once the rental balance is negative, only payouts whose removal restores it can be voided |
| LedgerRuns.VoidCoversBoth | src/modules/finance/infrastructure/prisma-finance.repository.ts:185-191 | After a void both balances are not negative |
| LedgerRuns.VoidUndoesCreate | src/modules/finance/infrastructure/prisma-finance.repository.ts:146-194 | Voiding the payment just recorded restores the live ledger and both statuses |
| PaymentLedger.OrderLedger.CreatePayment | src/modules/finance/infrastructure/prisma-finance.repository.ts:44-104 | The row is added and the statuses recomputed exactly when no guard refuses; otherwise nothing changes |
| PaymentLedger.OrderLedger.VoidPayment | src/modules/finance/infrastructure/prisma-finance.repository.ts:146-194 | The live payment with that id is voided and the statuses recomputed exactly when the policy and the refund cover allow it |
| PaymentLedger.OrderLedger.RecomputeOrderPaymentState | src/modules/finance/infrastructure/order-payment-state.ts:6-35 | Whatever order the database lists the live payments in, the stored statuses become those of the live ledger, against the collateral recorded at confirmation once there is one and the required deposit before |
| PaymentLedger.OrderLedger.RentalLedger | src/modules/rentals/infrastructure/rental-ledger.ts:3-23 | The loop over the live payments gives the deposit held, never negative, and the rental paid |
| PaymentLedger.OrderLedger.RecordRentalReceipt | src/modules/finance/infrastructure/rental-receipt.transaction.ts:19-41 | A receipt of a positive amount adds one row, any other none |
| PaymentLedger.OrderLedger.ConfirmOrder | src/modules/rentals/infrastructure/rental-confirmation.ts:81-114 | Refused unless the order is reserved and no more deposit is held than agreed; otherwise the collateral, the receipts and the statuses are written |
| PaymentLedger.OrderLedger.SettleOrder | src/modules/rentals/infrastructure/rental-settlement.lifecycle.ts:45-139 | Refused unless the order is returned, unsettled and its total not negative; otherwise the five receipts, the statuses and the settlement are written |
| PaymentState.CalculateOrderPaymentState | src/modules/finance/domain/payment-state.ts:17-56 | The four running totals give the statuses defined on the bucket sums |
| PaymentState.StateIgnoresOrder | src/modules/finance/domain/payment-state.ts:17-56 | The statuses are the same for every listing order of the same entries |
| PaymentState.PaymentStatusMeaning | src/modules/finance/domain/payment-state.ts:37-42 | What each payment status says about a ledger of positive amounts with a covered rental balance, both ways |
| PaymentState.DepositStatusMeaning | src/modules/finance/domain/payment-state.ts:44-53 | What each deposit status says about a ledger of positive amounts with a covered deposit, both ways |
| PaymentState.StatusesInGeneral | src/modules/finance/domain/payment-state.ts:37-53 | Every status of any ledger of positive amounts, both ways, whatever the total, the required deposit and the balances |
| OpenApiFilter.CollectSchemas | src/common/swagger/openapi.ts:77-98 | The fixpoint loop ends on every finite document, cycles included, and collects exactly the names reachable from the roots |
| OpenApiFilter.FilterOpenApiDocument | src/common/swagger/openapi.ts:31-147 | Title and description of the configuration, paths with their matching operations only, tags in use in the order of first use, schemas that exist and are reachable plus the error response, security schemes in use and global security where authentication is included |
| OpenApiFilter.FilterPaths | src/common/swagger/openapi.ts:39-70 | Items with a matching operation stay, with their path-level parts and those operations only, and the tags are those of the kept operations |
| OpenApiFilter.OperationsBySurface | src/common/swagger/openapi.ts:22-70 | Each operation of the input is in the output, with its path and path-level parts, for exactly the surfaces its metadata names, and no path without operations is |
| OpenApiFilter.TagsAreThoseUsed | src/common/swagger/openapi.ts:48-52 | The tags are those of the kept operations, each once |
| OpenApiFilter.PathRefsAreThoseUsed | src/common/swagger/openapi.ts:77-82 | The roots of the schema search are the references of the kept operations and path-level parts |
| OpenApiFilter.SecurityIsThatUsed | src/common/swagger/openapi.ts:120-129 | A security scheme is used exactly when a kept operation names it |
| OpenApiFilter.OutputIsSelfContained | src/common/swagger/openapi.ts:77-110 | No reference to an existing schema is left dangling if and only if every existing schema that the error response of the input refers to is reachable from the kept paths, or is the error response itself |
| OpenApiFilter.PlainErrorLosesNothing | src/common/dto/response.dto.ts:14-22 | With an error response that refers to no schema, as this repository's, no filtered document has a dangling reference |
| OpenApiFilter.ErrorDetailIsLost | src/common/swagger/openapi.ts:107-109 | A schema that only the error response refers to is lost, on any surface whose paths refer to no schema |
| OpenApiFilter.FilteringTwiceIsFilteringOnce | src/common/swagger/openapi.ts:31-147 | Filtering the filtered document again changes nothing |
| InventoryStatus.HistoryAlwaysReplays | src/modules/catalog/infrastructure/inventory-commands.ts:69-200 | In every state of every run, each item's history is one contiguous chain that ends in its current status |
| InventoryStatus.HistoryIsAlwaysLawful | src/modules/catalog/domain/inventory-status.policy.ts:40-192 | The occupancy words never become a stored status, and every manual entry follows the transition table with the reason it needs |
| InventoryStatus.ShownIsAccepted | src/modules/catalog/infrastructure/inventory-queries.ts:139-146 | The update command accepts a target if and only if the list shows it and a required reason is given, whichever first allocation each of them reads |
| InventoryStatus.AcceptedIffAllowed | src/modules/catalog/domain/inventory-status.policy.ts:40-192 | Validation and the list of allowed transitions agree for every status, occupancy and reason |
| InventoryStatus.MovesExactly | src/modules/catalog/domain/inventory-status.policy.ts:152-191 | The moves of an item that is not occupied: all between the three statuses in service, damage from those, loss from AVAILABLE only, retirement from all but LOST, and the ways back |
| InventoryStatus.EveryStatusLeadsBack | src/modules/catalog/domain/inventory-status.policy.ts:152-191 | From every operational status at most two allowed moves lead back to AVAILABLE |
| InventoryStatus.DamagedComesBackThroughRepair | src/modules/catalog/domain/inventory-status.policy.ts:178-179 | On every route of allowed moves a damaged item leaves DAMAGED by repair or retirement |
| InventoryStatus.DamagedIsRepairedOrRetired | src/modules/catalog/infrastructure/inventory-commands.ts:99-151 | In any run a manual change takes a damaged item to repair or retirement and nowhere else |
| InventoryStatus.OccupancyRestricts | src/modules/catalog/domain/inventory-status.policy.ts:139-150 | A rental forbids every move, another blocking allocation all but the end of cleaning or repair |
| InventoryStatus.FirstObstacleDecides | src/modules/catalog/domain/inventory-status.policy.ts:40-130 | The error of a refused change is that of the first obstacle |
| InventoryStatus.BlankReasons | src/modules/catalog/domain/inventory-status.policy.ts:93-94 | A trimmed reason is empty exactly when the reason is absent or white space |
| InventoryStatus.OccupancyIsTrue | src/modules/catalog/infrastructure/inventory-queries.ts:14-52 | The occupancy derived from a first allocation by status is the true one, ties included |
| InventoryStatus.NoManualChangeDuringRental | src/modules/catalog/infrastructure/inventory-commands.ts:116-128 | While an item is rented out, no manual status change and no archiving commits |
| InventoryStatus.RentedStatusChangesOnlyByInspection | src/modules/catalog/infrastructure/rental-inventory.transaction.ts:18-54 | In any run the status of a rented item changes only by its return inspection |
| InventoryStatus.InventoryStore.UpdateInventoryStatus | src/modules/catalog/infrastructure/inventory-commands.ts:99-151 | New status, condition and notes with a history entry that names who changed it, or the reason why nothing changed, from a first blocking allocation |
| InventoryStatus.InventoryStore.ArchiveInventoryItem | src/modules/catalog/infrastructure/inventory-commands.ts:153-200 | Archives and deactivates with a history entry, under the default reason where none is given, exactly when the item exists and has no blocking allocation |
| InventoryStatus.InventoryStore.RecordRentalReturnInspection | src/modules/catalog/infrastructure/rental-inventory.transaction.ts:18-54 | The inspected status, one more rental and a history entry that continues from the old status |
| InventoryStatus.InventoryStore.AddInventoryItem | src/modules/catalog/infrastructure/inventory-commands.ts:69-97 | A new available item with its creation entry |
| InventoryStatus.InventoryStore.CreateVariantItems | src/modules/catalog/infrastructure/product-commands.ts:378-387 | Items created with a variant start available and leave no history entry |
| InventoryStatus.InventoryStore.FirstBlocking | src/modules/catalog/infrastructure/inventory-commands.ts:116-122 | An allocation that comes first by status among the item's blocking ones, or none when there are none |

## Left out

- Prisma, PostgreSQL, isolation levels and locking: tables with atomic statements and transactions, a transaction that
  may commit although its caller sees an error, serialization failures as an outcome, rows skipped by SKIP LOCKED as a
  parameter.
- The cascade from token families to tokens is assumed; the schema is not part of this model. The hash of a token is
  identified with the token.
- SHA-256, random ids and clocks: the hash is not modelled (equal fingerprint texts stand for equal hashes), new ids are
  assumed new, instants are parameters.
- IEEE doubles for money: amounts are whole cents, prices with more than two decimals are one malformed value.
- Real time zones and day names: day boundaries are parameters.
- The timer and promise scheduling of a lease run: renewals happen at any moment between acquisition and release.
- Rental booking, return and overlap persistence, and of confirmation and settlement everything but the money: item
  statuses, evidence, fee adjustments, the preview token, the agreed settlement type and the return of documents. In the
  runs of the payment ledger other modules may change an unsettled order's status, totals and required deposit.
- The claim, replay and release flow of web and staff orders around the same claim functions.
- Line pricing, its overrides and price snapshots; loyalty rewards, shipping and deposits of a quote.
- Reminder lists, searches and texts of notifications; the audit log, the outbox event and notifications of a payment.
- The web counterparts of the token tables, the other phases of the cleanup job and its lease checks.
- Catalog, member, cart, favourite, delivery, report and storefront endpoints, controllers, validation of transport
  objects, configuration and email.
- JsText.QuotePrefixFree: text is a sequence of UTF-16 code units; Unicode normalisation has no part in it.
- JsNumbers.NumberRoundTrip: a double is given by its shortest digits; how an engine finds them is not modelled.
- CommandFingerprints.PaymentFingerprintIsFaithful: the payment instant is its ISO text.
- PaymentCommands.AnswerIsAboutOwnCommand: the amount column is assumed to keep the amount as the command writes it, and
  a payment without an instant of its own may have any.
- StoredPayments.StoredResultRoundTrip: amount and payment instant are the texts the writer stores; the JSON column is
  assumed to return what was stored.
- RefreshTokens.RefreshTokenStore.PurgeBatches: quiescent data without locked rows, as the completeness claim needs.
- RentalQuote.QuoteAgreesWithBooking: quote and booking read the same stock, listed without repetition.
- RentalQuote.CalculateQuote: request limits, rental period, policy, reward and pricing errors that come before or after
  the selection; the same holds for RentalQuote.BookLines.
- StaffAllocation.AllocateLines: the checks that come first, among them that no variant and role appears twice.
- RentalPricing.ResolvedPriceIsTariff: policy fields that are not integers are not distinguished from other invalid ones.
- StaffAllocation.ChooseItems: whether the price of a line can be resolved is part of the line; which pricing error it is
  otherwise is not told apart.
- OpenApiFilter.FilterOpenApiDocument: a reference is what the text search of a part finds, given as a set of names; the
  order of keys in the schema object is not modelled.
- InventoryStatus.InventoryStore.UpdateInventoryStatus: allocations are ordered by status with ACTIVE first.
- InventoryStatus.InventoryStore.RecordRentalReturnInspection: the date of the last rental.
- InventoryStatus.InventoryStore.AddInventoryItem: location, SKU and barcode checks before the row is created.
