# The Notification delivery ledger and the SQL qualifier normalizer

Notification keeps every email delivery in a PostgreSQL ledger: intents, rendered snapshots,
deliveries, their attempts, the provider's receipts, retry decisions and the observations already
consumed. Six transactions change it: creating an intent, claiming due work, applying a dispatch
observation, an authoritative receipt or the end of an invitation, and requesting a manual retry.
Dispatch workers claim a delivery in one transaction, call the provider outside any transaction,
and record the outcome in another; they run side by side with everything else and may stop for
good between any two of these steps.

The project models that ledger and proves what holds of it over every run:

* `Records`, `Validation`, `Transactions`: the rows, the checks observations pass, and each
  transaction as a function of the tables that either commits or fails.
* `LedgerStore`: class `Ledger`, the same transactions carried out statement by statement on
  mutable tables, each proved to commit exactly what its function says or to restore every table.
* `Invariant`, `Preservation`, `Evolution`: what holds after every transaction, and how rows move.
* `System`, `Protocol`: any number of workers over one ledger, with a log of provider calls.
* `Returns`, `Refusals`: what a provider's return is taken to mean and why a transaction fails,
  read off the columns of its input and of the tables.
* `Guarantees`, `Observations`, `Receipts`, `Cancellations`, `Commutation`, `Evidence`, `Claims`,
  `Retries`, `Creates`, `Content`, `Paging`: the promises, stated over whole runs, and what each
  transaction writes, column by column. `Witnesses`: ledgers on which promises one might expect
  fail.
* `Identifiers`, `Framing`: the texts that identities and content digests are hashed from
  determine their parts.

Separately, `Normalizer`, `QualifierScan`, `CatalogText`, `CatalogAgreement` and `CatalogLimits`
model the scanner that removes schema qualifiers from catalog definitions, so that one definition
printed in two schemas compares equal.

Time is an unbounded number of milliseconds. Revisions are integers guarded, as in the program, by
the largest integer that survives JSON, 9007199254740991. The claim's `locked` parameter is the set
of rows other transactions hold, which the claiming query skips. `maxAttempts` may be anything from
1 to 10. A run starts from any ledger that satisfies the invariant and has no attempts and no
consumed events; the empty ledger is one.

Some statements that a reader might expect are not true of the program. The lemmas say what is
true instead and show an input:

* A bounce and a permanent failure do not commute: the failure may follow the bounce but never the
  other way round (`Commutation.AcceptanceAndDeliveryCommute`,
  `Witnesses.FailureMayFollowBounceOnly`).
* A replayed create is refused once its request has expired (`Creates.RacingCreatesLinearize`,
  `Witnesses.ExpiredReplayIsRefused`).
* A create under a free idempotency key and an unchanged release can still be aborted: a long
  enough address has a mask that the table refuses (`Creates.CreateDecides`,
  `Creates.MaskFitsExactlyWhen`, `Witnesses.LongAddressAborts`).
* One delivery can stop the queue: when the first due delivery cannot be claimed, the claim fails
  although another is due and could be claimed (`Claims.ClaimFailsExactlyWhen`,
  `Witnesses.FirstBlocksSecond`). A delivery further back that cannot be claimed stops nothing
  until it comes first.
* Two prints of one definition do not always normalize alike. `CatalogAgreement` says exactly when
  they do for every definition the scanner lexes as the server does, and `CatalogLimits` takes the
  shapes it lexes differently, with inputs and exact conditions.

## Model

| member | source | states |
|---|---|---|
| LedgerStore.Ledger.ClaimEvent | crates/notification/src/events.rs:570-608 | A new observation is recorded, the same one again is recognised, other content under its identity is a conflict. |
| LedgerStore.Ledger.UpdateAttempt | crates/notification/src/events.rs:610-654 | An attempt takes its observation only while it is dispatching; otherwise nothing changes. |
| LedgerStore.Ledger.FinalizeDelivery | crates/notification/src/events.rs:783-816 | Ends an attempting or accepted delivery at the revision that was read and below the limit, or changes nothing and says so. |
| LedgerStore.Ledger.ApplyDispatch | crates/notification/src/events.rs:103-339 | Commits exactly the specified tables, or fails with the specified error and leaves every table, the consumed event included, as it was. |
| LedgerStore.Ledger.RecordOutcome | crates/notification/src/events.rs:171-336 | Writes attempt, delivery and evidence for each of the four outcomes, and reports a taken unique key. |
| LedgerStore.Ledger.ApplyReceipt | crates/notification/src/events.rs:351-483 | A receipt concludes its delivery once; a known receipt with another digest, a stale delivery or a wrong run leaves every table unchanged. |
| LedgerStore.Ledger.RecordVerdict | crates/notification/src/events.rs:421-481 | Writes the receipt, the attempt and the delivered or failed row together. |
| LedgerStore.Ledger.ApplyLifecycle | crates/notification/src/events.rs:485-568 | Cancels all matching deliveries or none. |
| LedgerStore.Ledger.CancelMatching | crates/notification/src/events.rs:543-566 | The guarded update changes the same rows as the unguarded one, once the exhaustion check has passed. |
| LedgerStore.Ledger.Apply | crates/notification/src/events.rs:40-101 | Validates contract, source and payload before any table is touched. |
| LedgerStore.Ledger.SelectDue | crates/notification/src/runtime.rs:51-73 | Picks the first due row by next attempt and identity among those not locked, or finds that there is none. |
| LedgerStore.Ledger.ClaimOneDue | crates/notification/src/runtime.rs:45-186 | Claims that row with a new attempt, or fails and leaves every table as it was. |
| LedgerStore.Ledger.RequestManualRetry | crates/notification/src/repository.rs:339-469 | Schedules a retry now at the expected revision, replays an earlier answer, or changes nothing. |
| LedgerStore.Ledger.CreateIntent | crates/notification/src/public.rs:184-445 | Inserts release, snapshot, intent and delivery together, replays, or leaves every table as it was. |
| Transactions.FirstDueExists | crates/notification/src/runtime.rs:62-69 | Whenever something is due, some row comes first in the claim's order. |
| Transactions.ClaimIsDetermined | crates/notification/src/runtime.rs:62-69 | The order leaves the claim no choice: two claims of the same ledger give the same answer. |
| Validation.EveryReturnIsObservable | crates/notification/src/plugin.rs:476-549 | However a provider call returns, the worker's observation of it passes the applier's own validation and names the call's delivery, attempt, run and instance. |
| Returns.ReturnIsRecorded | crates/notification/src/plugin.rs:476-549 | For every return: it is recorded as an acceptance, a temporary, a permanent or an unclear failure exactly when it says so, where runtime failures, unknown errors and malformed responses are unclear; with the provider's own time, code, pause and receipt if the response is well formed, and the worker's otherwise. |
| Returns.ReturnsAreToldApart | crates/notification/src/plugin.rs:476-549 | Every return means exactly one of the four. |
| Returns.ResponseExactlyWhen | crates/notification/src/plugin.rs:1161-1208 | The worker takes a response as well formed exactly when it is from its instance, with a time, a failure of its own kind unless it is an acceptance, a pause of at most a day for a temporary failure only, and a receipt for an acceptance only. |
| Returns.BoundedExactlyWhen | crates/notification/src/plugin.rs:1204-1208 | A text is bounded and not blank exactly when it has a character outside the 25 that are white space. |
| Returns.DigestExactlyWhen | crates/notification/src/events.rs:944-958 | A digest is `sha256:` and 64 lower-case hexadecimal digits. |
| Returns.InstanceExactlyWhen | crates/notification/src/plugin.rs:1631-1637 | An instance key has 1 to 160 ASCII letters, digits, dots, underscores, dashes and slashes. |
| Refusals.MalformedIsRefused | crates/notification/src/events.rs:40-101 | A validation error comes back exactly for an observation of another version or a foreign source, or whose payload breaks a bound, whatever the tables hold. |
| Refusals.DispatchFailsAs | crates/notification/src/events.rs:103-170 | A dispatch observation commits exactly when it is consumed already, late and in agreement with a receipt, or first for its attempt in flight with revision and unique keys free; not found means that its attempt is not its delivery's, an internal error that a key is taken. |
| Refusals.ReceiptFailsAs | crates/notification/src/events.rs:351-420 | A receipt commits exactly when it is consumed or recorded already with its digest, or finds its attempt, run and a delivery that can be concluded; not found means that its attempt is not its delivery's. |
| Preservation.ApplyDispatchKeepsInv | crates/notification/src/events.rs:150-336 | A committed dispatch observation keeps the ledger invariant. |
| Preservation.ApplyReceiptKeepsInv | crates/notification/src/events.rs:405-481 | A committed receipt, even one for an older attempt, keeps the ledger invariant. |
| Preservation.ApplyLifecycleKeepsInv | crates/notification/src/events.rs:501-567 | A committed cancellation keeps the ledger invariant. |
| Preservation.ClaimKeepsInv | crates/notification/src/runtime.rs:95-176 | A claim keeps the ledger invariant. |
| Preservation.ManualRetryKeepsInv | crates/notification/src/repository.rs:411-468 | A manual retry keeps the ledger invariant. |
| Preservation.CreateKeepsInv | crates/notification/src/public.rs:294-437 | A create keeps the ledger invariant. |
| Evolution.StepKeepsInv | crates/notification/src/events.rs:36-71 | Every transaction, committed or failed, keeps the ledger invariant. |
| Evolution.StepAdvances | crates/notification/migrations/0001_create_notification_schema.sql:78-88 | Every transaction keeps all rows, rewrites no evidence, moves each delivery it touches by one revision and lowers its rank when its status changes; a terminal row never changes. |
| Protocol.NextKeepsWorld | crates/notification/src/plugin.rs:455-549 | Claims, provider calls, reports, stops and all other actions keep the protocol invariant: calls are the attempts in order, consumed observations are their outcomes, no two workers hold one attempt. |
| Protocol.RunKeepsWorldInv | crates/notification/src/plugin.rs:455-570 | The protocol invariant holds in every world of every run. |
| System.EmptyWorldStarts | crates/notification/migrations/0001_create_notification_schema.sql:60-165 | Any number of idle workers over an empty ledger start a run. |
| System.EverythingMayHappen | crates/notification/src/plugin.rs:455-570 | No run is stuck, and workers and callers may go on in every way they can: any claim, any instance and return, a report, a stop, or any other action. |
| Guarantees.DispatchIsBounded | crates/notification/src/plugin.rs:455-570 | In every run a delivery is sent at most min(maxAttempts, 4) times, once per attempt and in order, and every call but the last was answered by a well-formed temporary failure. |
| Guarantees.EarlierFailedTemporarily | crates/notification/src/events.rs:215-258 | The outcome of every call but the last is a temporary failure that is committed in the ledger. |
| Guarantees.NoAttemptIsSentTwice | crates/notification/src/runtime.rs:108-150 | No two provider calls of a run carry the same attempt. |
| Guarantees.RunIsAppendOnly | crates/notification/src/events.rs:655-711 | Over any stretch of a run rows are only added, evidence stays as written and terminal deliveries stay unchanged. |
| Guarantees.ChangesSpendRank | crates/notification/src/events.rs:150-160 | The status changes made so far and the rank that is left never exceed nine. |
| Guarantees.AtMostNineStatusChanges | crates/notification/src/events.rs:405-417 | A delivery changes status at most nine times in any run, however many manual retries are granted. |
| Guarantees.CancelledStaysQuiet | crates/notification/src/runtime.rs:62-69 | A delivery cancelled while waiting keeps its row, gains no attempt and is never sent again. |
| Observations.ObservedExactlyOnce | crates/notification/src/events.rs:570-608 | Once an observation has committed, another under its identity commits at any later point of any run exactly when version, source and payload are the same, and then changes nothing. |
| Receipts.ReceiptRecordedOnce | crates/notification/src/events.rs:366-385 | At any later point of any run a receipt with the source, remote identity and verdict of a committed one, under a new event identity, only consumes its event if it has the digest that the first one came with, and conflicts otherwise. |
| Receipts.FirstReceiptConcludes | crates/notification/src/events.rs:421-481 | A first receipt writes its own row with its digest, the attempt taken or failed, and the delivery delivered or failed for the receipt's reason at the receipt's time; every other row stays. |
| Observations.ReportCommitsExactlyWhen | crates/notification/src/events.rs:139-170 | A worker's report commits if and only if it is already consumed, overtaken by an agreeing verdict, or finds its attempt in flight with a revision and its unique keys free. |
| Observations.ReportEndsFlight | crates/notification/src/events.rs:171-336 | A report that commits for an attempt in flight leaves what the return of its call says: accepted, failed for good, unclear, or, while attempts are left, scheduled exactly one, five or thirty minutes after the answer or the provider's longer pause; with the attempt's columns, receipt, decision and event, and nothing else. |
| Observations.ReportIsItsOwn | crates/notification/src/plugin.rs:1260-1284 | A worker reports under a key that names its attempt, as the instance it called, at the time of the answer. |
| Cancellations.CancellationIsExact | crates/notification/src/events.rs:501-567 | The end of an invitation fails exactly when a delivery it would end has no revisions left; otherwise it ends exactly the waiting deliveries of that caller, entity type and invitation requested by then, each by one revision with its reason, and leaves none. |
| Cancellations.OnlyItsInvitationEnds | crates/notification/src/events.rs:501-567 | At any later point of any run a created delivery is ended by the end of an invitation exactly when it waits and the create was this caller's, for this invitation and made by then; any other leaves its row. |
| Commutation.AcceptanceAndDeliveryCommute | crates/notification/src/events.rs:655-711 | When each order of a provider's answer and a receipt for one attempt in flight commits; and that an acceptance and a delivery receipt end in the same ledger but for one revision, the acceptance's times and its own receipt. |
| Witnesses.FailureMayFollowBounceOnly | crates/notification/src/events.rs:405-417 | On a ledger reached by a create and a claim, a permanent failure commits after a bounce and the bounce does not commit after the failure. |
| Commutation.AnswerFirst | crates/notification/src/events.rs:171-213 | With the answer first both commit exactly when it is an acceptance without a clash and two revisions are left. |
| Commutation.ReceiptFirst | crates/notification/src/events.rs:150-160 | With the receipt first both commit exactly when the late answer agrees with the verdict. |
| Commutation.LateAnswerOnlyFills | crates/notification/src/events.rs:660-711 | A late answer changes no status and no revision, adds no evidence, overwrites nothing its attempt already says and fills in what it did not. |
| Evidence.EvidenceIsBounded | crates/notification/src/repository.rs:10-12 | In every run the revision is 2a + m with the offset its status allows, at most m + 10 and never above the limit; a delivery has at most 4 attempts, 1 acceptance receipt, 1 verdict, 3 scheduled and 1 rejected automatic decision, and no other receipts. |
| Evidence.OverflowTakesManualRetries | crates/notification/src/repository.rs:206-336 | Reading a known delivery finds it, and overflows only after more than 996 manual retries and always after more than 1000. |
| Evidence.DetailIsExact | crates/notification/src/repository.rs:206-336 | A detail that is answered holds the delivery's row and exactly its own attempts, receipts and decisions; it is refused exactly beyond 10, 1000 and 1000. |
| Evidence.StatusHasItsEvidence | crates/notification/migrations/0001_create_notification_schema.sql:60-88 | Delivered means a delivery receipt with the delivery's time exists; due and final times follow the status; a scheduled retry has attempts left. |
| Evidence.StatusTellsLastOutcome | crates/notification/src/events.rs:171-336 | In every run an accepted delivery, one of unknown outcome and one that failed for good or used up its attempts has the status that the outcome of its last provider call asks for, and that outcome is committed. |
| Evidence.DecisionsRise | crates/notification/src/events.rs:749-781 | Over any stretch of a run a delivery's new retry decisions are taken at higher revisions than all it had before. |
| Evidence.AttemptsAreNumbered | crates/notification/src/runtime.rs:101-150 | Attempts are numbered 1 to the attempt count; while attempting exactly the last one is dispatching, while waiting or accepted none is. |
| Evidence.ScheduledIsExplained | crates/notification/src/events.rs:226-258 | A scheduled delivery waits for the schedule of its newest decision, taken one revision before; an automatic one is exactly one, five or thirty minutes after the answer to attempt 1, 2 or 3, or the provider's longer pause, within a day. |
| Evidence.RetryWaitsForItsSchedule | crates/notification/src/runtime.rs:62-69 | In every run, attempt n + 1 is claimed no earlier than the explained schedule that followed attempt n. |
| Evidence.AutomaticRetryWaits | crates/notification/src/events.rs:226-240 | Unless the decision behind the current revision is an operator's, attempt n + 1 starts no earlier than the answer to attempt n plus one, five or thirty minutes, or the provider's longer pause. |
| Claims.ClaimIsExact | crates/notification/src/runtime.rs:45-186 | In every run a claim answers nothing exactly when no unlocked delivery waits with its time come; otherwise it is decided by the one of them that is least by time and identity: it fails, or writes the attempting delivery, the new attempt and the request, column by column. |
| Claims.RowClaimDecides | crates/notification/src/runtime.rs:95-176 | Claiming a ready delivery fails if and only if its revisions are exhausted or its content was sealed under another key; the attempt numbering and unique keys never stop it. |
| Claims.ClaimFailsExactlyWhen | crates/notification/src/runtime.rs:51-176 | The claim transaction fails if and only if the earliest ready delivery cannot be claimed for one of those reasons, whatever else is ready. |
| Witnesses.KeyChangedIsReached | crates/notification/src/snapshot.rs:96-103 | Two creates, with the sealing key changed in between, reach the ledger of the next row, which satisfies the invariant. |
| Witnesses.FirstBlocksSecond | crates/notification/src/runtime.rs:62-136 | On that ledger both deliveries are due, the claim under the new key fails on the first, and the second could be claimed. |
| Retries.ManualRetryDecides | crates/notification/src/repository.rs:347-468 | In every run a used key is answered with its schedule, or refused if it has none; under a new key a manual retry commits if and only if the delivery waits for a retry at the expected revision with a revision left; it then answers the next revision, moves the schedule to now and touches no status, attempt or other delivery. |
| Retries.ManualRetryAnsweredOnce | crates/notification/src/repository.rs:347-382 | At every later point of every run the same key is answered with its first schedule and nothing is written. |
| Creates.CreateDecides | crates/notification/src/public.rs:184-445 | An expired request and a rendering that breaks a bound are refused. After that the idempotency key decides between replay, conflict and commit, a free key is refused exactly when the release has changed or the recipient's mask is out of bounds, and a commit writes the four rows column by column. |
| Creates.RenderingExactlyWhen | crates/notification/src/public.rs:802-844 | A rendering passes exactly when it is of the template, version and locale asked for, admits to a fallback, keeps every bound and digests its own content. |
| Creates.CreatedIsKept | crates/notification/src/public.rs:361-437 | At every later point of every run the created delivery allows four attempts and its intent and snapshot have every column as created. |
| Creates.MaskShows | crates/notification/src/snapshot.rs:192-198 | A mask shows the first character of the local part and the domain behind the last at sign, and nothing else. |
| Creates.MaskFitsExactlyWhen | crates/notification/src/snapshot.rs:192-198 | The mask of an address keeps the table's bounds if and only if at most 315 characters follow its last at sign. |
| Witnesses.LongAddressAborts | crates/notification/migrations/0001_create_notification_schema.sql:55 | An address of 320 characters has a mask of 323, and its create under a free key is aborted. |
| Creates.OneOfEach | crates/notification/migrations/0001_create_notification_schema.sql:56-64 | A caller and idempotency key have exactly one delivery and one snapshot. |
| Creates.RacingCreatesLinearize | crates/notification/src/public.rs:266-292 | After any answered create, at every later point of every run the same request gets the same delivery and another conflicts, both without writing, whatever they rendered. |
| Witnesses.ExpiredReplayIsRefused | crates/notification/src/public.rs:152-165 | A create that expires at 5 commits at 1, is replayed at 4 and refused at 6. |
| Creates.FastPathIsFinal | crates/notification/src/public.rs:148-181 | What the lock-free lookup answers, the locked transaction answers in every later state. |
| Creates.ReleaseIsImmutable | crates/notification/src/public.rs:305-351 | Any two renderings ever committed under one template release agree on its digest. |
| Content.EveryCallSaysTheSame | crates/notification/src/runtime.rs:112-136 | All provider calls for one delivery carry the same recipient and content. |
| Content.ContentIsFixedAtCreation | crates/notification/src/public.rs:294-437 | Every provider call ever made for a delivery carries the recipient and the content, with its digest, that its create committed. |
| Paging.PageIsTop | crates/notification/src/plugin.rs:636-652 | A page holds the top of what is listed, in order, and names a next page exactly when something is left out; it is full then. |
| Paging.PageExists | crates/notification/src/repository.rs:136-139 | Every cursor, status and page size from 1 to 200 has a page. |
| Paging.WalkEnds | crates/notification/src/plugin.rs:636-652 | On a ledger that stands still a walk that follows the cursor comes to its end for any page sizes, because every page but the last is full, and it shows exactly the listed deliveries. |
| Paging.WalkNeverRepeats | crates/notification/src/plugin.rs:636-652 | Following the cursor never shows a delivery twice, whatever happens in between. |
| Paging.WalkNeverMisses | crates/notification/src/repository.rs:136-139 | A delivery listed throughout a walk is shown by the time the walk gets past it. |
| Paging.WalkIsExact | crates/notification/src/repository.rs:136-139 | On a ledger that stands still the pages show exactly the listed deliveries, once each. |
| Paging.FilteredWalkIsExact | crates/notification/src/repository.rs:136-139 | A finished walk of a resting ledger of a run shows, from the highest identity down, exactly the deliveries with the status asked for, or all of them. |
| Paging.WalkOfRunIsComplete | crates/notification/src/repository.rs:136-139 | While the system runs, an unfiltered walk shows every delivery that existed when it began. |
| Identifiers.IntentTextDetermines | crates/notification/src/public.rs:361-367 | Callers without colons never share an intent text, whatever the idempotency keys. |
| Identifiers.ColonInCallerCollides | crates/notification/src/public.rs:361-367 | With a colon in the caller two different intents would share a text. |
| Identifiers.AttemptTextDetermines | crates/notification/src/runtime.rs:108 | Delivery and sequence can be read back from an attempt's text. |
| Identifiers.TemplateTextDetermines | crates/notification/src/public.rs:305-311 | Template, version and locale can be read back from a release's text. |
| Identifiers.ReceiptTextDetermines | crates/notification/src/events.rs:725 | Source, remote identity and kind can be read back from a receipt's text. |
| Identifiers.ManualRetryTextDetermines | crates/notification/src/repository.rs:417-420 | Manual retries are told apart and never named like an automatic decision. |
| Identifiers.StableIdDetermines | crates/notification/src/public.rs:855-858 | Identities of different kinds never meet. |
| Identifiers.TextsAreSpelled | crates/notification/src/public.rs:305-371 | Each text is its parts, joined by colons in this order. |
| Identifiers.DecimalReads | crates/notification/src/runtime.rs:108 | A sequence number is written in decimal. |
| Framing.ContentFrame | crates/notification/src/snapshot.rs:175-182 | The hasher is fed exactly the length-prefixed frame of subject, text and body. |
| Framing.FrameSurvives | crates/notification/src/snapshot.rs:175-182 | A frame can be taken apart again. |
| Framing.UnframedSurvives | crates/notification/src/snapshot.rs:175-182 | Whatever can be taken apart is the frame of its parts. |
| Framing.FrameDetermines | crates/notification/src/snapshot.rs:175-182 | Equal frames have equal subjects, texts and bodies. |
| Normalizer.NormalizeSqlQualifiers | crates/notification/src/operator.rs:955-1037 | The index loop with its quote state ends and computes the recursive scan. |
| Normalizer.NormalizeSqlFields | crates/notification/src/operator.rs:910-931 | Each row's listed fields are normalized in place; other rows and fields are left alone. |
| Normalizer.FieldsAreNormalizedOnce | crates/notification/src/operator.rs:910-931 | With no field listed twice, each listed string is normalized exactly once. |
| QualifierScan.NormalizerIsExact | crates/notification/src/operator.rs:955-1037 | The result is the text without exactly the qualifiers that follow no ASCII letter, digit, underscore or dollar sign outside every quote, as a lexer that knows no qualifiers sees them; lengths add up. |
| QualifierScan.DropsAllAndOnly | crates/notification/src/operator.rs:1009-1024 | From any point and inside any quote, the scan drops at an offset if and only if a qualifier stands there. |
| QualifierScan.OneQualifierMatches | crates/notification/src/operator.rs:956-960 | At most one qualifier of a schema matches in one place. |
| QualifierScan.OrderIsIrrelevant | crates/notification/src/operator.rs:1012-1020 | The order in which qualifiers are tried makes no difference. |
| QualifierScan.DollarQuoteExactlyWhen | crates/notification/src/operator.rs:1039-1056 | A dollar quote opens exactly where ASCII letters, digits and underscores, not starting with a digit, or nothing, stand between two dollar signs. |
| CatalogText.NormalizingLeavesResidue | crates/notification/src/operator.rs:955-1056 | What normalizing makes of any definition: qualifiers go, except those stuck to a word or a dollar quote, and names called like the schema go with a dot that follows them at a token boundary; literals, dollar quotes and all other text are unchanged. |
| CatalogText.NormalizingUnqualifies | crates/notification/src/operator.rs:955-1056 | Normalizing a well-formed definition printed under any name of its schema gives its unqualified print, with literals, dollar quotes and quoted identifiers unchanged. |
| CatalogText.CrossSchemaRoundTrip | crates/notification/src/operator.rs:895-908 | A well-formed definition printed in two schemas, or through the temporary alias, normalizes to the same text. |
| CatalogAgreement.UnqualifiesExactlyWhen | crates/notification/src/operator.rs:1009-1024 | Unless a definition has both, it normalizes to its unqualified print if and only if it has neither a name that reads as a qualifier nor a qualifier away from a token boundary. |
| CatalogAgreement.SameInBothExactlyWhen | crates/notification/src/operator.rs:1009-1024 | For every definition that the scanner lexes as the server does: its prints in two schemas normalize to the same text if and only if the same names read as qualifiers in both and no qualifier is away from a token boundary. |
| CatalogAgreement.SameAsStrayless | crates/notification/src/operator.rs:1009-1024 | A schema agrees with one in which nothing reads as a qualifier that is none if and only if nothing does in it either and no qualifier is away from a token boundary. |
| CatalogAgreement.StrayNameDiffers | crates/notification/src/operator.rs:1009-1024 | A name called like one schema, before a dot, makes the two schemas differ. |
| CatalogAgreement.GluedQualifierDiffers | crates/notification/src/operator.rs:1009-1011 | A qualifier right after a dollar quote makes the two schemas differ. |
| CatalogAgreement.LossesCanMeet | crates/notification/src/operator.rs:1009-1024 | With both in one definition the text lost and the text kept can be equal, so that one schema alone shows nothing. |
| CatalogLimits.LiteralPassesExactlyWhen | crates/notification/src/operator.rs:967-990 | For every content of a standard-conforming string, behind any well-formed definition: a qualifier behind its literal is recognised, and two schemas agree, if and only if no unpaired backslash stands before a quote or at the end. |
| CatalogLimits.BackslashDiffers | crates/notification/src/operator.rs:973-980 | A literal that is a single backslash makes the two schemas differ. |
| CatalogLimits.WordPassesExactlyWhen | crates/notification/src/operator.rs:1003-1008 | For every word, dollar signs included, behind any well-formed definition that does not end in a word: a qualifier behind it is recognised, and two schemas agree, if and only if the lexer is outside every dollar quote at its end. |
| CatalogLimits.DollarInWordDiffers | crates/notification/src/operator.rs:1003-1008 | The name `a$x$` makes the two schemas differ. |
| CatalogLimits.StuckPassesExactlyWhen | crates/notification/src/operator.rs:1003-1008 | For every word and every dollar quote of word characters stuck to it, behind any well-formed definition that does not end in a word: a qualifier behind them is recognised, and two schemas agree, if and only if the lexer is outside every dollar quote at their end. |
| CatalogLimits.StuckDollarQuoteDiffers | crates/notification/src/operator.rs:1003-1008 | A dollar quote stuck to a word with a dollar sign makes the two schemas differ. |
| CatalogLimits.TagPassesExactlyWhen | crates/notification/src/operator.rs:1039-1056 | For every tag without quotes, dots and dollar signs, behind any well-formed definition that does not end in a word: a dollar quote around a quote is recognised, and two schemas agree, if and only if the tag is of ASCII letters, digits and underscores and starts with no digit. |
| CatalogLimits.ForeignTagDiffers | crates/notification/src/operator.rs:1039-1056 | A tag with a letter outside ASCII makes the two schemas differ. |

## Left out

- Identities are constructors over the parts of their texts, and hashes (of requests, contents, identities) are taken to be free of collisions; `Identifiers` and `Framing` prove the part that is about text. The delivery identity is an integer, its place in the text order, given by a function of the intent identity.
- LedgerStore.Ledger.SelectDue: rows locked by other transactions are a parameter, and `SKIP LOCKED` races beyond that set are not modelled.
- LedgerStore.Ledger.CreateIntent: the length and blank checks on the request's own fields and the format of its digests are left out; those on the rendering are there.
- LedgerStore.Ledger.ClaimOneDue: the advisory and row locks are not modelled as such; transactions are atomic, as those locks make them for the rows they touch.
- Evidence.OverflowTakesManualRetries: the detail holds sets of attempts, receipts and decisions, not their display order or columns.
- Normalizer.NormalizeSqlFields: rows are already parsed; the JSON encoding and its whitespace are not part of this model.
- QualifierScan.DropsAllAndOnly: schema names are letters, digits and underscores, as the program's own are; texts are sequences of characters, not UTF-8 bytes, whose multi-byte characters the scanner also treats as neither names nor quotes.
- CatalogText.NormalizingUnqualifies: excludes the same shapes as the next line.
- CatalogText.CrossSchemaRoundTrip: excludes the shapes on which the scanner fails: a literal with an unpaired backslash before a quote or at its end; a word that leaves the lexer inside a dollar quote, by itself or together with the dollar sign of a dollar quote stuck to it; a dollar quote whose tag is not ASCII; a name called like the schema before a dot at a token boundary; a qualifier stuck to a word or to a dollar quote. Each has an input. The exact conditions in `CatalogAgreement` are for the last two shapes in any definition without the others; those in `CatalogLimits` are for a literal with a qualifier behind it and for a word, a word with a dollar quote of word characters stuck to it, or a quote in dollar quotes, with a space and a qualifier behind it, each behind any well-formed definition.
- CatalogText.CrossSchemaRoundTrip: words are whole, so two words, or a word and an unquoted qualifier, side by side are one word; comments are not tokens, as the server's prints have none outside quotes; schema names are letters, digits and underscores.
- Failures of commit, of the connection and of stored values to decode; a failed transaction is one that rolls back.
- Liveness: nothing recovers an attempt whose worker stopped, so no lemma says that a claimed delivery ends.
- The reading of the status after a worker's report, and the mapping of errors to wire codes and messages.
- Length and blank checks on lifecycle requests, caller allow-lists, time parsing, truncation of already bounded metadata, and previews, which are cut to the length the table allows.
- AES-GCM sealing, nonces, base64, SHA-256 and JSON: sealing is a pair of key reference and plaintext that only the same key reference reveals.
- Catalog fingerprint queries, adoption locks, access control and publication checks, secrets, plugin preparation, the console package and generated wire types.
