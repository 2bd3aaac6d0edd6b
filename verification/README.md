# WinProp API: verified models of its protocols and codecs

Dafny models of the parts of the WinProp API whose correctness rests on more than one function:
six protocols over shared database rows, and the bit-level, ordering and filtering code beside them.
`dafny verify dfyconfig.toml` checks everything.

How the protocols are modelled: every Prisma statement, raw statement or `$transaction` is a function
from one table state to the next. A class holds the tables and issues those statements in the order
the service does; its methods are proved against the same functions. A transition system interleaves
the statements of any number of workers or requests, each of which may die between two of them, and
the safety theorems quantify over all of its runs. `DrainIsARun`, `RefreshIsARun` and
`InterceptIsARun` tie the two together.

- `WebhookInbox`: the durable Stripe inbox with competing drains, retries, crash recovery and the
  completion marker. `WebhookDrains`: whole drains, how many settle the inbox, the billing service.
- `RefreshTokens`, `Lockout`: refresh-token rotation with reuse detection; the login failure counter.
- `QuotaPeriod`, `Quota`: thirty-day buckets; the atomic reserve, the release, the backfill.
- `Idempotency`: claim, complete, release and replay of idempotency keys.
- `Cipher`, `MemoryFacts`: tolerant decryption; the confidence merge of memory facts, export, import.
- `Pricing`: the conversion and clamping of a suggested price. `DocumentHistory`: snapshots, the
  version counter and the two adjustments.
- `Bits`, `Base32`, `Totp`: 32-bit operators, base32 (section 6 of RFC 4648), one-time codes (section
  5.3 of RFC 4226, sections 4.2 and 5.2 of RFC 6238).
- `Tenant`: the query rewriter, over filters with three-valued logic.
- `SkillStats`: the per-skill aggregation loop.
- `Prelude`: optional values and facts about finite sets.

Where the code does not do what its comments or callers expect, the model follows the code, a lemma
gives a concrete counterexample, and another states exactly when the property holds:

- "No event is processed twice" fails when a live worker with an attempt left overruns the stuck
  timeout of its claim: a step lets two workers hold one row exactly when it is such a claim
  (`StepBreaksExclusionIff`), and while the clock stands still some continuation does so exactly when
  such a worker exists (`ExclusionLastsIffTimely`, `OverdueWorkerBreaksExclusion`). Because the
  completion writes select by id alone, a finished row can then go back to failed
  (`DoneIsFinalIffUnheld`).
- An event is bound to its organisation anew each time it runs. With unchanged links, running it again
  binds it alike if and only if at most one organisation is linked to its customer
  (`ReplayResolvesAlikeIff`). A link made in between changes the outcome: an event bound to nobody is
  written (`LinkedLaterIsWritten`); one that is now looked up elsewhere is rejected, because the first
  organisation stores its subscription id (`LinkedElsewhereIsRejected`), and is retried until its
  attempts are used up (`RefusedEventIsRetried`). An event without a period end is stamped with the
  current second, so running it again is idempotent only within that second (`ReplayIsIdempotentIff`).
- Answering a replayed refresh token does not sign the user out for good while another rotation has
  claimed its token and not yet minted (`ReplaySignsOutIffNoRotationInFlight`).
- Overlapping logins lose failures, any number of them at once (`OverlapLosesFailures`); every
  recorded failure shows, in the counter or in a lock, if and only if no failure was written over a
  counter that differs from what was read (`FailuresShowIffNeverStale`).
- A failed generation releases its quota slot if and only if it has committed no log or its price
  conversion threw (`FailureReleasesIff`). The adjustments return their version write without awaiting
  it, so its rejection never reaches the release (`LateFailureKeepsItsSlot`). The price is converted
  between the log and that write: an answer that cannot be converted gives the slot back although it
  was logged (`LoggedRequestsKeepTheirSlotIff`), so that the logs of a bucket exceed its limit by any
  amount (`ThrowingConversionsOverrun`), though never by more than such conversions
  (`LogsWithinLimitAndThrown`).
- Document writes that start from a stale read snapshot one version twice (`VersionsUniqueIffNoneStale`).
- `updateMany` does not rewrite its data, so an update may move rows into another tenant
  (`UpdatesSpareOthersIff`).
- An encrypted empty text does not decrypt to itself (`DecryptSafeInvertsIffNonEmpty`,
  `ExportImportRoundTripIff`).
- A win rate is computed through an inexact quotient of doubles. It is determined if and only if it
  does not lie halfway between two hundredths (`RateIsDeterminedIff`), as 57 wins of 200 do
  (`FiftySevenOfTwoHundred`).

## Model

| member | source | states |
|---|---|---|
| WebhookInbox.AttemptsCountStarts | src/billing/billing.service.ts:140-148 | in every run, with no timing assumption, a row's attempts is the number of times processing was started, at most 5 |
| WebhookInbox.DoneRowsAreMarked | src/billing/billing.service.ts:150-156 | in every run a row marked done has its completion marker, as has every event a worker is about to mark done |
| WebhookInbox.MarkerComesWithItsWrites | src/billing/billing.service.ts:194-207 | wherever a marker appears in a run, one step wrote it, together with every subscription and organisation column of that event and no other organisation's, or alone when no organisation was bound |
| WebhookInbox.BoughtPlanIsGrantedIff | src/billing/billing.service.ts:76-81 | the plan whose configured price a checkout charges is the plan the webhook grants if and only if no plan tested before it stands for the same price |
| WebhookInbox.PriceIsGrantedIff | src/billing/billing.service.ts:76-81 | for every price, configured or not: a paid plan is granted if and only if the price stands for it, as its configured price or its fixed name, and for none before it; free if and only if it stands for none |
| WebhookInbox.TimelyRunsExclude | src/billing/billing.service.ts:121-162 | if no live worker with an attempt left overruns the stuck timeout, no two workers ever hold one row, and a done row never changes again, despite stale cutoffs and batches |
| WebhookInbox.StepBreaksExclusionIff | src/billing/billing.service.ts:140-148 | where live workers own their rows, a step lets two of them hold one row if and only if it is a claim with a cutoff after the claim of a live holder that has an attempt left; every other step keeps the ownership |
| WebhookInbox.ExclusionLastsIffTimely | src/billing/billing.service.ts:121-148 | while the clock stands still, no continuation lets two live workers hold one row if and only if no live holder with an attempt left is past its timeout, however many older rows fill the batch before |
| WebhookInbox.DoneIsFinalIffUnheld | src/billing/billing.service.ts:152-162 | a done row stays done in every continuation if and only if no worker still holds it |
| WebhookInbox.OverdueWorkerBreaksExclusion | src/billing/billing.service.ts:15-17 | for any timeout, a run in which a worker sleeps past it, two workers hold the row, and the row goes from done back to failed |
| WebhookInbox.ReplayIsIdempotentIff | src/billing/billing.service.ts:177-208 | running a committed event again after anything that left customer links, its organisation and its marker alone: the organisation is looked up again and is the same, the transaction is not rejected, and nothing changes if and only if there is none, or the event carries a period end, or lands in the same second |
| WebhookInbox.ReplayResolvesAlikeIff | src/billing/billing.service.ts:184-189 | with links unchanged, whatever else has changed, every second lookup gives the first organisation if and only if at most one organisation is linked to the customer |
| WebhookInbox.LinkedLaterIsWritten | src/billing/billing.service.ts:28-30 | an event bound to nobody writes a subscription, unhindered, when it runs again after its customer was linked |
| WebhookInbox.LinkedElsewhereIsRejected | src/billing/billing.service.ts:184-203 | an event bound by its metadata, run again after another organisation got its customer: the lookup gives the other one, and the transaction is rejected because the first stores the subscription id |
| WebhookInbox.NeverWrittenElsewhere | src/billing/billing.service.ts:194-203 | in every run, while one organisation keeps a subscription id no other stores it, and a worker that looked up another one cannot commit the event |
| WebhookInbox.RunsKeepSubsUnique | prisma/schema.prisma:240-248 | every run keeps subscription ids unique from a start where they are |
| WebhookInbox.CommitCollidesIff | src/billing/billing.service.ts:194-203 | the transactions that are rejected are exactly those that would store a subscription id twice |
| WebhookInbox.BatchExists | src/billing/billing.service.ts:123-133 | for every inbox and cutoff there is a batch: distinct eligible rows, oldest first, at most 20, none older left out |
| WebhookInbox.BatchIsFull | src/billing/billing.service.ts:123-133 | every batch holds 20 rows, or all eligible ones when there are fewer |
| WebhookInbox.DeliveryIsDated | src/billing/billing.service.ts:100-108 | a delivery of a new id adds one pending row dated now, a repeated one adds nothing, and no other row or table changes |
| WebhookInbox.EarlierDeliveryComesFirst | src/billing/billing.service.ts:123-133 | of two pending events delivered at different times anywhere in a run, every batch that holds the later has the earlier before it |
| WebhookInbox.RunsBoundAttempts | src/billing/billing.service.ts:137-148 | in every run attempts stays at most 5, and is 0 for a pending row |
| WebhookDrains.DrainsSpendAttempts | src/billing/billing.service.ts:121-173 | each drain that finds a row, even one cut short, lowers the sum of the attempts left, which starts at no more than 5 per row; rows only move forward |
| WebhookDrains.DrainsComeToRest | src/billing/billing.service.ts:123-133 | as long as each drain finds abandoned rows past the timeout, after 5n drains, of which any number may be cut short, every one of n rows is done, failed with 5 attempts, or abandoned at its fifth; no such row ever takes a place in a batch |
| WebhookDrains.DrainsSettle | src/billing/billing.service.ts:121-173 | when no drain is cut short it is enough that the rows found in processing are past the timeout: every row ends done or failed with 5 attempts, except those already abandoned at their fifth |
| WebhookDrains.RefusedEventIsRetried | src/billing/billing.service.ts:150-171 | handling an event whose organisation is refused never ends done: it spends an attempt and changes no marker, organisation or subscription |
| WebhookDrains.DrainIsARun | src/billing/billing.service.ts:121-173 | an undisturbed drain, also one that throws halfway, is a run of the protocol with the same effect on all tables |
| WebhookDrains.DrainTouchesItsBatch | src/billing/billing.service.ts:138-148 | a drain changes no row outside its batch and loses none |
| WebhookDrains.DrainCountsTheFinished | src/billing/billing.service.ts:136-172 | the number a drain reports is the number of rows it has brought to done |
| WebhookDrains.BillingService.IngestEvent | src/billing/billing.service.ts:87-115 | bad signature: error and nothing changes; known or queued event: acknowledged, nothing changes; else one pending row with no attempts |
| WebhookDrains.BillingService.ClaimRow | src/billing/billing.service.ts:140-148 | the conditional claim takes the row, stamps it and counts the attempt exactly when its guard holds, and says so |
| WebhookDrains.BillingService.FindOrg | src/billing/billing.service.ts:184-189 | the organisation linked to the customer, else the one in the metadata if that has no customer, else none |
| WebhookDrains.BillingService.ProcessEvent | src/billing/billing.service.ts:177-208 | the organisation is looked up and all of the transaction is written for it; or it throws, also when another organisation stores the subscription id, and nothing is written |
| WebhookDrains.BillingService.HandleRow | src/billing/billing.service.ts:140-171 | a row that is not claimed is skipped; a claimed one ends done with its effect committed, or failed, or stays in processing when the failure cannot be written |
| WebhookDrains.BillingService.DrainPending | src/billing/billing.service.ts:121-173 | the loop over a fetched batch has the effect and the count of handling its rows one by one, up to the first failure that cannot be written, which makes it throw |
| RefreshTokens.OneHolderPerLineage | src/auth/auth.service.ts:125-170 | in every run, of all tokens descending from one login, the active ones plus the claimed whose successor is not minted are at most one |
| RefreshTokens.StepKeepsInv | src/auth/auth.service.ts:125-189 | the invariant behind it: active tokens carry their lineage, a rotating request is its token's only claimant, links lead to the one successor minted for the token |
| RefreshTokens.RevocationIsMonotone | src/auth/auth.service.ts:156-176 | in every run a revocation time, once set, is never cleared or overwritten, and a successor link never changes |
| RefreshTokens.LinksFormChains | src/auth/auth.service.ts:158-168 | links leave revoked tokens only, stay with one user, never meet, and never lead back |
| RefreshTokens.AnsweringRevokesEverything | src/auth/auth.service.ts:145-147 | the step that answers a replay revokes every token of that user and no other |
| RefreshTokens.ReplaySignsOutIffNoRotationInFlight | src/auth/auth.service.ts:145-167 | after it the user stays without an active token until the next login, in every continuation, if and only if no rotation of theirs is between claim and mint |
| RefreshTokens.RefreshIsARun | src/auth/auth.service.ts:135-170 | a rotation nobody disturbs, a replay and a lost claim, each as its own explicit script of steps, leave no request behind and the table the service leaves |
| RefreshTokens.RejectedRefreshIsARun | src/auth/auth.service.ts:140-154 | an unknown token, another user's, an expired one and a revoked membership leave everything as it was |
| RefreshTokens.SignInIsARun | src/auth/auth.service.ts:98-133 | from any state a sign-in adds exactly one token, active, unlinked, the user's, valid for seven days, every other one as it was; in every reachable state its lineage is no other token's |
| RefreshTokens.LogoutIsAStep | src/auth/auth.service.ts:179-189 | the logout step is the service's statement: it revokes one token, keeps an earlier time, changes no other column or token |
| RefreshTokens.LogoutAllIsAStep | src/auth/auth.service.ts:173-176 | and so for each token of the user, and for no other user's |
| RefreshTokens.AuthService.IssueTokens | src/auth/auth.service.ts:125-133 | one more token, active, unlinked, the user's, expiring in seven days; all others as they were |
| RefreshTokens.AuthService.RevokeAllForUser | src/auth/auth.service.ts:173-176 | afterwards the user has no active token; those that were active carry this time, earlier revocations and other users' tokens are untouched |
| RefreshTokens.AuthService.RevokeToken | src/auth/auth.service.ts:158-161 | the conditional revocation wins exactly when the token is known and active, and says so |
| RefreshTokens.AuthService.Logout | src/auth/auth.service.ts:179-189 | a verified token is revoked once; everything else is a no-op |
| RefreshTokens.AuthService.Refresh | src/auth/auth.service.ts:135-170 | each rejection with what it leaves, reuse and lost race with every token of the user revoked, success with the old token revoked and linked to the one new one |
| Lockout.CounterStaysInRange | src/auth/auth.service.ts:98-121 | any sequence of logins keeps the failure counter within 0 to 9 |
| Lockout.SuccessClears | src/auth/auth.service.ts:98-112 | after any attempts a login succeeds exactly with the right password and no lock, and then counter and lock are cleared |
| Lockout.LockRefusesAll | src/auth/auth.service.ts:100-102 | after any attempts, while the lock lasts, the right password is refused too, and nothing changes |
| Lockout.TenthFailureLocks | src/auth/auth.service.ts:115-121 | the tenth recorded failure and no earlier one locks, from its recording for fifteen minutes and no longer |
| Lockout.GuessesPerWindow | src/auth/auth.service.ts:98-121 | non-overlapping logins without a success: at most 10 * (T / 15 min + 1) recorded wrong guesses in a closed window of length T |
| Lockout.ComparisonsPerWindow | src/auth/auth.service.ts:98-121 | and at most as many wrong guesses altogether, recorded or not, plus one for each failure write that was lost |
| Lockout.BoundIsReached | src/auth/auth.service.ts:115-121 | the bound is met by ten immediate guesses |
| Lockout.FailuresShowIffNeverStale | src/auth/auth.service.ts:98-121 | for any number of overlapping logins: at every moment of a run the failures recorded since the last reset are ten per lock plus the counter, if and only if no failure was written over a counter that differs from what was read |
| Lockout.OverlapLosesFailures | src/auth/auth.service.ts:107-121 | for every m, a run that records m wrong guesses at one instant and leaves the counter at one and no lock |
| Lockout.LoneLoginIsARun | src/auth/auth.service.ts:98-121 | a login nobody overlaps is a run of that protocol with the same effect on the account |
| Lockout.User.RecordFailedLogin | src/auth/auth.service.ts:115-121 | the tenth failure resets the counter and locks, an earlier one counts, a failing write changes nothing |
| Lockout.User.Login | src/auth/auth.service.ts:98-113 | outcome and new row of one login: locked out, wrong password, signed in |
| Bits.AppendBits | src/admin/totp.util.ts:48 | shifting the never-masked 32-bit accumulator and or-ing new bits in keeps the pending bits and puts the new ones behind them, as long as together they fit 32 bits |
| Base32.Base32Encode | src/admin/totp.util.ts:45-53 | the accumulator loop writes the letters of the exact bit stream, five bits each, zero-filled at the end |
| Base32.Base32Decode | src/admin/totp.util.ts:55-64 | the accumulator loop returns the whole bytes of the bit stream of the significant letters, for any text, including letters outside ASCII whose upper case is inside |
| Base32.RoundTrip | src/admin/totp.util.ts:45-64 | decoding undoes encoding for every byte sequence |
| Base32.InsertionsAreSkipped | src/admin/totp.util.ts:57-59 | characters of which nothing in the alphabet is left in upper case may be put in anywhere without changing the bytes |
| Base32.AsciiJunkIsSkipped | src/admin/totp.util.ts:57-59 | padding and every other ASCII character that is no letter and no digit from 2 to 7 is such a character |
| Base32.ForeignLetters | src/admin/totp.util.ts:57-59 | outside ASCII exactly the characters whose upper case holds an ASCII letter are read at all |
| Base32.CaseIsIgnored | src/admin/totp.util.ts:57 | lowering the case of every letter does not change the bytes |
| Base32.SymbolIsIndexOf | src/admin/totp.util.ts:58 | the letter-range test is the position in the alphabet string, or -1 |
| Base32.LetterIsAlphabet | src/admin/totp.util.ts:5 | the letter of a value is the alphabet's, reads back as the value and is its own upper case |
| Totp.TruncateMeetsTheStandard | src/admin/totp.util.ts:36-41 | masking, shifting and or-ing gives the big-endian 31-bit value at the digest's own offset, never out of range and never negative |
| Totp.HotpMatches | src/admin/totp.util.ts:32-43 | comparing the zero-padded decimal text is comparing the truncated value modulo a million with the number of the six digits |
| Totp.EightBytesReadBack | src/admin/totp.util.ts:33-34 | the eight counter bytes, read as a big-endian number, give the counter, for every counter that fits |
| Totp.VerifyTotp | src/admin/totp.util.ts:21-30 | accepts exactly when the stripped token is six digits that match a counter of the window; a counter that cannot be written throws unless an earlier one matched |
| Totp.StripRemovesSpaces | src/admin/totp.util.ts:22 | stripping removes exactly the white space, wherever it stands |
| Totp.SpacesAre | src/admin/totp.util.ts:22 | white space is the listed 25 characters |
| Totp.CheckWindow | src/admin/totp.util.ts:26-29 | the loop over the window, for any window and counter |
| Totp.CodesOutliveAStep | src/admin/totp.util.ts:21-30 | a code made at t has six digits, is left alone by the stripping, and is accepted at every time within 30 seconds of t, with a window of one |
| QuotaPeriod.BucketsPartitionTime | src/documents/quota.util.ts:27-34 | starts partition time into 30-day buckets, also before sign-up: now lies inside, later times share the start exactly within the 30 days, starts only move forward |
| QuotaPeriod.SubscriptionBucket | src/documents/quota.util.ts:28-30 | with a subscription the bucket ends at its period end whatever the clock, holds exactly the thirty days before, and differs for another end |
| QuotaPeriod.LimitsGrow | src/documents/quota.util.ts:6-8 | the limits by plan: strictly more from free to agency, agency and enterprise a million, nothing for any other name |
| QuotaPeriod.BucketsInWindow | src/documents/quota.util.ts:31-33 | a closed window of length T meets at most T / 30d + 2 buckets |
| Quota.SlotsAreAccounted | src/documents/quota.guard.ts:33-44 | in every run, admitted minus released reservations never exceed the counter nor the largest limit in force; without a backfill they equal the counter |
| Quota.LoggedRequestsKeepTheirSlotIff | src/documents/documents.service.ts:261-284 | in every run a request that committed its log gives its slot back, or is about to, if and only if its price conversion threw and it was not abandoned since |
| Quota.LogsWithinLimitAndThrown | src/documents/documents.service.ts:44-112 | in every run the logs charged to one bucket exceed the limit by at most the number of price conversions that threw there |
| Quota.LogsWithinLimit | src/documents/documents.service.ts:208-257 | without such a conversion they never exceed it |
| Quota.ThrowingConversionsOverrun | src/documents/documents.service.ts:275-283 | for every m, a run under a limit of one that ends with m logs in one bucket and its counter at zero |
| Quota.FailureReleasesIff | src/documents/documents.service.ts:243-284 | in every run the slot of a request that failed, and did not die of it, is given back or about to be if and only if the request committed no log or its price conversion threw |
| Quota.CompleteRunKeepsItsSlot | src/documents/documents.service.ts:208-284 | on every route a request that nothing fails for is logged, finished and keeps the one slot it was charged |
| Quota.LateFailureKeepsItsSlot | src/documents/documents.service.ts:251-256 | an adjustment whose late write is rejected has failed and holds its slot in every continuation |
| Quota.ReleasedAtMostOnce | src/documents/documents.service.ts:104-112 | in every run a reservation is given back at most once, and exactly when its request ends up released; such a request logged if and only if its price conversion threw |
| Quota.ReleaseStep | src/documents/documents.service.ts:104-112 | only a request's own release takes its slot back, one slot of the bucket it was charged to |
| Quota.AdmissionsPerWindow | src/documents/quota.guard.ts:22-44 | without a subscription at most limit * (T / 30d + 2) reservations are admitted and kept in a closed window of length T |
| Quota.BackfillRaises | src/documents/quota.backfill.ts:11-29 | each counter ends at the larger of its old value and the logged count, and only current buckets of listed organisations change |
| Quota.BackfillIsIdempotent | src/documents/quota.backfill.ts:9-10 | running it again changes no counter |
| Quota.BackfillIsARun | src/documents/quota.backfill.ts:14-27 | the whole backfill is a run of the protocol's raising steps |
| Quota.LoggedSinceCounts | src/documents/quota.backfill.ts:19 | the count is the number of the organisation's logs from the bucket's start on |
| Quota.SubscribersAreCountedByPeriod | src/documents/quota.backfill.ts:15-19 | for a subscribed organisation: its logs from thirty days before its period end on, in the bucket that ends there |
| Quota.OthersAreCountedByCycle | src/documents/quota.backfill.ts:15-19 | for any other: the bucket starts a whole number of thirty days after sign-up and holds now |
| Quota.AdmissionIsAGuardStep | src/documents/quota.guard.ts:13-44 | a guard reading the organisation's row is the protocol's guard step: it admits exactly when no subscription blocks it and the plan has slots left, and charges the current bucket |
| Quota.OnlyLiveSubscriptionsPass | src/documents/quota.guard.ts:16-17 | no subscription passes, one that is there passes exactly when it is active or on trial |
| Quota.QuotaTable.ReserveSlot | src/documents/quota.guard.ts:33-41 | the conditional upsert admits exactly below the limit or on a fresh bucket, and adds one |
| Quota.QuotaTable.CanActivate | src/documents/quota.guard.ts:10-46 | each rejection leaves the counters alone; admission charges one slot to the current bucket and hands that bucket over |
| Quota.QuotaTable.ReleaseQuota | src/jobs/jobs.service.ts:90-98 | one slot back to the reservation's bucket, never below zero; nothing without a reservation or when the statement fails |
| Quota.QuotaTable.BackfillQuotaUsage | src/documents/quota.backfill.ts:11-29 | the loop's counters, the number of organisations and of those seeded |
| Idempotency.RunsKeepHolder | src/common/idempotency/idempotency.interceptor.ts:28-59 | in every run, handler runs on one key never overlap and each holds a pending row |
| Idempotency.CompletedIsFinal | src/common/idempotency/idempotency.interceptor.ts:33-40 | once a run is recorded as completed the row never changes and the handler never starts again |
| Idempotency.AtMostOneIsRecorded | src/common/idempotency/idempotency.interceptor.ts:43-49 | at most one run is recorded, and a row is completed exactly when one was |
| Idempotency.ReplaysComeFromARun | src/common/idempotency/idempotency.interceptor.ts:33-36 | every replay comes after a request that ran the handler and was answered with the same status and body |
| Idempotency.ReplaysRepeatTheAnswer | src/common/idempotency/idempotency.interceptor.ts:33-49 | and it is the only request on its key that is ever answered by running the handler |
| Idempotency.OnlyHoldersDelete | src/common/idempotency/idempotency.interceptor.ts:51-58 | only a failed holder of a pending claim deletes its row |
| Idempotency.InterceptIsARun | src/common/idempotency/idempotency.interceptor.ts:19-60 | an undisturbed intercepted request is an explicit run of the protocol, with the handler's own outcome and the fate of the delete, and has the same effect on the rows |
| Idempotency.InterceptedIsReplayed | src/common/idempotency/idempotency.interceptor.ts:33-58 | after it, a second request gets the handler's status and body; after a failed handler the key is free exactly when the delete worked; no other key changes |
| Idempotency.SecondRequestIsAnswered | src/common/idempotency/idempotency.interceptor.ts:33-40 | in any state, a request on a known key gets the stored answer, or a conflict while it is in flight |
| Idempotency.FailedClaimIsReported | src/common/idempotency/idempotency.interceptor.ts:29-32 | a claim that fails for another reason is reported and leaves no trace |
| Idempotency.IdempotencyInterceptor.Intercept | src/common/idempotency/idempotency.interceptor.ts:19-60 | pass-through, replay, conflict, completion and release, with the reply and whether the handler ran |
| Cipher.FromHexOfHex | src/common/crypto/crypto.service.ts:11-22 | hexadecimal text reads back as the bytes |
| Cipher.HexWritesBytes | src/common/crypto/crypto.service.ts:16-19 | each byte is written as its two digits, higher first, in lower case |
| Cipher.ReadingStops | src/common/crypto/crypto.service.ts:23-24 | reading ends at the first pair that is not two digits, what stands before it is kept |
| Cipher.EncryptedParts | src/common/crypto/crypto.service.ts:16-19 | splitting a ciphertext text at its colons gives back its three parts |
| Cipher.DecryptSafeInvertsIffNonEmpty | src/common/crypto/crypto.service.ts:34-38 | tolerant decryption undoes encryption if and only if the text is not empty |
| Cipher.PlainTextPasses | src/common/crypto/crypto.service.ts:34-36 | text with any character but hexadecimal digits and colons passes through |
| Cipher.MorePartsAreIgnored | src/common/crypto/crypto.service.ts:21-26 | whatever follows a third colon does not change what a ciphertext decrypts to |
| Cipher.WhatThrows | src/common/crypto/crypto.service.ts:21-38 | fewer than two colons make decryption throw; what cannot be decrypted passes through the tolerant form |
| MemoryFacts.ImportKeepsTheWinner | src/memory/memory.service.ts:146-184 | after any import each key holds the last fact of greatest confidence from the last overriding one on, or from the start with a live prior row in front; soft-deleted rows count for nothing; keys without a candidate are untouched |
| MemoryFacts.WinnerIsUnique | src/memory/memory.service.ts:159-165 | that rule names one fact |
| MemoryFacts.DisplacesIff | src/memory/memory.service.ts:163-165 | a less confident fact displaces a live one if and only if its source is explicit or manual |
| MemoryFacts.BareFactIsModest | src/memory/memory.service.ts:158-222 | a fact imported without anything optional never displaces a live one above 0.9, and otherwise becomes a plain, permanent row of confidence 0.9 from the source import |
| MemoryFacts.GivenIsKept | src/memory/memory.service.ts:215-222 | only what is missing gets a default |
| MemoryFacts.ImportStaysInTheOrg | src/memory/memory.service.ts:169-182 | no row of another organisation changes |
| MemoryFacts.ExportExists | src/memory/memory.service.ts:46-52 | under any total order of the keys every organisation has an export: its live rows, decrypted, each once, in order |
| MemoryFacts.ExportIsUnique | src/memory/memory.service.ts:46-52 | and only one |
| MemoryFacts.ExportImportRoundTripIff | src/memory/memory.service.ts:129-142 | export, then import into an organisation without live facts or back into the same: the identical export, for any mix of encrypted and plain rows, if and only if no sensitive fact exports an empty value |
| MemoryFacts.RestoreAfterPurge | src/memory/memory.service.ts:119-126 | a purge of everything, asked for by no category or the empty one, is undone by importing the export taken before it |
| MemoryFacts.MemoryService.RecordFact | src/memory/memory.service.ts:146-184 | the row kept or written, and the decrypted row returned |
| MemoryFacts.MemoryService.Import | src/memory/memory.service.ts:213-227 | the loop records every fact in order, with the defaults for confidence and source |
| MemoryFacts.MemoryService.Create | src/memory/memory.service.ts:67-84 | a manual fact takes over the row, deleted or not, and keeps its permanence; the decrypted row is returned |
| MemoryFacts.MemoryService.RemoveMany | src/memory/memory.service.ts:119-126 | afterwards no row of the category, or of the organisation, is live; all rows keep everything else, other rows are untouched; the count is of the rows that were live |
| Tenant.QueryArgs.AllOperations | src/common/tenant/prisma-tenant.extension.ts:43-78 | refuses without a tenant in enforce mode, passes through untouched outside its scope, else rewrites in place: the created rows are the client's with the tenant column set, a filter selects what it selected among the tenant's rows, and nothing else changes |
| Tenant.ScopedRewrites | src/common/tenant/prisma-tenant.extension.ts:66-77 | for create, createMany and upsert: the tenant column is the organisation's, every other column the client's, none is added, number and order of rows kept; filters are narrowed; what an operation does not rewrite is unchanged |
| Tenant.EnforcedMeansScoped | src/common/tenant/prisma-tenant.extension.ts:44-61 | in enforce mode, inside a request and without bypass, every tenant model is refused without an organisation and otherwise scoped to it by its key |
| Tenant.OnlyEnforcedIsScoped | src/common/tenant/prisma-tenant.extension.ts:47-64 | and only then: everything else passes through |
| Tenant.FiltersMean | src/common/tenant/prisma-tenant.extension.ts:68 | comparisons are true of values that compare so and unknown of a null; negation swaps true and false |
| Tenant.AllMeans | src/common/tenant/prisma-tenant.extension.ts:68 | a conjunction is true exactly when all its filters are, false exactly when one is |
| Tenant.OneMoreRow | src/common/tenant/prisma-tenant.extension.ts:30 | one more row is found, deleted or updated column by column exactly when the filter selects it |
| Tenant.AnswersDescribeTheSelection | src/common/tenant/prisma-tenant.extension.ts:30 | what the reading operations answer, in terms of the rows the filter selects |
| Tenant.NarrowedIsRestriction | src/common/tenant/prisma-tenant.extension.ts:67-68 | the rewritten filter on the whole table selects what the original selects on the tenant's rows, for every filter of the recursive language |
| Tenant.ReadsSeeOneTenant | src/common/tenant/prisma-tenant.extension.ts:30 | each rewritten read answers as the original on the tenant's rows alone, so tables that agree on them answer alike |
| Tenant.CreatesAndDeletesSpareOthers | src/common/tenant/prisma-tenant.extension.ts:67-73 | create, createMany and deleteMany leave every other tenant's rows as they were |
| Tenant.UpdatesSpareOthersIff | src/common/tenant/prisma-tenant.extension.ts:67-68 | updateMany leaves every other tenant's row in its place; the others as a whole keep exactly their rows if and only if the data does not set the tenant column to another value or nothing is selected |
| DocumentHistory.HistoryIsFaithful | src/documents/documents.service.ts:124-156 | after any sequential run snapshots carry 1 to version - 1, each once, and the history at v holds the content the document had whenever it was at version v |
| DocumentHistory.LastWordStands | src/documents/documents.service.ts:124-156 | after any sequential run content, title and status are those of the last operation that gave one, or the first ones |
| DocumentHistory.WritesAreStored | src/documents/documents.service.ts:142-155 | one write from any read: the document holds what was written, the new snapshot is the document as read with its label, unchanged content writes neither |
| DocumentHistory.HistoryOnlyGrows | src/documents/documents.service.ts:142-145 | earlier snapshots are never touched |
| DocumentHistory.OverlapKeepsTheCount | src/documents/documents.service.ts:288-298 | however stale the reads, there are version - 1 snapshots and each is of a version below the current one |
| DocumentHistory.VersionsUniqueIffNoneStale | src/documents/documents.service.ts:130-146 | in every interleaving each version is snapshotted at most once if and only if no version write started from a stale read |
| DocumentHistory.NumberedIffNoneStale | src/documents/documents.service.ts:142-155 | and that is also exactly when snapshots are numbered 1, 2, 3 in order |
| DocumentHistory.StaleWriteDuplicates | src/documents/documents.service.ts:244-252 | two adjustments that both read version 1 snapshot it twice |
| DocumentHistory.DocumentsService.Update | src/documents/documents.service.ts:124-156 | the document ends with the edit's content, title and status where given and its own otherwise; changed content snapshots the document as read and counts up, unchanged content does neither |
| DocumentHistory.DocumentsService.ApplyAdjustment | src/documents/documents.service.ts:288-298 | the document holds the adjusted content at the next version with title and status kept; the labelled snapshot is of the document as read |
| DocumentHistory.DocumentsService.AdjustTone | src/documents/documents.service.ts:236-257 | failing before the log releases the slot; failing after it keeps log and slot and changes no version; completing stores the new prose as one version |
| DocumentHistory.DocumentsService.AdjustPricing | src/documents/documents.service.ts:261-284 | the same, except that an answer that cannot be converted is logged, releases the slot and changes no version; completing stores the clamped price |
| Pricing.SuggestionsStayInRangeIff | src/documents/documents.service.ts:276-278 | the suggested price lies in the agency's range, whatever the answer, if and only if the range is not empty; an answer inside is kept, one outside moves to the nearer end, one that is not finite gives the lower end |
| Pricing.WhatThrows | src/documents/documents.service.ts:277 | only arrays and objects can fail to convert: an object with a toString of its own, an array of one value exactly when that value does |
| Pricing.OneMoreItem | src/documents/documents.service.ts:277 | and a longer array as soon as one of its values does |
| Pricing.RoundedIsNearest | src/documents/documents.service.ts:278 | prices are the nearest whole number, halves up |
| SkillStats.BySkill | src/analytics/analytics.service.ts:71-152 | the accumulator loops return the sorted rows of the declared figures, over the skills in order of first appearance, for any rounding of the rates |
| SkillStats.AddJob | src/analytics/analytics.service.ts:107-125 | one job updates each of its distinct skills' accumulators once |
| SkillStats.SortRows | src/analytics/analytics.service.ts:143-149 | the stable sort of the rows |
| SkillStats.DecidedAreWinsAndLosses | src/analytics/analytics.service.ts:103-123 | decided = wins + losses, at most count; at most one amount per win |
| SkillStats.EachSkillAppearsOnce | src/analytics/analytics.service.ts:107-112 | each skill some job mentions appears once, and no other |
| SkillStats.FirstMentionedComesFirst | src/analytics/analytics.service.ts:107-116 | before sorting, skills stand in order of first appearance, across jobs and within one |
| SkillStats.CountsAddUp | src/analytics/analytics.service.ts:107-114 | the counts over all skills sum to the sizes of the de-duplicated stacks |
| SkillStats.FiguresAreRight | src/analytics/analytics.service.ts:128-141 | every column of a row: the counts of jobs by standing, the rate within 0 to 100 and nearest to wins over decided with ties either way, the average nearest to revenue over amounts with halves up, each absent exactly when there is nothing to divide by |
| SkillStats.JobsWithCounts | src/analytics/analytics.service.ts:107-125 | the counts are numbers of jobs |
| SkillStats.MentionsWhatIsListed | src/analytics/analytics.service.ts:96-102 | a job mentions exactly the texts its analysis lists under stack |
| SkillStats.SumAdds | src/analytics/analytics.service.ts:136-139 | the sum of two lists in a row is the sum of their sums |
| SkillStats.RevenueStep | src/analytics/analytics.service.ts:121-139 | one more job adds its amount to the revenue exactly when it was won, mentions the skill and has one |
| SkillStats.RateIsDeterminedIff | src/analytics/analytics.service.ts:135 | all roundings to a nearest hundredth agree on a rate if and only if it does not lie halfway between two |
| SkillStats.FiftySevenOfTwoHundred | src/analytics/analytics.service.ts:135 | 57 wins of 200 do: 28 and 29 hundredths are equally near |
| SkillStats.RoundingsExist | src/analytics/analytics.service.ts:135 | rounding halves up is one of these roundings |
| SkillStats.RoundedIsNearest | src/analytics/analytics.service.ts:136-138 | averages are the nearest whole number, halves up |
| SkillStats.SortedIsOrderedPermutation | src/analytics/analytics.service.ts:143-149 | the result is a permutation ordered by count, then rounded win rate, undecided last |
| SkillStats.OrderedMeansInSequence | src/analytics/analytics.service.ts:143-149 | ordered means: counts do not grow, and among equal counts rates do not grow and missing rates come last |
| SkillStats.SortIsStable | src/analytics/analytics.service.ts:145 | rows that compare equal keep their order |

## Left out

- Each statement and each transaction is atomic, the unique constraints of the schema hold, and all
  workers read one clock; a time stamp taken by a request may lag the statement that stores it.
- Stripe, JSON web tokens, bcrypt, AES-GCM and HMAC-SHA1 are parameters, of which only what is stated
  beside them is used (unsealing undoes sealing, a digest has twenty bytes, identifiers are fresh).
- Language-model calls, mail, rendering, controllers, validation, the free trial, seeds.
- WebhookInbox: the inbox insert fails only on a known id; the two reads that bind an event to an
  organisation may return any organisation in the protocol; the stuck timeout is a parameter. Log
  lines and the stored error text are not modelled.
- WebhookInbox.TimelyRunsExclude: needs the timing assumption, because without it the property is false.
- WebhookDrains.DrainsComeToRest: a row abandoned at its fifth attempt stays in processing, because no
  drain takes it over.
- Lockout.GuessesPerWindow: counts recorded failures of attempts that do not overlap, because a
  failing write of the counter is swallowed (ComparisonsPerWindow counts those too) and overlapping
  attempts lose counts.
- Quota.LoggedRequestsKeepTheirSlotIff: does not promise that a logged request always keeps its slot,
  because a price conversion that throws gives it back.
- Pricing: the number that an answer converts to, where the conversion does not throw, is a parameter.
- Quota: the usage meter of the billing status, which counts logs by their own time; the clock of a
  backfill is read once. What a guard admitted and a later pipe rejects stays admitted.
- Idempotency: a handler that returns nothing is stored as an empty object, which the replay sends;
  the protocol's answers carry the stored form.
- MemoryFacts: updating one fact (which may toggle its sensitivity without re-encoding its value),
  removing one by id, the audit trail, last-used stamps, the prompt selection. Recording a fact is
  one step, although the service reads and then writes.
- Tenant: selectors of findUnique, singular update, delete and upsert, which the extension leaves
  alone; relation filters; raw statements.
- DocumentHistory: sharing, duplicating, and the ownership checks of jobs.
- Totp.VerifyTotp: the step counter is an exact floor, without the rounding of floating-point division.
- SkillStats.BySkill: rates are kept in hundredths, and any rounding to a nearest hundredth stands for
  the arithmetic of doubles, which is one for fewer than 2^40 jobs; averages are exact quotients before
  they are rounded, as they are in doubles for revenues below 2^52. The organisation summary and the
  always-empty closing time are not part of this model.
- Bits: words are taken as unsigned; the sign JavaScript gives the same 32 bits is never looked at.
