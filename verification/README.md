# Hubchat: verified models of its stateful cores

Dafny models of the parts of the Hubchat server whose guarantees hold over whole runs
rather than over single calls, with proofs of those guarantees.

| part | files | what is proved |
|---|---|---|
| idempotency ledger | `IdempotencyLedger`, `IdempotencyProtocol` | any number of requests, interleaved statement by statement with crashes and failing statements: claimed runs never overlap, at most one succeeds, completed rows replay for ever, and exactly when a request that lost the INSERT runs unclaimed |
| analytics fold | `Rollups`, `RollupRuns`, `RollupColumns` | the rollup table is the batch histogram of the folded events, through aborts and retries; every cell counts the events that meet a condition written out for its metric |
| report schedules | `Calendar`, `Schedules`, `ScheduleOptions`, `SchedulePlans`, `ScheduleClaims`, `ScheduleRuns` | the Gregorian calendar; the next run is the earliest instant at which the local clock shows what the options ask for; the claim loop terminates, claims each due schedule once; its dedupe keys collide only after an edit that sets the next run back, exactly characterised |
| keyset pagination | `Keyset`, `Listings`, `EndpointWalks` | following cursors lists the table, also while rows come and go; the full-walk loops equal the unpaged query |
| credentials | `Lockout`, `SingleUse`, `Challenges`, `Sessions`, `CredentialFlows`, `CredentialEffects`, `PasswordChanges`, `ApiKeys` | bounds on wrong passwords and codes, single use, permanent revocation, sessions paid for by completed sign-ins or direct entries, recovery codes that enter once, which password signs in after a change, one live key per rotation lineage |
| event redaction | `Redaction` | redaction hides exactly what sits under sensitive keys, and which keys those are |

`Text` holds the string handling shared by several of them and `Wrappers` the option type.

Each SQL statement or committed transaction is one atomic step on maps, sets and sequences;
time is an integer (nanoseconds where the calendar matters). Database errors are choices
(`if *`), explicit steps, or a budget of statements that succeed. Classes follow the code's
own stateful objects; what their methods do is stated by functions on values, and runs are
folds of those functions over sequences of steps. `Next` and `Run` name one step and a whole
run in every module that has them. `RollupColumns`, `ScheduleOptions`, `CredentialEffects` and
`PasswordChanges` say what the steps of the models beside them do in terms of the rows and
inputs alone.

Where the code and its comments or documentation differ, the model follows the code:

- The comment on `claimIdempotencyKey` (internal/api/idempotency.go:317-319) calls INSERT and
  SELECT one atomic claim. They are two statements. If at the SELECT every row ever inserted for
  the key has been released, the handler runs unclaimed; if another request has inserted the key
  again, the loser is answered from that row (`SelectRunsUnclaimedExactly`). `ReleaseLetsTwoRun`
  is a run of the first kind; `UnguardedRunMeansRelease` and `AtMostOneRun` bound it.
- The comment on `RunScheduledReports` (internal/analytics/schedules.go:449-451) says two schedulers
  cannot send the same cadence. Claims alone cannot (`ClaimsAloneNeverCollide`). But an edit reads its
  clock, loads the report and then issues an UPDATE guarded by workspace and id only
  (internal/analytics/schedules.go:163-174): a claim that commits in between is undone by the next run
  the edit stores, and a second claim in the same second asks for the same dedupe keys
  (`StaleEditCollides`). This can happen exactly when the stored next run does not lie in a later
  second than last_sent_at (`EditIsSafeExactly`); an edit that read its clock no earlier than the last
  claim is always safe (`CurrentEditsAreSafe`).
- The comment on `recordFailedAttempt` (internal/auth/flows_repository.go:40-42) says concurrent
  attempts cannot exceed the limit. With `width` sign-ins past the lock check at once,
  limit + width - 1 wrong passwords can be checked; `ChecksAreBounded` and `BoundIsReached`.
- A TOTP challenge is loaded, checked and consumed in separate statements
  (internal/auth/flows.go:487-518), so overlapping verifications can each be given a session:
  `SessionBoundIsReached`. The five wrong codes become width + 4: `WrongBoundIsReached`.
- A password reset (internal/auth/flows.go:226-259) ends sessions and trusted devices but not TOTP
  challenges issued on the old password (`ResetLeavesStanding`). Neither it, nor a password change or
  deprovisioning, reaches a sign-in that matched the password before and inserts its session after
  (`StaleSignInSurvives`).
- The reset endpoint signs its caller in straight away (internal/api/auth_flow_routes.go:188-197) through
  CreateSession, which asks for no factor. A user with TOTP on and no trusted device gets a session from
  an emailed token alone (`ResetEntersWithoutCode`); of a magic link the code says that a second factor
  still applies (internal/auth/flows.go:375-377). A direct entry is what
  finishing a sign-in would have given exactly when the user has no TOTP (`EntryIsSignInExactly`), and the
  laws on second factors and paid-for sessions count direct entries apart.
- Deprovisioning a member is meant to end the API keys they issued (internal/apikey/service.go:215-217).
  A rotation still open when its UPDATE takes its snapshot leaves a live replacement
  (`RotationOutrunsRevocation`, `MemberKeySurvivesExactly`).
- The audit list clamps its look-ahead query of 201 rows to 200 (internal/audit/audit.go:258-260).
  `AuditLookAhead` gives the exact condition under which `has_more` is right; a client asking for the
  maximum always stops after the first min(n, 200) rows (`AuditStopsAtMaximum`).
- Schedules are validated with the normalised cadence but computed from the raw one
  (internal/analytics/schedules.go:123, 165), so a spelling with capitals or surrounding space passes validation and
  is then refused: `OnlyExactSpellingsPass`.
- `expires_at` of a ledger row is written and never read: `StrandedKeysStayInFlight`.

`dafny verify dfyconfig.toml` checks the whole project.

## Model

| member | source | states |
|---|---|---|
| IdempotencyLedger.Ledger.Claim | internal/api/idempotency.go:320-367 | only an absent key is claimed; any other request learns the row's state and changes nothing |
| IdempotencyLedger.Ledger.Complete | internal/api/idempotency.go:369-392 | the completing UPDATE is unconditional, keeps owner and fingerprint, and stores the answer's status and its body, or null for a body that is not JSON |
| IdempotencyLedger.Ledger.Release | internal/api/idempotency.go:396-407 | only a pending row is deleted |
| IdempotencyLedger.Ledger.Serve | internal/api/idempotency.go:97-142 | one request alone: the handler runs iff the key was free, a 2xx is stored, a failure leaves no trace, a repeat changes nothing |
| IdempotencyLedger.BodyRecorder.RecordHeader | internal/api/idempotency.go:460-474 | the recorder keeps the status last written and all bytes in order, 200 by default |
| IdempotencyLedger.BodyRecorder.RecordWrite | internal/api/idempotency.go:460-474 | bytes are appended and leave the status alone |
| IdempotencyLedger.RunHandler | internal/api/idempotency.go:129-138 | what is settled is what the recorder kept of the handler's calls |
| IdempotencyLedger.BytesAreTheWrites | internal/api/idempotency.go:465-474 | the recorded bytes are the written bytes, in order, whatever statuses are written in between |
| IdempotencyLedger.StatusIsLastWritten | internal/api/idempotency.go:460-463 | the recorded status is the last one written, 200 if none is |
| IdempotencyProtocol.AloneIsServe | internal/api/idempotency.go:97-142 | the protocol run without interleaving leaves the ledger as Serve does |
| IdempotencyProtocol.ClaimedRunsNeverOverlap | internal/api/idempotency.go:129-141 | in every interleaving with crashes and errors, a pending row has one live claimant |
| IdempotencyProtocol.AtMostOneSuccess | internal/api/idempotency.go:132-140 | at most one claimed run of a key ever answers 2xx |
| IdempotencyProtocol.StepsStayOnTheirKey | internal/api/idempotency.go:320-407 | a request's statements never touch another key's row |
| IdempotencyProtocol.InsertsAreReleasesPlusPresent | internal/api/idempotency.go:327-407 | rows ever inserted for a key are the rows released plus the one present |
| IdempotencyProtocol.UnguardedRunMeansRelease | internal/api/idempotency.go:112-120 | a request none of whose own statements fails runs its handler unclaimed only if the row it lost to was released between its INSERT and its SELECT |
| IdempotencyProtocol.SelectRunsUnclaimedExactly | internal/api/idempotency.go:345-366 | a request that lost its INSERT runs unclaimed iff at its SELECT every row ever inserted for the key has been released; otherwise it is answered from the row found |
| IdempotencyProtocol.AtMostOneRun | internal/api/idempotency.go:315-367 | if no request for the key meets a failing statement and its row is never released, its handler runs at most once, whatever fails on other keys |
| IdempotencyProtocol.ReleaseLetsTwoRun | internal/api/idempotency.go:317-357 | a concrete run with no failing statement in which a release between INSERT and SELECT leaves two handlers of a key running |
| IdempotencyProtocol.CompletedRowsReplayForever | internal/api/idempotency.go:359-366 | a completed row never changes; a later request runs its handler iff its own INSERT or SELECT fails, and otherwise gets the stored response or, with another fingerprint, a mismatch |
| IdempotencyProtocol.StoredResponseIsTheWinners | internal/api/idempotency.go:381-391 | a stored response has the status, 200 to 299, its own claimed run answered, and that answer's body, or null for one that is not JSON |
| IdempotencyProtocol.RetryGetsTheAnswer | internal/api/idempotency.go:97-142 | from any reachable state: after a first request that wrote a 2xx last and valid JSON bytes, and anything at all since, a repeat is answered with that status and exactly those bytes |
| IdempotencyProtocol.LostReplyStrandsTheKey | internal/api/idempotency.go:326-343 | an INSERT that takes effect although it reports an error runs its handler unclaimed and leaves a row that is in flight for ever |
| IdempotencyProtocol.EndsOfRequests | internal/api/idempotency.go:129-141 | a settling statement that reports an error has had its whole effect or none; a crash leaves the table alone; an unclaimed run settles nothing |
| IdempotencyProtocol.StrandedKeysStayInFlight | internal/api/idempotency.go:327-334 | a pending row can still be completed or released in some later run iff a live request holds it; otherwise it is answered "in flight" for ever |
| IdempotencyProtocol.SettledRowsAreFinal | internal/api/idempotency.go:369-407 | a row nobody holds never changes again |
| Rollups.RollupStore.FoldWorkspace | internal/analytics/service.go:280-352 | one transaction, any statement of which may fail: either nothing changes, or the events after last_sequence are folded and last_sequence moves to the last of them |
| Rollups.FoldRecords | internal/analytics/service.go:317-339 | the upserts of all records in order, stopping at the first that fails |
| Rollups.FoldAddsHistogram | internal/analytics/service.go:329-334 | folding events into a table that tabulates a log gives one that tabulates both |
| RollupRuns.RollupsAreHistogram | internal/analytics/service.go:280-352 | in every run of appends, commits, aborts and retries the table is the batch histogram of the events up to last_sequence, value = count >= 1 |
| RollupRuns.LastSequenceNeverDecreases | internal/analytics/service.go:340-346 | last_sequence never decreases |
| RollupRuns.FoldSplitsDoNotMatter | internal/analytics/service.go:247-249 | how the log was split into folds does not show |
| RollupRuns.QuietFold | internal/analytics/service.go:280-352 | a fold that begins and commits undisturbed does what FoldWorkspace does, an aborted one nothing |
| RollupRuns.QuietFoldCatchesUp | internal/analytics/service.go:280-352 | after it the table stands for the whole log |
| RollupRuns.TotalIsEmitted | internal/analytics/service.go:329-337 | the counts of all rows add up to the metrics the folded events emitted |
| RollupColumns.EventCountsOnce | internal/analytics/service.go:367-443 | for every metric and dimension, an event adds one exactly if it meets the condition written for that metric on its kind and data |
| RollupColumns.CellsCountEvents | internal/analytics/service.go:280-443 | in every run each cell holds the number of events of its day up to last_sequence that meet its metric's condition, and exists iff there is one |
| RollupColumns.FoldStamps | internal/analytics/service.go:329-337 | a fold sets computed_at of exactly the rows its events count towards |
| RollupRuns.SeriesLaws | internal/analytics/service.go:380-443 | per day, widget conversations started are those created with channel widget, and no-result searches never exceed searches of a surface |
| RollupRuns.SplitsAreComplete | internal/analytics/service.go:391-434 | every message counts as received or sent, every article rating as helpful or not |
| RollupRuns.ReopeningsBalanceResolutions | internal/analytics/service.go:405-415 | over a ticket's history resolutions and reopenings balance |
| Calendar.LocateIsUnique | internal/analytics/schedules.go:310 | every day lies in exactly one month of one year |
| Calendar.DateNamesDay | internal/analytics/schedules.go:310-327 | month and day of month name a day, and that day has that name |
| Calendar.AddDaysAdds | internal/analytics/schedules.go:314-321 | AddDate moves by whole days across months and years |
| Calendar.KnownDates | internal/analytics/schedules.go:310-327 | the calendar agrees with known dates and weekdays |
| Calendar.MonthsAreGregorian | internal/analytics/schedules.go:310-327 | every month has its Gregorian length, February its leap day |
| Calendar.FourCenturies | internal/analytics/schedules.go:310-327 | four centuries are 146097 days |
| Schedules.NextRunIsEarliest | internal/analytics/schedules.go:295-334 | in a fixed-offset zone the next run is the earliest matching instant strictly after now, at most 1, 7 or 31 days ahead |
| ScheduleOptions.NextRunAnswersOptions | internal/analytics/schedules.go:241-334 | read off the options map itself: a next run exists iff the cadence is known and the numbers asked for are in range, and is the earliest instant after now at which the clock of the named zone shows that hour, minute, weekday or day; defaults 09:00, Monday, the 1st |
| ScheduleOptions.UnreadableOptionsAreRefused | internal/analytics/schedules.go:265-307 | words for a number or an unknown zone are refused |
| ScheduleOptions.TwoInTheAfternoon | internal/analytics/schedules.go:265-283 | an hour of 14 arriving as a JSON number runs at 14:00 the same day, no hour at 09:00 the next |
| Schedules.NextRunIsWholeSecond | internal/analytics/schedules.go:332-333 | every next run falls on a whole second |
| Schedules.WeeklyIsEarliest | internal/analytics/schedules.go:316-322 | the weekly case, any weekday and week rollover |
| Schedules.MonthlyIsEarliest | internal/analytics/schedules.go:323-328 | the monthly case, December to January included |
| SchedulePlans.NormalizeRecipients | internal/analytics/schedules.go:207-226 | accepted iff every address parses and 1 to 20 distinct ones remain, kept in order of first appearance |
| SchedulePlans.PlanSchedule | internal/analytics/schedules.go:103-293 | what create and update accept, exactly, and what they store; a zone of the options' own stands, else the report's is filled in |
| SchedulePlans.AddressIs | internal/analytics/schedules.go:207-214 | an address is stored without the blanks at its ends and lowered throughout |
| SchedulePlans.OnlyExactSpellingsPass | internal/analytics/schedules.go:123-165 | of an input acceptable once normalised, the raw cadence is accepted iff it is already normalised; otherwise validation passes and the calculator refuses |
| ScheduleClaims.Scheduler.RunScheduledReports | internal/analytics/schedules.go:452-518 | terminates; claims due schedules first to last, each once; without an error claims all of them, leaves none due, returns their number; with every due schedule computable and mailable only a failing statement or queue stops it |
| ScheduleClaims.Scheduler.EnqueueAll | internal/analytics/schedules.go:506-514 | takes the keys not already live, each once, up to where the queue fails |
| ScheduleClaims.Scheduler.SelectDue | internal/analytics/schedules.go:468-475 | the first due schedule by (next_run_at, id) that no other claim holds, or none iff all due ones are held |
| ScheduleClaims.FreshIsOnce | internal/analytics/schedules.go:507-510 | no key is enqueued twice, and every wanted key not live is enqueued |
| ScheduleClaims.MailedExactly | internal/analytics/schedules.go:494-505 | a claimed schedule is mailed iff its report renders and the zone the report is for, the options' own or else the report's, is known or blank |
| ScheduleRuns.ClaimsNeverCollide | internal/analytics/schedules.go:468-507 | with any number of schedulers, as long as the schedule's edits store a next run past the second of last_sent_at, its claims are at strictly increasing times and never share a dedupe key |
| ScheduleRuns.ClaimsAloneNeverCollide | internal/analytics/schedules.go:449-507 | without edits of the schedule nothing is assumed: any schedulers, clocks, creations and removals |
| ScheduleRuns.EditIsSafeExactly | internal/analytics/schedules.go:165-174 | after an edit no claim time can collide with an earlier claim iff the next run stored lies in a later second than last_sent_at |
| ScheduleRuns.CurrentEditsAreSafe | internal/analytics/schedules.go:162-165 | an edit whose clock reading is no earlier than the last claim is safe |
| ScheduleRuns.StaleEditCollides | internal/analytics/schedules.go:145-182 | a concrete run: claim, edit read just before it, claim again in the same second, same dedupe keys |
| ScheduleRuns.OccurrencesAreClaimedOnce | internal/analytics/schedules.go:468-492 | between two claims of a schedule not edited meanwhile, by any schedulers, lies the next run computed at the earlier one |
| ScheduleRuns.CallIsTakes | internal/analytics/schedules.go:460-517 | what RunScheduledReports does to the table is the run of its claims, one step each |
| ScheduleRuns.ClaimAmongOthers | internal/analytics/schedules.go:460-492 | the claim loop while others claim, create, edit, remove and hold rows: it ends, the result is the run of all their steps and its own claims, and unless a statement fails it finishes iff every due row its last query saw is held by others |
| ScheduleRuns.WantedKeysAreDistinct | internal/analytics/schedules.go:506-507 | one call asks for each recipient at most once per claim |
| ScheduleRuns.BrokenScheduleBlocks | internal/analytics/schedules.go:481-485 | a first due schedule that cannot be computed keeps all others waiting |
| Keyset.PageIsNextStretch | internal/api/pagination.go:31-48 | the one-extra-row page is the next stretch of the listing; has_more iff rows remain; the cursor is its last row |
| Keyset.WalkSurvivesChanges | internal/api/pagination.go:57-67 | whatever is inserted or deleted meanwhile, a walk never repeats a row and misses none that stayed |
| Keyset.WalkIsTheListing | internal/api/pagination.go:26-48 | while rows only arrive at the newest end, the pages concatenate to the table the walk began on, and the walk ends |
| Keyset.Select | internal/api/pagination.go:26-30 | selecting the least remaining row up to the limit gives the sorted query |
| Keyset.SortedIsListing | internal/api/pagination.go:57-59 | a strict total order has one sorted listing, equal timestamps included |
| Keyset.OrdersAre | internal/api/pagination.go:57-67 | what sorted means, on times and ids: newest first or oldest first, ids deciding between equal times |
| Listings.PageParams | internal/api/pagination.go:117-139 | refused iff the limit is no number or the cursor garbled; otherwise the limit is clamped to 1..200 with 50 for absent or non-positive, and the cursor kept |
| Listings.KeyPageIsExact | internal/apikey/service.go:152-184 | the API-key page is the exact keyset page at every limit 1..200 |
| Listings.AuditPageIsExact | internal/audit/audit.go:257-305 | the audit page is the exact keyset page at every limit 1..199 |
| Listings.AuditLookAhead | internal/audit/audit.go:257-261 | at every limit the rows are right, and has_more is right iff the limit is below 200 or at most 200 rows remain |
| EndpointWalks.BrowsingListsTheTable | internal/api/apikey_routes.go:27-49 | following next_cursor through the API-key endpoint (limits 1..200) or the audit endpoint (1..199) lists the table the walk began on, and ends |
| EndpointWalks.BrowsingSurvivesChanges | internal/api/audit_routes.go:57-92 | whatever changes meanwhile, neither endpoint repeats a row, and none that stayed is missed |
| EndpointWalks.AuditStopsAtMaximum | internal/audit/audit.go:257-261 | at limit 200 has_more is never true and a client gets exactly the first min(n, 200) rows |
| EndpointWalks.AuditMaximumIsEnough | internal/audit/audit.go:257-261 | so it gets the whole log iff there are at most 200 rows |
| Listings.FarFutureEndsTheYear9999 | internal/audit/audit.go:262-265 | the stand-in for an absent cursor is the last nanosecond of the year 9999 |
| Listings.QueryLimits | internal/apikey/service.go:152-158 | limits 1 to 201 pass the API-key query unclamped and 1 to 200 the audit query; others become 100, 200 or 201 |
| Listings.Rollups | internal/analytics/service.go:471-488 | terminates; in order and each once, every matching row that is there throughout, whatever is folded meanwhile; exactly the listing of a table that does not change |
| Listings.ListSessions | internal/auth/flows.go:573-590 | terminates; most recently seen first, every live session that keeps its place throughout, no place twice; exactly the listing of a table that does not change |
| Listings.ExportCustomers | internal/api/customer_routes.go:129-150 | in directory order every customer that keeps its place throughout, up to row 10000; exactly the first min(n, 10000) rows of a table that does not change |
| Lockout.AccountRow.LockState | internal/auth/flows_repository.go:19-35 | reports whether a lock is in force and clears one that has passed |
| Lockout.AccountRow.RecordFailedAttempt | internal/auth/flows_repository.go:43-60 | counts, and locks from the limit on |
| Lockout.LockedExactlyAtLimit | internal/auth/flows_repository.go:21-64 | under every interleaving locked_until is set exactly when failed_attempts has reached the limit |
| Lockout.ChecksAreBounded | internal/auth/flows.go:92-109 | in a span shorter than the window, width overlapping sign-ins check at most limit + width - 1 wrong passwords, plus failures never written |
| Lockout.OneAtATime | internal/auth/flows.go:92-109 | one at a time, with every failure written, at most limit |
| Lockout.BoundIsReached | internal/auth/flows.go:92-109 | the bound is attained for every limit and width |
| Challenges.ChallengeTable.Load | internal/auth/flows_repository.go:358-376 | found iff unused and in time, expired iff unused and late |
| Challenges.ChallengeIsBounded | internal/auth/flows.go:486-543 | width overlapping verifications check at most width + 4 wrong codes, plus one for each attempt never written, and yield at most width sessions, each with the user and method of the first factor |
| Challenges.OneAtATime | internal/auth/flows.go:486-543 | one at a time, with every attempt written: at most five wrong codes; at most one session |
| Challenges.SessionBoundIsReached | internal/auth/flows.go:487-518 | width verifications that load first can each be given a session |
| Challenges.WrongBoundIsReached | internal/auth/flows.go:487-518 | width + 4 wrong codes can be checked |
| SingleUse.TokenStore.Consume | internal/auth/flows_repository.go:107-256 | only an unused row matches and it is spent, expired or not; magic links also need the current address; a redeemed verification token marks the address verified, or fails doing so and is spent all the same |
| SingleUse.RedeemedAtMostOnce | internal/auth/flows_repository.go:102-126 | under any interleaving a token comes to something at most once; presenting it late spends it |
| SingleUse.FirstPresentationDecides | internal/auth/flows_repository.go:160-181 | the first presentation of an unused token (for a magic link, of a current address) redeems iff in time, and every later one is refused |
| SingleUse.RecoveryCodes.EnableTOTP | internal/auth/flows_repository.go:293-321 | secret and codes replaced together or not at all; refused iff two hashes are equal or a statement fails |
| SingleUse.RecoveryCodes.ConsumeRecoveryCode | internal/auth/flows_repository.go:394-404 | accepted iff stored and unused, and then used |
| SingleUse.CodesAreConserved | internal/auth/flows_repository.go:293-415 | redemptions plus unused codes stay the number stored at enrolment |
| SingleUse.UsedCodeStaysUsed | internal/auth/flows_repository.go:390-393 | an accepted code is never accepted again |
| Sessions.SessionStore.SessionUser | internal/auth/repository.go:98-118 | resolves iff neither revoked nor expired, and bumps last_seen_at |
| Sessions.SessionStore.RevokeAllSessions | internal/auth/flows_repository.go:470-481 | afterwards a session resolves iff it did and belongs to another user or is the kept one |
| Sessions.SessionStore.RevokeSessionById | internal/auth/flows_repository.go:455-467 | scoped to the owner; found iff a live session had that id |
| Sessions.RevocationIsPermanent | internal/auth/flows_repository.go:470-481 | a session opened for a user, whatever happened in between, never resolves again once the user's sessions are revoked without sparing it |
| Sessions.SessionsExpire | internal/auth/repository.go:98-118 | no run lets a session outlive the expiry it was opened with |
| Sessions.RevocationIsExact | internal/auth/flows.go:647-652 | an empty token spares none; other users' rows are untouched |
| Sessions.OneRevocationIsExact | internal/auth/flows_repository.go:455-467 | revoking one session by id changes exactly the owner's live session of that id |
| Sessions.SessionsEndOnlyByRevocation | internal/auth/repository.go:98-126 | before it expires, a session stops resolving only through a step that names it, its id, or its user without sparing it |
| CredentialFlows.CredentialStore.SignInWithTrustedDevice | internal/auth/flows.go:78-140 | every outcome and what it leaves: a locked account is not checked, a wrong password only counts, a right one gives one of session and challenge |
| CredentialFlows.CredentialStore.FinishUserSignIn | internal/auth/flows.go:142-160 | session iff no second factor is due, else challenge, carrying the first factor |
| CredentialFlows.CredentialStore.RedeemMagicLink | internal/auth/flows.go:358-384 | the link is burnt whatever follows; a redeemed one verifies the address and finishes the sign-in |
| CredentialFlows.CredentialStore.VerifyTOTPChallenge | internal/auth/flows.go:486-543 | the exact refusal of a challenge that is not open; a wrong code is charged; an accepted one spends the recovery code it needed and consumes before the session is issued |
| CredentialFlows.CredentialStore.ResetPassword | internal/auth/flows.go:231-259 | a weak password changes nothing; otherwise token, password, sessions, devices and lock change in that order as far as the flow gets |
| CredentialFlows.CredentialStore.HandleResetPassword | internal/api/auth_flow_routes.go:180-200 | a completed reset is followed by a direct entry of its user, anything else by nothing |
| CredentialFlows.CredentialStore.IssueSession | internal/api/auth_routes.go:120-131 | a password session for any existing user, or nothing |
| CredentialFlows.CredentialStore.ResetPasswordForAdmin | internal/auth/flows.go:266-293 | the statements of a reset without a token |
| CredentialFlows.CredentialStore.VerifyEmail | internal/auth/flows.go:189-195 | the token is spent before the address is marked |
| CredentialFlows.CredentialStore.ChangePassword | internal/auth/flows.go:301-324 | mismatch before weakness; sessions but the kept one and all trusted devices revoked |
| CredentialFlows.CredentialStore.RevokeAllCredentials | internal/auth/flows.go:615-620 | all sessions, then all trusted devices |
| CredentialFlows.SessionsArePaidFor | internal/auth/flows.go:54-62 | in every run of flows a user's sessions by a factor are at most the completed sign-ins with it and the direct entries, and sessions plus pending challenges at most the first factors presented and the direct entries |
| CredentialFlows.SecondFactorHolds | internal/auth/flows.go:115-126 | while a user has TOTP on and no trusted device, every session gained stands for an accepted code or a direct entry (signup, invitation, reset) |
| CredentialFlows.EntryIsSignInExactly | internal/auth/service.go:160-181 | a session from a direct entry is one that finishing a sign-in would have given iff the user has no TOTP |
| CredentialFlows.ResetEntersWithoutCode | internal/api/auth_flow_routes.go:180-200 | for every TOTP user with a redeemable reset token, a run of reset and entry with no code accepted that opens one session, which resolves for its lifetime |
| CredentialFlows.StepIsPaidFor | internal/auth/flows.go:78-160 | one call is worth at most one session or one challenge, and only if it presents a first factor, completes a challenge or enters directly |
| CredentialFlows.ResetIsPermanent | internal/auth/flows.go:226-259 | after a reset no earlier session, trusted device or that token works again in any later run |
| CredentialFlows.ResetLeavesStanding | internal/auth/flows.go:226-259 | a reset leaves TOTP, recovery codes, every challenge and other users alone; a challenge issued on the old password still becomes a session with a right code |
| CredentialFlows.StaleSignInSurvives | internal/auth/flows.go:100-128 | a sign-in that matched the old password before a reset, password change or deprovisioning and goes on after it opens a session iff the user has no TOTP, and otherwise draws a challenge |
| CredentialFlows.ChangeSparesOne | internal/auth/flows.go:295-324 | after a change the only earlier session that can still resolve is the kept one |
| CredentialFlows.RevocationIsPermanent | internal/auth/flows.go:612-620 | after deprovisioning or an administrator's reset no earlier session or trusted device works again |
| CredentialEffects.VerifiedSignIn | internal/auth/flows.go:486-543 | a verification that signs in answered an open challenge of a TOTP user with a code the authenticator vouches for, or with a recovery code unused before and used after; no other code changes, and the challenge is used |
| CredentialEffects.VerifiedSession | internal/auth/flows.go:523-543 | its session belongs to the challenge's user, carries the first factor and lives for the session lifetime |
| CredentialEffects.AcceptedAndUnusedAddUp | internal/auth/flows_repository.go:394-404 | over every run of flows without a new enrolment, recovery codes accepted, codes spent by verifications that then failed and codes still unused add up to those unused at the start |
| CredentialEffects.CodeEntersOnce | internal/auth/flows.go:500-508 | a recovery code that signed its user in is accepted by no later verification, whatever happens in between short of a new enrolment |
| CredentialEffects.ChallengeIsSpent | internal/auth/flows.go:486-518 | over every run of flows a challenge signs in at most once and takes at most five wrong codes |
| CredentialEffects.RefusalsAre | internal/auth/flows_repository.go:358-376 | why a verification is refused before its code is looked at: used or unknown, late, five attempts, no TOTP, in that order |
| CredentialEffects.TokenRefusalsAre | internal/auth/flows_repository.go:107-256 | of the three emailed tokens: unknown or used is invalid and changes nothing, late is expired and spent, a link for another address invalid and spent |
| CredentialEffects.RightPasswordEnters | internal/auth/flows.go:92-128 | a right password on an unlocked account gives a session iff TOTP is off or the device is trusted, else a challenge of five minutes; both carry the password factor and the failures are forgotten |
| CredentialEffects.WrongPasswordCounts | internal/auth/flows.go:100-109 | a wrong password adds one failure, locks from the limit on, five if none is set, and changes nothing else |
| CredentialEffects.UntrustedDevicesAreChallenged | internal/auth/trusted_devices.go:166-178 | only a live device of the user is untrusted, nothing else changes, and a sign-in of a TOTP user from it then gets no session |
| CredentialEffects.ConfirmationVerifies | internal/auth/flows.go:189-195 | a confirmed address is marked verified and its token spent |
| CredentialEffects.LinkVerifies | internal/auth/flows.go:358-384 | a redeemed link was in time and for the current address, marks it verified, and what it opens carries the magic-link factor |
| PasswordChanges.ResetTakesEffect | internal/auth/flows.go:231-259 | a completed reset leaves the new password, a clear lock, the token used, and every session and device of the user ended, nothing of anyone else's |
| PasswordChanges.ChangeTakesEffect | internal/auth/flows.go:301-324 | a completed change leaves the new password and the kept token's session |
| PasswordChanges.NewPasswordDecides | internal/auth/flows.go:92-128 | after any way of setting a password, over every run in which it is not set again, the new one is never called wrong and no other gets past the first factor |
| ApiKeys.KeyStore.Create | internal/apikey/service.go:58-85 | a blank name is refused; otherwise one key with cleaned scopes is stored, or nothing changes |
| ApiKeys.KeyStore.Rotate | internal/apikey/service.go:90-146 | both writes or none; only a live key of the workspace rotates; blank name, no scopes and no expiry keep the old ones |
| ApiKeys.KeyStore.RevokeAllForMember | internal/apikey/service.go:218-226 | exactly the member's live keys in the workspace that its snapshot saw stop being live |
| ApiKeys.KeyStore.Authenticate | internal/apikey/service.go:232-257 | a principal iff some live, unexpired key has the token, with that key's workspace, creator and cleaned scopes, and its use is recorded |
| ApiKeys.LineagesHaveOneLiveKey | internal/apikey/service.go:87-146 | in every run a rotation lineage has at most one unrevoked key and one workspace, and tokens differ |
| ApiKeys.RotateKeepsLiveCount | internal/apikey/service.go:87-89 | a rotation swaps one live key for another of its lineage, or changes nothing |
| ApiKeys.RotationCarriesOver | internal/apikey/service.go:103-146 | a rotated key has the workspace, root and, unless the request says otherwise, the name, scopes and expiry of the old one, and the rotating member as its creator |
| ApiKeys.RevokedForever | internal/apikey/service.go:201-245 | a revoked key keeps its revocation time and never authenticates again |
| ApiKeys.MemberKeySurvivesExactly | internal/apikey/service.go:215-226 | a member's key authenticates after the revocation iff it did before and its insertion was not seen |
| ApiKeys.RotationOutrunsRevocation | internal/apikey/service.go:103-137 | a rotation open at the snapshot that commits first leaves a live replacement; one seen does not |
| ApiKeys.GrantedScopesAreStored | internal/apikey/service.go:252 | the scopes granted are the scopes stored |
| Text.UniqueStrings | internal/apikey/service.go:269-284 | the non-blank trimmed values, each once |
| Text.UniqueIsIdempotent | internal/apikey/service.go:269-284 | cleaning a cleaned list changes nothing |
| Text.TrimIsTheMiddle | internal/apikey/service.go:269-284 | trimming takes the blanks off both ends and nothing else |
| Text.LowerIs | internal/api/customer_routes.go:666 | lowering maps A to Z to a to z place by place and keeps every other ASCII character |
| Redaction.SensitiveEventKey | internal/api/customer_routes.go:665-678 | the loop over the markers decides Sensitive |
| Redaction.SensitiveExactly | internal/api/customer_routes.go:665-678 | a key is sensitive iff, stripped and lowered, it contains one of thirteen words, each named, or is one of four address names |
| Redaction.WordsAreHidden | internal/api/customer_routes.go:667-671 | each of the thirteen words makes any key around it sensitive |
| Redaction.ClearExamples | internal/api/customer_routes.go:638-678 | password, user-e_Mail and Client IP are hidden; shipping and name are kept |
| Redaction.StrippingDrops | internal/api/customer_routes.go:666 | dashes, underscores and spaces are dropped wherever they stand, and nothing else is |
| Redaction.RedactIsIdempotent | internal/api/customer_routes.go:638-663 | redacting twice is redacting once |
| Redaction.RedactHidesExactlyTheSensitive | internal/api/customer_routes.go:629-663 | two payloads redact to the same tree iff they differ, at any depth, only under sensitive keys |
| Redaction.UnguardedPathsAreKept | internal/api/customer_routes.go:638-663 | off the sensitive keys every key, array length and leaf is kept |
| Redaction.GuardedPathsAreHidden | internal/api/customer_routes.go:641-644 | under a sensitive key the marker shows and nothing below it |
| Redaction.SpellingDoesNotMatter | internal/api/customer_routes.go:666 | case, dashes, underscores and spaces in a key do not matter |
| Redaction.MarkersSurviveExtension | internal/api/customer_routes.go:667-671 | a key holding a marker stays sensitive however it is extended |

## Left out

- HTTP routing, decoding, cookies, CORS, websockets, email and the command line: plumbing.
- UserIdempotency and the widget variant: the same protocol under another scope; `Key.scope` stands for any.
- Ledger retention: `expires_at` is written and indexed but nothing reads it, so rows do not age out.
- bcrypt, SHA-256, random tokens: passwords and tokens stand for their hashes, which makes hashing injective; drawn ids and tokens are parameters, and a collision is refused by the unique index. NewToken and HashPassword errors are covered by the failing choice of a flow.
- The TOTP algorithm: an arbitrary predicate of secret, code and time. NormalizeRecoveryCode is not applied; a code stands for its normalised form.
- Cursor JSON and base64url: cursors are records.
- Daylight-saving transitions: zones have a fixed offset.
- jsonb canonicalisation and 64-bit integer widths. `Text.Lower` lowers the letters whose lower case is ASCII, which decides every marker and cadence; addresses are lowered by whatever function of characters unicode.ToLower is.
- Ids are naturals in collation order where they only break ties.
- ScheduleClaims.Scheduler.RunScheduledReports: does not model other schedulers within the call, which `ScheduleRuns.ClaimAmongOthers` does for the claims. The queue keeps every key live during one call.
- User and workspace deletion, and the rows it cascades to, are not modelled.
- ScheduleRuns: ids of schedules are drawn fresh, so a creation with a used id does nothing.
- Listings.ListSessions, Listings.ExportCustomers: do not promise a row whose last_seen_at moves during the loop: it may be passed over.
- Listings.Rollups, Listings.ListSessions: finitely many rows exist during one call.
- Listings.KeyPageIsExact, Listings.AuditPageIsExact: rows have times after the zero time, as the NOT NULL columns defaulting to now() give them.
- CredentialFlows: each flow runs alone; interleaved statements are in `Lockout`, `SingleUse`, `Challenges` and `Sessions`. Looking a user up by address is a parameter, last_sign_in_at and last_used_at are not kept. Registration and the session that follows it are two calls.
- FoldAll, the summary, drilldown, workload and usage queries, and CSV rendering: loops over or reports on what is modelled, computed by the database.
- The jobs, events, conversation, ticket, customer, portal, widget, workspace and SLA packages are not part of this model beyond an ordered event log, an enqueue that may report a duplicate, and a keyset query.
- Error-to-status mapping, role checks and configuration: single-branch facts.
