# Wardress: a model of its protocols, with proofs

Wardress watches web sites for defacement: it captures a trusted baseline of a
site, scans the site on an adaptive schedule, raises alerts, fires remediation
webhooks, and offers an assistant that can act for its user. Almost everything
that must not go wrong in it is decided by rows of a database that many
processes write at once, and arbitrated by conditional updates whose row count
picks one winner. This project models those protocols and proves what they keep.

`dafny verify dfyconfig.toml` checks the whole project.

## How it is built

A protocol is a `System` value (clock, tables, queued messages, what each
worker or request is in the middle of), an `Action` for every transaction that
commits on its own, and a total function `Apply`; an action whose row predicate
fails leaves the tables alone. `Run` folds any sequence of actions, so a lemma
about `Run(Init, acts)` for every `acts` is a statement about every
interleaving of every number of actors, with crashes wherever an actor has
nothing committed. Histories (`log`) are part of the value but no step reads
them. Beside the state machine stands a class whose fields are the tables and
whose methods are the endpoints and tasks as the code writes them; their
`ensures` equate the new tables with the same row functions.

Times are integers counting microseconds, the resolution of the stored
timestamps, except in `RateLimit`, whose monotonic clock is a real number.

| file | part of Wardress |
|---|---|
| Regex, PatternReader, TreeSampler, PatternSampler | the regex-string sampler of the dataset builder, as a function of its draws, against the language of the pattern |
| RemediationModel, RemediationCreation, RemediationSafety, RemediationOrder, RemediationOnce, RemediationAgain, RemediationRecovery, RemediationStore | remediation executions: creation, confirm, dismiss, resweep, delivery |
| TokenRotation, TokenReads, LoginLockout | refresh-token rotation as section 4.14.2 of RFC 9700 recommends it, and the login lockout |
| ScanDispatch, ScanTick | the scan dispatcher, rescheduling and scan-now |
| BaselineAnchor | rebaseline requests and capture workers |
| AgentTurn, AgentReply, AgentGuard | one assistant turn, and the confirmation cards |
| RateLimit, RouterCache | the fixed-window limiter and the router cache |
| BulkImport, ImportReport | the row loop of a bulk import, and what its report says of each row |
| DatasetSplits, SplitBalance, PlanBalance, SmokePlan | train, validation and test splits, and class balancing |

## What the code does not keep

Where a documented property is false of the code, the code is modelled as it
is, one lemma gives an input on which it fails, and another the condition on
which it holds.

- Remediation and the resweep say that a delivery is never sent twice. It is, in
  two ways: a worker dies after the POST and before its outcome is committed, and
  a later message claims the row again (`RemediationOnce.CrashFiresTwice`); or
  confirm's path for a dead queue puts a row back that another message has
  delivered meanwhile, and a second confirm sends it again
  (`RemediationOrder.TakenBackFiresTwice`). There is no third way: between two
  POSTs of one execution one of these two steps happened
  (`RemediationOnce.PostedAgainAfterForgetting`), a run without them POSTs it at
  most once (`RemediationOnce.PostedOnce`), and after either step, unless the row
  is dismissed, some continuation of the run sends it
  (`RemediationAgain.ForgottenIsSentAgain`).
- An execution keeps the order of its statuses in a run if and only if no committed
  confirm of it is taken back (`RemediationOrder.StatusOrder`); the second run above
  breaks it.
- A refresh that loses the rotation race is meant to sign the user out. After its
  rollback the code reads the user id from the row it still holds; the repository
  notes elsewhere that a rollback expires such rows. If the row cannot be read
  again the request ends before its sweep and the winner's token stays live
  (`TokenRotation.LostRaceLeavesWinner`); the sweep starts if and only if it can
  (`TokenRotation.LostRaceStartsSweep`).
- `create_pending` cancels the cards it had read as pending without asking again,
  so a card that was confirmed in between, and whose call may be running, ends up
  `cancelled` (`AgentGuard.ConfirmedThenCancelled`; exactly when:
  `AgentGuard.SettledStatus`).
- "One pending action per conversation" fails when two turns of a conversation
  propose at the same time (`AgentGuard.TwoPending`). A run keeps it if and only if
  no proposal commits beside a pending card it had not read
  (`AgentGuard.OnePendingExactly`; of one proposal: `AgentGuard.FreezeSupersedes`).
- A capture message that is live twice can spoil the current baseline
  (`BaselineAnchor.DuplicateSpoils`). A run keeps every current baseline trusted if
  and only if no step of it is a by-id write to one
  (`BaselineAnchor.AnchorsTrustedExactly`), and with one live delivery per capture
  there is no such step (`BaselineAnchor.AnchorNeverLost`).
- The dispatcher supersedes a stale scan by its id alone, so a scan that completes
  after it was judged stale is failed again (`ScanDispatch.CompletedScanLostRun`;
  exactly when: `ScanDispatch.CompletedScanLost`); scan-now, which uses a
  conditional update, leaves such a scan alone.
- After an aborted import a row can stay `skipped` as a duplicate of a row that is
  now lost (`BulkImport.SkippedForALostRow`); the earlier row of a reported duplicate
  is reported created if and only if the import was not aborted
  (`BulkImport.DuplicateInReport`). The row that hit the abort, and no other, is an
  error without a detail (`BulkImport.NoDetailMeansAbort`).
- "Train always retains at least half of any group" fails for a group of exactly
  three (`DatasetSplits.ThreeSplitEvenly`; exactly when: `DatasetSplits.TrainKeeps`).
- "Per-split class balance is structural at every scale" fails at the smoke scale:
  of 42 samples each, two attack samples and six benign ones are held out for each
  of test and validation (`SplitBalance.SmokeUnbalanced`). The splits are balanced
  if and only if the classes are of one size and their groups can give the same
  number, up to the budget (`SplitBalance.BalancedExactly`).
- `rebalance_to_equal` is documented to grow the largest axes; the code goes round
  all axes in alphabetical order, and at the smoke scale an axis of two grows while
  larger ones do not (`SmokePlan.SmallerAxisGrows`; exactly when not:
  `PlanBalance.LargestGrowExactly`).
- The sampler's comment says that a dot with a count from none to N, N at least one,
  is served by one space; it emits two characters or more, which such a dot does not
  match for N of one (`PatternSampler.DotTooLong`; exactly when it does:
  `PatternSampler.SampleDot`).
- The limiter's advised wait is rounded down, so a client that obeys it can be
  refused once more (`RateLimit.AdviceTooShort`; exactly when not:
  `RateLimit.RetryAdvice`).

## Model

| member | source | states |
|---|---|---|
| PatternSampler.SamplePattern | backend/tools/build_fusion_dataset.py:286-382 | terminates on every text; for every pattern of the fragment, dots included, and every sequence of draws it succeeds, returns the very string the sampler on trees makes of those draws, which is one of the pattern's language and within its length bound, and uses as many draws |
| TreeSampler.SampledIn | backend/tools/build_fusion_dataset.py:286-382 | what the sampler on trees makes of any draws is a string of the pattern's language |
| TreeSampler.SampledExactly | backend/tools/build_fusion_dataset.py:253-382 | the strings that can come out of a pattern are exactly those with counts from the drawn ranges, a space for every white space, class members from the pool, filler of lower-case letters and spaces for a dot, and any branch of a group |
| TreeSampler.SampledLength | backend/tools/build_fusion_dataset.py:253-382 | no draw makes a string longer than the pattern's bound: two for a star, three for a plus, eight more than the lower bound for braces, fourteen for a dot |
| PatternSampler.SampleEscape | backend/tools/build_fusion_dataset.py:295-314 | reads one printed escape with its quantifier, resumes right behind it, and emits what the tree sampler makes of it; an anchor emits nothing; fails exactly at the end of the text |
| PatternSampler.SampleClass | backend/tools/build_fusion_dataset.py:315-333 | the same for a character class; an unclosed one fails |
| PatternReader.ReadMembers | backend/tools/build_fusion_dataset.py:317-329 | the pool read from a printed class is the pool of its members, member by member |
| PatternReader.PoolMatches | backend/tools/build_fusion_dataset.py:317-329 | the pool holds exactly the characters the class matches, but perhaps the underscore of a word escape, and is not empty |
| PatternSampler.SampleGroup | backend/tools/build_fusion_dataset.py:334-350 | the same for a group: it finds its own closing parenthesis, and every repetition draws a branch afresh |
| PatternSampler.GroupEnd | backend/tools/build_fusion_dataset.py:335-341 | on every text it stops at the first place where the parentheses are level again; for a balanced body that is the one matching it, however deep the nesting |
| PatternSampler.SampleRun | backend/tools/build_fusion_dataset.py:362-379 | a run of literals is emitted as it stands and a quantifier repeats only its last character; a lone special character is emitted as it is |
| PatternSampler.SampleDot | backend/tools/build_fusion_dataset.py:351-361 | a dot yields two to fourteen characters, a space at both ends, and for every draw they are a word of the quantified dot if and only if the quantifier allows some count from two to fourteen: the dots that belong to the fragment |
| PatternSampler.DotTooLong | backend/tools/build_fusion_dataset.py:354-357 | a dot repeated at most once matches no such word, against the comment |
| PatternReader.SplitAlternation | backend/tools/build_fusion_dataset.py:268-283 | the pieces joined with bars give the text back, and for a printed alternation they are exactly its printed branches |
| PatternReader.ReadQuantInverse | backend/tools/build_fusion_dataset.py:243-250 | a printed quantifier is read back whole, with the position behind it, whatever follows |
| PatternReader.DrawnAllowed | backend/tools/build_fusion_dataset.py:253-265 | every count that is drawn for a quantifier is one the quantifier allows |
| PatternReader.ReadQuantOnly | backend/tools/build_fusion_dataset.py:240-250 | whatever is read as a quantifier is the printed form of one |
| PatternReader.QRepsDrawn | backend/tools/build_fusion_dataset.py:253-265 | none or one for a question mark, one to three for a plus, none to two for a star, and from the lower bound to the upper one or eight more for braces, whatever is drawn |
| PatternReader.QRepsReaches | backend/tools/build_fusion_dataset.py:253-265 | each of these counts is the answer to some draw |
| Regex.BranchesBalanced | backend/tools/build_fusion_dataset.py:268-283 | the printed form of a group body is balanced, and a bar outside parentheses separates branches: what the splitter relies on |
| RemediationSafety.ClaimSpacing | backend/worker/remediation_tasks.py:49-110 | in every run two successful delivery claims of one execution are more than ten minutes apart, and at most one worker is ever between claim and outcome of an execution |
| RemediationSafety.ClaimTaken | backend/worker/remediation_tasks.py:55-70 | a won claim keeps the claim invariant: nobody else holds a claim on the execution then, because the stale bound of 600 s exceeds the 480 s a worker may run, and its stamp is more than ten minutes later than any earlier one |
| RemediationSafety.OutcomeWritten | backend/worker/remediation_tasks.py:105-110 | the unconditional outcome write keeps the claim invariant: it never moves the stamp backwards |
| RemediationSafety.AutoFireCooldown | backend/app/remediation.py:107-162 | in every run unattended firings of one hook are created at least 30 minutes apart, their rows stay visible to the cooldown query as long as they exist, and every POST comes after such a creation or an operator's confirm |
| RemediationSafety.CreateOneCooldown | backend/app/remediation.py:108-161 | one pass of the hook loop keeps the cooldown, given the rows the earlier passes added |
| RemediationOrder.StatusOrder | backend/app/routers/remediation.py:302-358 | a run keeps an execution on the path pending_confirm, queued, succeeded or failed (or dismissed) if and only if no committed confirm of that execution is taken back because its enqueue failed |
| RemediationOrder.TakingBackBreaks | backend/app/routers/remediation.py:350-358 | taking a confirm back always leaves the path: by then the row is queued or has an outcome |
| RemediationOrder.DismissedNeverPosted | backend/app/routers/remediation.py:379-395 | a row that is dismissed or awaits confirmation was never POSTed if no confirm of that row was taken back, whatever happened to other rows |
| RemediationOrder.TakenBackFiresTwice | backend/app/routers/remediation.py:350-358 | a concrete run in which a delivered webhook is taken back, confirmed again and sent a second time |
| RemediationOnce.PostedAgainAfterForgetting | backend/worker/remediation_tasks.py:92-110 | in every run, between two POSTs of one execution a worker died between its POST and its outcome, or a confirm was taken back whose row already had its outcome |
| RemediationOnce.PostedOnce | backend/worker/remediation_tasks.py:49-110 | a run without those two steps for an execution POSTs it at most once |
| RemediationOnce.HandledStep | backend/worker/remediation_tasks.py:105-110 | a delivery that has its outcome, or a live worker about to write it, stays that way in a step if and only if the step is neither of the two |
| RemediationOnce.PostsUnhandled | backend/worker/remediation_tasks.py:55-70 | what is recorded or about to be recorded is never sent |
| RemediationOnce.CrashFiresTwice | backend/worker/beat_tasks.py:327-375 | a concrete run that confirms nothing and keeps the order of statuses of every row, in which a worker dies after its POST and a later message sends again |
| RemediationAgain.ForgottenIsSentAgain | backend/worker/beat_tasks.py:327-375 | the converse over runs: after either forgetting step, unless the row is dismissed, some continuation of the run POSTs the execution |
| RemediationRecovery.BoundedRecovery | backend/worker/beat_tasks.py:358-375 | from every reachable state a queued row with r rows ahead of it is terminal after any number of rounds n with 200 n > r, whatever deliveries, crashes and creations happen between the rounds |
| RemediationRecovery.RoundProgress | backend/worker/beat_tasks.py:358-375 | one round ends the row or takes a full page of 200 rows off its front |
| RemediationRecovery.NextRoundExists | backend/worker/beat_tasks.py:358-369 | whatever the table holds, the resweep query has an answer, so a next round exists from every state without an open delivery |
| RemediationRecovery.SweepExactly | backend/worker/beat_tasks.py:358-369 | the resweep picks rows queued for more than five minutes, at most 200, and all of them unless it picks 200 |
| RemediationRecovery.DeliverEnds | backend/worker/remediation_tasks.py:70-110 | every branch behind a won claim writes succeeded or failed and touches no other row |
| RemediationRecovery.LeftOutBehindFullPage | backend/worker/beat_tasks.py:358-369 | a stranded row the oldest-first query leaves out has a full page of rows not younger than itself in front |
| RemediationCreation.CreateAllExactly | backend/app/remediation.py:100-162 | for a whole list of hooks: old rows stay; a row is made exactly for each hook whose threshold the risk reaches and that had none for the scan, queued if the hook is not manual and had no outbound attempt within half an hour, else parked; exactly the queued rows of such hooks are handed out |
| RemediationCreation.CreateOneExactly | backend/app/remediation.py:108-161 | one hook: nothing below its threshold, a new row of that status, or an existing queued one handed out |
| RemediationStore.ExecutionTable.CreateForFlaggedScan | backend/app/remediation.py:100-169 | the hook loop creates what the model's creation step creates, in order, and a fault rolls the rows back but still hands the ids out |
| RemediationStore.CreateOneUnique | backend/app/remediation.py:111-120 | one pass keeps at most one execution per hook and scan |
| RemediationStore.ExecutionTable.Claim | backend/worker/remediation_tasks.py:55-70 | the row is stamped for exactly the callers whose predicate holds, and nothing else changes |
| RemediationStore.ClaimAgain | backend/worker/remediation_tasks.py:49-70 | a queued row can be claimed at once if it never was, and else after more than ten minutes; any other never |
| RemediationStore.ExecutionTable.Fire | backend/worker/remediation_tasks.py:38-116 | each result is returned exactly in its case, and only a won claim changes the row |
| RemediationStore.ExecutionTable.Confirm | backend/app/routers/remediation.py:287-364 | confirm succeeds exactly on a pending row or a stale confirmed one; a dead queue ends in pending_confirm with nothing queued |
| RemediationStore.ConfirmSteps | backend/app/routers/remediation.py:302-358 | what Confirm does undisturbed is two steps of the state machine: the claim, and the publish or its taking back |
| RemediationStore.ConfirmAgain | backend/app/routers/remediation.py:302-330 | a confirmed row can be confirmed again after more than ten minutes in the queue, one queued unattended never, and none with an outcome |
| RemediationStore.CreateStep | backend/app/remediation.py:100-169 | the state machine's creation step does what CreateForFlaggedScan does, and publishes each id handed out but for the lost ones |
| RemediationStore.ExecutionTable.Dismiss | backend/app/routers/remediation.py:371-402 | dismiss succeeds exactly on a pending row |
| RemediationStore.ExecutionTable.Resweep | backend/worker/beat_tasks.py:370-375 | every picked row is published once more, and a failed publish stops no other |
| TokenRotation.RotationChains | backend/app/routers/auth.py:226-305 | in every interleaving links are injective, acyclic and point forward to a committed row of the same user and session start, a rotated token is revoked, and a session has at most one live token |
| TokenRotation.SessionCeiling | backend/app/routers/auth.py:67-72 | for every chain length each token the code issues expires by its chain's start plus the ceiling, and no refresh decided at or after that instant succeeds; chains rooted in a row without a session start count from its creation |
| TokenRotation.LostRaceStartsSweep | backend/app/routers/auth.py:279-305 | losing the rotation race leaves no successor behind, and starts the same sweep if and only if the row can be read again after the rollback; winning it starts none |
| TokenRotation.LostRaceLeavesWinner | backend/app/routers/auth.py:288-303 | a concrete run of two refreshes of one cookie in which the loser ends in an error and the winner's token stays live |
| TokenRotation.ReuseSignsOut | backend/app/routers/auth.py:226-305 | from the presented token: once a step reads a token that was already rotated, or loses the race for one whose row it can still read, then whatever happens before and after the sweep this starts, the user of that token has no live token until the next login |
| TokenReads.RefreshedWasFit | backend/app/routers/auth.py:207-305 | in every run a refresh that succeeds was decided by an earlier read of its token at which the user was active and the token neither revoked, rotated nor expired, within the session |
| TokenReads.ReadExactly | backend/app/routers/auth.py:226-262 | a read opens a rotation exactly for such a token, with the session's start and its capped expiry, and a sweep exactly for a rotated one |
| TokenRotation.RevokedExactly | backend/app/routers/auth.py:226-240 | signing a user out revokes that user's live tokens and leaves every other token as it was |
| TokenRotation.ExpiryExactly | backend/app/routers/auth.py:67-72 | an expiry is the earlier of one refresh period from now and the end of the session, which without a recorded start began with its row |
| TokenRotation.SignedOutStays | backend/app/routers/auth.py:207-338 | without a login a user with no live token never gets one |
| TokenRotation.OneLive | backend/app/routers/auth.py:279-287 | two live tokens of one chain are the same token |
| TokenRotation.RotateKeeps | backend/app/routers/auth.py:262-305 | inserting a successor and claiming the presented token keeps chains and ceiling, also when the claim is lost |
| TokenRotation.TokenStore.Issue | backend/app/routers/auth.py:75-86 | a login adds one token whose session starts now and whose expiry is capped |
| TokenRotation.TokenStore.Rotate | backend/app/routers/auth.py:262-305 | exactly an unrevoked, unrotated token is claimed; a lost claim leaves no successor, and the family revoked if the row can be read again |
| TokenRotation.TokenStore.Refresh | backend/app/routers/auth.py:207-312 | succeeds exactly for an unrevoked, unrotated, unexpired token of an active user within its session; each refusal in exactly its case; on success the whole new table |
| TokenRotation.TokenStore.Logout | backend/app/routers/auth.py:316-338 | exactly the presented token is revoked, if it was live |
| LoginLockout.WindowTable | backend/app/routers/auth.py:49-51 | the lock windows are 60, 120, 240 and 480 s, then 900 s for ever |
| LoginLockout.LockoutBound | backend/app/routers/auth.py:89-113 | handled one after the other, at most 8 + T/900 s failures are counted up to T after the fifth |
| LoginLockout.SoonestReaches | backend/app/routers/auth.py:89-113 | failing at the end of every lock counts every one of n failures |
| LoginLockout.SoonestSerial | backend/app/routers/auth.py:160-178 | those failures come one after the other, number n exactly when the lock of number n - 1 ends |
| LoginLockout.LockoutBoundReached | backend/app/routers/auth.py:89-113 | no smaller bound holds: for every n above 8 there are n serial failures within a T for which 8 + T/900 s is n |
| LoginLockout.ConcurrentFailures | backend/app/routers/auth.py:93-113 | for any order of concurrent failures the counter is exact, every transaction saw its own number, and the lock ends at the latest of the old one and all deadlines |
| LoginLockout.UserRow.RegisterFailedAttempt | backend/app/routers/auth.py:89-113 | one failure counts once and only ever extends the lock |
| LoginLockout.UserRow.Login | backend/app/routers/auth.py:160-190 | a locked account turns even the right password away and changes nothing; a success clears counter and lock |
| ScanDispatch.DueInstantOnce | backend/worker/beat_tasks.py:155-168 | across any overlapping ticks, reschedules and edits each due instant of a site is claimed at most once: its claims strictly increase; and at most one scan per site is in flight |
| ScanDispatch.TickAccounts | backend/worker/beat_tasks.py:118-145 | in every interleaving a finished tick's due sites are exactly enqueued, in flight, without baseline, lost or failed |
| ScanDispatch.DispatchAllOk | backend/worker/beat_tasks.py:155-222 | a tick with nothing interfering accounts for every entry, advances exactly the sites still due at the instant seen, and leaves each of them that has a ready baseline and met no fault with a scan in flight |
| ScanTick.TickExactly | backend/worker/beat_tasks.py:155-222 | a whole tick over distinct sites: the tables as they were before it decide each entry's fate, which happens to its site alone and is tallied: lost, failed, no baseline, young scan left alone, new scan, or new scan in the place of one older than ten minutes |
| ScanTick.OneExactly | backend/worker/beat_tasks.py:155-222 | one entry: schedule, scans and every counter, case by case |
| ScanTick.LookExactly | backend/worker/beat_tasks.py:183-199 | an interleaved tick leaves a young scan alone, goes on to supersede only a stale one, and starts afresh only if the site has none |
| ScanTick.ListedAreDue | backend/worker/beat_tasks.py:127-153 | only sites with automatic scans that are due are listed, fifty at most, each once, with a clamped interval |
| ScanTick.OffLosesClaim | backend/worker/beat_tasks.py:159-166 | a site whose automatic scans are switched off is not claimed, also by a tick that had listed it before |
| ScanDispatch.CompletedScanLost | backend/worker/beat_tasks.py:183-204 | a completed scan is failed again if and only if the tick that picked it as stale inserts a new row the index has room for |
| ScanDispatch.CompletedScanLostRun | backend/worker/beat_tasks.py:155-204 | a concrete run in which a worker takes the scan up and completes it between the tick's look and its insert |
| ScanDispatch.ScanTables.DispatchDueScans | backend/worker/beat_tasks.py:155-222 | the loop leaves schedule, scans and counters as the fold over the list says |
| ScanDispatch.ScanTables.ProcessSite | backend/worker/beat_tasks.py:170-222 | the work on one claimed site, branch by branch, with the counter each branch moves |
| ScanDispatch.ScanTables.TriggerScanNow | backend/app/services.py:302-370 | starts a scan exactly when nothing of the site is in flight but the stale scan it supersedes; a losing call leaves the tables as they were |
| ScanDispatch.ClampInterval | backend/app/scanning.py:61-62 | the interval is at least five minutes and at most a day, and unchanged within those bounds |
| ScanDispatch.SiteKeeps | backend/worker/scan_tasks.py:407-420 | a reschedule or edit never puts a claimed instant back |
| BaselineAnchor.AnchorNeverLost | backend/worker/scan_tasks.py:78-162 | with no capture message live twice: once a site has a current baseline, every later state has exactly one, ready, with a content hash and a captured HTTP status absent or below 400, despite superseded captures that finish late, crashes and redeliveries |
| BaselineAnchor.AnchorsTrustedExactly | backend/worker/scan_tasks.py:78-162 | duplicates allowed: a run keeps every current baseline ready, captured whole and healthy if and only if none of its steps is a by-id write to a current row |
| BaselineAnchor.AnchorStays | backend/worker/scan_tasks.py:129-161 | duplicates allowed: a site that has a current baseline always has exactly one from then on |
| BaselineAnchor.TrustLostExactly | backend/worker/scan_tasks.py:92-119 | a step spoils a current baseline if and only if it is a write by row id of a worker or request whose row is current |
| BaselineAnchor.DuplicateSpoils | backend/worker/scan_tasks.py:97-102 | a concrete run with one message live twice in which the current baseline ends up failed |
| BaselineAnchor.PromoteKeeps | backend/worker/scan_tasks.py:129-161 | a promotion loses no anchor and no trust, makes the captured row current and touches no other site; once the indexes accept it, it is the only current row of its site |
| BaselineAnchor.PromoteFits | backend/worker/scan_tasks.py:129-161 | the indexes accept a promotion if and only if its demoting update saw every other row of the site that is current when it commits |
| BaselineAnchor.OverlapRejected | backend/worker/scan_tasks.py:129-161 | of two overlapping promotions of a site the later commit is rejected whole and its worker cleans up: the index backstops the race |
| BaselineAnchor.SupersededNotCurrent | backend/app/services.py:401-424 | superseding a stale capture never changes which rows are current |
| BaselineAnchor.RebaselineExactly | backend/app/services.py:394-440 | a rebaseline step goes through exactly if nothing of the site is in flight but the capture it had read, and that is more than ten minutes old; it fails that one and adds its own |
| BaselineAnchor.BaselineTable.RebaselineSite | backend/app/services.py:376-450 | the endpoint undisturbed: the same condition, and the table afterwards for a live and for a dead queue; a losing request leaves it as it was |
| BaselineAnchor.BaselineTable.FinishCapture | backend/worker/scan_tasks.py:97-162 | undisturbed, an unhealthy page fails the row and a healthy one demotes and promotes |
| AgentTurn.TurnSafety | backend/app/agent/engine.py:269-409 | for every model and every tool: nothing of tier 2 or above runs inline, after a successful untrusted tool nothing of tier 1 or above runs, everything run is allowed to the role and is what the transcript reports, a call is frozen only when it must be, at most five model calls each see one result per tool call in order, and the turn ends with exactly one done, error or confirm |
| AgentReply.TurnExactly | backend/app/agent/engine.py:269-409 | every turn: each model call sees the last one's messages, the reply and one answer per call; the calls run are exactly the allowed ones of the replies in order, up to the frozen one, each reported with the outcome of that very execution; the user sees a start and an end of each and then the last reply's own text, stripped ("Done." if empty), the fixed text after five replies with calls, the error, or the card |
| AgentReply.CallsExactly | backend/app/agent/engine.py:317-391 | the calls of one reply: run and answered in order, "not available" exactly for those that are not, up to one that must be confirmed |
| AgentReply.StripExactly | backend/app/agent/engine.py:295 | stripping removes the white space at both ends and nothing else |
| AgentTurn.DispatchAllKeeps | backend/app/agent/engine.py:317-391 | either every call of a reply gets its one answer in order, or one of them was frozen |
| AgentTurn.ExecuteKeeps | backend/app/agent/engine.py:359-391 | a tool that is run was allowed and below the tiers then frozen, and only a successful untrusted result taints the turn |
| AgentTurn.FrozenStays | backend/app/agent/engine.py:329-357 | after a frozen call the rest of the reply is not looked at |
| AgentTurn.WellFormedBlock | backend/app/agent/engine.py:141-160 | tool calls followed by their answers extend a well-formed transcript to a well-formed one |
| AgentTurn.DispatchCalls | backend/app/agent/engine.py:317-391 | the loop over one reply's calls does what the call-by-call function says, up to the first frozen one |
| AgentTurn.RunTurn | backend/app/agent/engine.py:221-409 | an empty message and a missing model end at once; otherwise the loop is the turn that TurnSafety and TurnExactly speak about |
| AgentGuard.FrozenActionOnce | backend/app/agent/guard.py:80-158 | in every interleaving an executor runs at most once, only for the proposer, only after a claim made in time, and only with the tool and arguments that were frozen |
| AgentGuard.ResolveExactly | backend/app/agent/guard.py:80-158 | a resolving step claims exactly its owner's pending card in time, to execute or to cancel it; a refusal for any other reason than the card's state changes nothing |
| AgentGuard.SettledStatus | backend/app/agent/guard.py:45-77 | no status returns to pending, and a settled status changes if and only if a proposal that had read it as pending now writes its cancellation |
| AgentGuard.ConfirmedThenCancelled | backend/app/agent/guard.py:56-64 | such an overwrite of a confirmed card is reachable |
| AgentGuard.ExpiresLate | backend/app/agent/guard.py:161-176 | a card only becomes expired after its time |
| AgentGuard.FreezeSupersedes | backend/app/agent/guard.py:45-77 | a proposal leaves its card as the conversation's only pending one if and only if it had read every card that is pending when it commits |
| AgentGuard.OnePendingExactly | backend/app/agent/guard.py:11-12 | a run never leaves two pending cards in a conversation if and only if no proposal of it commits beside a pending card it had not read |
| AgentGuard.TwoPending | backend/app/agent/guard.py:45-77 | a concrete run of two overlapping proposals that leaves two |
| AgentGuard.ActionTable.CreatePending | backend/app/agent/guard.py:45-77 | a call that runs undisturbed leaves the new card as the conversation's only pending one |
| AgentGuard.ActionTable.ResolvePending | backend/app/agent/guard.py:80-158 | claims exactly the owner's pending card in time; any other refusal leaves it as it was, a late one settles it as expired |
| RateLimit.SweepingChangesNothing | backend/app/ratelimit.py:45-69 | over every call history on a clock that never goes back, the trimmed table gives the same answers and waits as one that is never trimmed |
| RateLimit.BackwardsClockDiffers | backend/app/ratelimit.py:45-69 | on a clock that goes back it can let an event in that the other refuses |
| RateLimit.LimiterBound | backend/app/ratelimit.py:54-69 | a key gets at most 2 * limit - 1 events in any half-open interval of one window length |
| RateLimit.BoundReached | backend/app/ratelimit.py:54-69 | for every limit and window some history reaches that number |
| RateLimit.KeysApart | backend/app/ratelimit.py:54-69 | keys do not interfere: a key's window and its next answer are what they would be if no other key had been used |
| RateLimit.CountedExactly | backend/app/ratelimit.py:58-69 | an event opens a window if none is open, counts if it is let in, and touches no other key; it is let in exactly below the limit |
| RateLimit.KeptBriefly | backend/app/ratelimit.py:45-52 | every retained window ends later than now minus one window length |
| RateLimit.RetryAdvice | backend/app/ratelimit.py:66-67 | the advised wait is at least a second and less than a second short, and obeying it succeeds exactly when the wait was whole or below a second |
| RateLimit.AdviceTooShort | backend/app/ratelimit.py:54-69 | a client that waits the advised second is refused once more |
| RateLimit.FixedWindowLimiter.Sweep | backend/app/ratelimit.py:45-52 | drops exactly the windows that are over, at most once per window length |
| RateLimit.FixedWindowLimiter.Check | backend/app/ratelimit.py:54-69 | answers and counts as the trimmed form does |
| RouterCache.CacheAgrees | backend/app/llm.py:313-359 | after any interleaving of lookups, builds, failures and clears the cache holds, in order, the 32 signatures handed out last since the last clear |
| RouterCache.MostRecentUnique | backend/app/llm.py:352-358 | the history alone decides the cached signatures and their order |
| RouterCache.OneRouter | backend/app/llm.py:344-359 | while a signature stays cached everyone gets the same router for it, also those who were building one at the time |
| RouterCache.OneSignature | backend/app/llm.py:313-359 | in every run a router is only ever handed out for the signature it was built for |
| RouterCache.HitKeeps | backend/app/llm.py:313-317 | a hit makes an entry the newest and loses none |
| RouterCache.AddKeeps | backend/app/llm.py:352-358 | storing evicts only the entry touched longest ago, and only from a full cache |
| RouterCache.OrderedCache.Get | backend/app/llm.py:313-317 | the first locked section |
| RouterCache.OrderedCache.Put | backend/app/llm.py:344-359 | the second one: an entry stored meanwhile wins over the router just built |
| ImportReport.FinalExactly | backend/app/routers/imports.py:275-381 | the final report of each row from the rows alone: every status and every detail exactly in its case, with and without an abort; in particular a created row is a well-formed new http(s) URL that passed the address check |
| ImportReport.CreatedIs | backend/app/routers/imports.py:291-308 | up to an abort the first row of a URL that would create its site does so, and no other |
| ImportReport.AbortExactly | backend/app/routers/imports.py:336-347 | the import aborts at the first row whose insert is tried and deadlocks |
| ImportReport.CreatedName | backend/app/routers/imports.py:310-314 | a created site is named as given, or else from its URL, and no longer than 200 characters |
| ImportReport.RemarkExactly | backend/app/routers/imports.py:402-417 | one capture that was not queued puts the remark on every created row and on no other, and nothing else of the report changes |
| BulkImport.ImportRows | backend/app/routers/imports.py:263-381 | the row loop with its abort path reports what the row-by-row specification says, and stores exactly what is reported created |
| BulkImport.Import | backend/app/routers/imports.py:250-425 | an empty import is refused, at most 500 rows are taken, counts are those of the results, and a dead queue remarks on every created row |
| BulkImport.ImportRow | backend/app/routers/imports.py:276-367 | the checks of one row in their order, and its database outcome |
| BulkImport.VoidCreated | backend/app/routers/imports.py:341-346 | an abort rewrites exactly the rows reported created |
| BulkImport.OneResultEach | backend/app/routers/imports.py:275-385 | one result per row, in order, and created, skipped and error counts sum to the total |
| BulkImport.CreatedOnce | backend/app/routers/imports.py:291-300 | created URLs are pairwise distinct and none was in the snapshot |
| BulkImport.StoredIsReported | backend/app/routers/imports.py:362-367 | the committed sites are those of the created rows, and their baselines are the ones queued for capture, position for position |
| BulkImport.CapturesMatch | backend/app/routers/imports.py:362-363 | the captures to start are as many as the created rows and in their order |
| BulkImport.NothingAfterAbort | backend/app/routers/imports.py:338-347 | after an abort no row is reported created and no capture is started |
| BulkImport.DuplicateMeansCreatedBefore | backend/app/routers/imports.py:296-300 | up to an abort, a row is called a duplicate if and only if an earlier row of its URL had been created |
| BulkImport.DuplicateInReport | backend/app/routers/imports.py:296-381 | in the final report the earlier row of a duplicate is there as created if and only if the import was not aborted |
| BulkImport.NoDetailMeansAbort | backend/app/routers/imports.py:337-360 | in the final report an error without a detail is the row that aborted the import, and no other |
| BulkImport.SkippedForALostRow | backend/app/routers/imports.py:338-381 | for any two URLs a, b a batch a, a, b that aborts at b reports the second a skipped as a duplicate of a lost row, and b without a detail |
| DatasetSplits.TakeExactly | backend/tools/build_fusion_dataset.py:1391-1396 | a group under three gives nothing away, a larger one the nearest integer to 15 percent, ties to even, but at least one, as far as the budget goes: the cap never binds |
| DatasetSplits.TrainKeeps | backend/tools/build_fusion_dataset.py:1391-1398 | a group's training share is never empty, and at least half if and only if the group is not one of three that gives a member away |
| DatasetSplits.ThreeSplitEvenly | backend/tools/build_fusion_dataset.py:1363-1368 | the documented half is missed by a group of three |
| DatasetSplits.GroupPromise | backend/tools/build_fusion_dataset.py:1363-1402 | in an assigned list a group's test and validation parts are disjoint and of one size, and training keeps the rest |
| DatasetSplits.AssignSplits | backend/tools/build_fusion_dataset.py:1363-1402 | every sample gets one split, sanity samples train, each label's test and validation totals are equal and within the rounded 15 percent, and groups get their full share while budget is left (which fixes the totals: SplitBalance.ClassTotals) |
| SplitBalance.ClassTotals | backend/tools/build_fusion_dataset.py:1376-1402 | each label's test and validation sets hold exactly the rounded 15 percent, or what its groups can give if that is less, and training the rest |
| SplitBalance.BalancedExactly | backend/tools/build_fusion_dataset.py:1363-1368 | every split holds as many samples of one label as of the other if and only if the labels are of one size and can give the same number up to their budget |
| SplitBalance.SmokeUnbalanced | backend/tools/build_fusion_dataset.py:1363-1402 | any assignment of the balanced smoke samples holds out two attack samples and six benign ones in each of test and validation |
| DatasetSplits.SplitGroup | backend/tools/build_fusion_dataset.py:1387-1402 | one group is cut into test, validation and train of the promised sizes and no other sample is touched |
| DatasetSplits.CutSizes | backend/tools/build_fusion_dataset.py:1397-1402 | cutting any shuffle of a group gives parts of exactly those sizes |
| DatasetSplits.Shuffle | backend/tools/build_fusion_dataset.py:1389-1390 | any outcome of the shuffle arranges the same positions |
| DatasetSplits.CollectGroups | backend/tools/build_fusion_dataset.py:1369-1374 | groups hold exactly the positions of their label and axis |
| PlanBalance.RebalanceToEqual | backend/tools/build_fusion_dataset.py:1554-1572 | returns exactly when the difference is at most 10000 steps and the smaller plan has axes; then the totals are equal and only the smaller plan has grown |
| PlanBalance.Grow | backend/tools/build_fusion_dataset.py:1561-1569 | each axis grows by the number of round-robin steps that hit it, the axes taken in alphabetical order |
| PlanBalance.TurnsEven | backend/tools/build_fusion_dataset.py:1561-1567 | the steps are spread evenly: no axis gets more than one step more than another |
| PlanBalance.LargestGrowExactly | backend/tools/build_fusion_dataset.py:1554-1567 | no axis grows while a larger one is left out if and only if none of the alphabetically first axes, as many as the difference, is smaller than one behind them |
| SmokePlan.SmokeTotals | backend/tools/build_fusion_dataset.py:1546-1552 | the smoke plans total 42 and 40, and 42 after balancing |
| SmokePlan.SmallerAxisGrows | backend/tools/build_fusion_dataset.py:1554-1569 | balancing the smoke plan grows an axis of two while axes of three and four are left out |
| PlanBalance.Sort | backend/tools/build_fusion_dataset.py:1561-1561 | the axes in alphabetical order, each once |

## Left out

- PatternSampler: patterns outside the fragment have no language claim; on them the sampler is only shown to terminate with a string or an error. Outside are `\b`, `^` and `$`, a bar outside groups, lazy quantifiers, negated classes, dots with the quantifiers that SampleDot excludes, parentheses or bars escaped or inside classes within a group, escaped letters and digits other than `\s`, `\w`, `\d` (`\n` and `\D` are emitted as the letters n and D), and inside a class `\s` (emitted as the letter s), `\]` (the reader stops at that bracket) and an escape at either end of a dash (characters outside the class are emitted). Digits are ASCII digits. The random generator is any sequence of numbers, of which each use takes the next and reduces it to its range; how likely a draw is is not modelled.
- RemediationModel: deleting a hook, site or scan deletes its executions with it, and with them their part of the cooldown; deletions are not modelled. The database's clock and the worker's are one clock that never goes back; a worker runs at most 480 s; creating one scan's executions is one transaction; webhook payloads, URL decryption and the POST itself are an answer given from outside.
- RemediationRecovery.BoundedRecovery: a row counts as ahead if it was created no later, and the row must be older than the current instant, because the query leaves ties open.
- TokenRotation: token values, hashes and cookies are opaque distinct ids; a family sweep is one transaction; whether a row can be read again after a rollback is given from outside. Older links are taken to be valid, and the expiry of successors issued before the first step is not bounded.
- LoginLockout: password hashing, the unknown-account branch and the audit rows; a success resets counter and lock and is not part of the concurrent model.
- ScanDispatch: a schedule is taken to be committed less than five minutes after its clock was read; the scan body and the adaptive cadence enter only as arbitrary writes that respect the in-flight index and intervals of at least five minutes; the dispatcher's query order by due time is any list of due sites.
- BaselineAnchor: the demoting update is taken to pick the rows as they are when it runs, and the row locks that make a second one wait are not modelled; they only rule interleavings out.
- BaselineAnchor.AnchorNeverLost: for messages live twice see AnchorsTrustedExactly and AnchorStays; a failed publish is taken to leave no message; site deletion, the fetch, the probes and the stored files are not modelled.
- AgentTurn: bounding and serialising of tool results, persistence of the transcript and its summary, and exceptions outside the ones the loop catches; the context is taken to hold no tool rows, as the context builder makes it; white space is that of ASCII.
- AgentGuard: the executor's own effect, and audit rows.
- RateLimit: one process, and a lock that makes each check one step.
- RouterCache: what a router is, how a signature is computed, and configuration loading.
- BulkImport: parsing of CSV and sitemaps, DNS and address checks and the database are oracles that come with each row; the role check before the loop is left out.
- DatasetSplits.AssignSplits: 15 percent is exact and rounded half to even, where the code rounds a floating-point product; axes are walked in any order where the code sorts them; the generator's seed is any shuffle.
- Detection layers, risk fusion, page capture, alert delivery, reports, the Telegram bot, settings, the frontend and the migrations are not part of this model.
