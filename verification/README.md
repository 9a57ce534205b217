# Hyeboard coordination model

This project models the coordination logic of the Hyeboard backend in Dafny and
proves what it promises over every input, every run and every interleaving. Each
stretch of code between two awaits is one atomic step; steps of different calls
interleave freely. Clocks, fresh identifiers, random bytes, aborts, network
answers and the outcomes of cryptographic calls are parameters, so every
statement holds whatever they are.

| Files | What they model |
|---|---|
| `VnuRefresh*.dfy` | the per-principal VNU refresh authority and its Durable Object: sign-in, rotation under a lease, logout, tombstones, cleanup, alarms |
| `StudentIdResolver.dfy`, `ResolverMeaning.dfy`, `ResolverRun.dfy`, `ResolverSchedules.dfy` | the speculative student-id search: its specification and what that means in numbers and digits, the running probe pool, and every schedule its probes may settle in |
| `BulkReservation.dfy`, `BulkLookupRun.dfy` | from configuration and policy to the probe units a bulk lookup reserves, and the workers that draw them |
| `StreamGroups.dfy`, `StreamReclaims.dfy`, `StreamsBroker.dfy`, `JobLeases.dfy`, `JobEvents.dfy`, `AutomationWorkers.dfy` | the automation job pipeline: at-least-once delivery, leases, events, any number of workers |
| `PolicyHistory.dfy`, `PolicyRuntime.dfy`, `RevisionStreams.dfy`, `AdminLoginWindows.dfy` | the feature-policy log, its runtime cache, its revision streams and the admin login limiter |
| `ProbeBudget.dfy`, `ProbeBudgetVerdicts.dfy`, `ProbeBudgetRuns.dfy`, `CrossDetailMinter.dfy` | probe windows, cross-detail permits, leases and their shared alarm |
| `Base64Url.dfy`, `AutomationEnvelope.dfy` | the strict base64url codec, the encrypted envelope's token and its authenticated data |
| `CaptchaRelay.dfy` | the in-process captcha relay |
| `Prelude.dfy`, `FixedWindows.dfy` | shared vocabulary; what any lazily restarted counting window promises over real time |

Reading guide. Where the source updates an object in place the model is a class;
each of its methods is proved equal to a function on values, and the theorems
are about that function and its runs. What the function itself answers and stores is
told once more from the outside - from the stored values, the clock and the source's own
numbers, without the function's helpers - in the lemmas called verdicts and stores. A run is a list of events; `Front` and
`Last` take it apart, and `Reaches` names the states some interleaving can
produce.

## Findings

These are places where the code does something a reader of its comments or tests
might not expect, each with the lemma that states it.

- `applyActivatePair` does not consult tombstones. A stored sign-in is readable
  again exactly when its identifiers meet no live tombstone and no identifier of the
  pair it replaces (`VnuRefreshInvariants.ActivationAcceptedIffFresh`); one that
  collides is stored and then cannot be read (`CollidingSignIn`). Fresh 128-bit
  identifiers are what rules that out, and they are an explicit condition of every
  run.
- Cleanup is not invisible to the rest of a run. It restarts a refresh window that has
  run out, so a principal cleaned at the right moment may begin again earlier than one
  that was not (`VnuRefreshCleanupLimits.CleanupCanShowLater`). It is invisible exactly
  when it restarts such a window just in case it deletes the whole state
  (`CleanupHidesIff`), as long as later steps avoid the next two cases.
- `applyCompleteRefresh` looks for collisions among tombstones before cleanup. An
  earlier cleanup can therefore turn its collision error into success, exactly
  when the colliding tombstones have all run out
  (`VnuRefreshCleanup.CleanupShowsOnlyInStaleCollisions`; a concrete case is in
  `CleanupCanShow`).
- Repeating the stored sign-in is free of the activation limit, and whether a sign-in
  is such a repeat is decided on the state before cleanup. An earlier cleanup can
  change that answer: the reply differs at once exactly when the activation window is
  used up (`VnuRefreshCleanup.CleanupShowsOnlyInFreeRepeats`; a concrete case is in
  `CleanupCanShowInRepeats`), and otherwise after enough further sign-ins
  (`VnuRefreshCleanupLimits.RepeatShows`).
- An access check that read its clock before a cleanup is told exactly if its pair ran
  out in between (`VnuRefreshCleanupLimits.StaleCheckShowsIff`).
- A window of `n` per span admits `2n` in one closed interval of that length, and no
  more: 10 refreshes and 10 sign-ins in 15 minutes, 600 probe units in 600 seconds.
  The bounds are proved, and runs attain them
  (`VnuRefreshRatesAttained.RefreshRateIsAttained`, `ActivationRateIsAttained`,
  `ProbeBudgetRuns.ProbeRateIsAttained`).
- A probe that fails, even one of lower priority, can withhold an answer that the
  sequential search would have returned (`ResolverSchedules.AnswerCanBeWithheld`); the
  search never returns a different one. Exactly which failures can is stated in
  `OutcomesAre`: those with fewer failing or matching candidates ahead of them than
  the pool is wide.
- A reclaim takes the first idle entries in insertion order. A worker whose reclaims
  come a whole idle period apart, with none of those entries acknowledged, never
  reaches any other (`StreamReclaims.StarvesIff`).
- A busy refusal quotes one second while leases last over two minutes; the same
  refusal is repeated exactly if too few leases have run out
  (`ProbeBudget.BusyAgainIff`).
- Issuing a permit hash again makes it usable again: a permit is honoured at most
  once for each time it is issued.
- The policy cache can go back behind a revision this process itself has published
  as long as no notification has ruled the older one out
  (`PolicyRuntime.CacheRegressesIff`, `CacheCanRegress`).
- The open-ended first page of the durable policy history would miss an entry
  whose revision is the largest safe integer; in every other case the two stores'
  pages are equal (`PolicyHistory.PagesAgree`).
- A captcha answer accepted before anyone waits reaches someone exactly if a wait comes
  before the timeout and any cancellation (`CaptchaRelay.AnswerIsDeliveredIff`).

## Model

| member | source | states |
|---|---|---|
| FixedWindows.IntervalBound | apps/worker/src/vnu/vnu-probe-budget-durable-object.ts:57-86 | grants kept in a lazily restarted window never exceed twice the limit in any closed interval of one span |
| FixedWindows.GrantMany | apps/worker/src/vnu/vnu-probe-budget-durable-object.ts:80-85 | granting several units at once keeps every grant so far accounted for by the window |
| VnuRefreshControl.NextAlarm | apps/worker/src/vnu/vnu-refresh-control.ts:670-684 | the alarm is the least instant at which anything timed in the state runs out, and there is none exactly when nothing does |
| VnuRefreshInvariants.CleanKeepsAcceptance | apps/worker/src/vnu/vnu-refresh-control.ts:346-389 | cleanup of a readable state, at any instant, leaves a readable state |
| VnuRefreshInvariants.RevokeExactKeepsAcceptance | apps/worker/src/vnu/vnu-refresh-control.ts:407-423 | revoking a pair leaves a readable state without a lease |
| VnuRefreshInvariants.ActivationAcceptedIffFresh | apps/worker/src/vnu/vnu-refresh-control.ts:425-460 | a stored sign-in can be read back if and only if its identifiers meet no live tombstone and no identifier of the pair it replaces |
| VnuRefreshInvariants.CollidingSignIn | apps/worker/src/vnu/vnu-refresh-control.ts:425-460 | an instance: a sign-in with a revoked identifier is stored and cannot be read back |
| VnuRefreshInvariants.CompleteKeepsAcceptance | apps/worker/src/vnu/vnu-refresh-control.ts:509-546 | a completed rotation leaves a readable state: the new pair untombstoned, successor tombstone consistent |
| VnuRefreshInvariants.LinkedLogoutKeepsAcceptance | apps/worker/src/vnu/vnu-refresh-control.ts:602-643 | a logout by linked grant leaves a readable state |
| VnuRefreshInvariants.TransitionsKeepAcceptance | apps/worker/src/vnu/vnu-refresh-control.ts:119-218 | every transition of a readable state that writes anything writes a readable state |
| VnuRefreshCleanup.CleanTwice | apps/worker/src/vnu/vnu-refresh-control.ts:346-389 | cleaning at an earlier instant and again later is cleaning later, but for the restart instant of an unused window |
| VnuRefreshCleanup.CleanupIsInvisible | apps/worker/src/vnu/vnu-refresh-control.ts:346-389 | for the one command that follows it, an earlier cleanup changes no reply to an access check, begin, abort or logout |
| VnuRefreshCleanup.CleanupShowsOnlyInStaleCollisions | apps/worker/src/vnu/vnu-refresh-control.ts:509-534 | the reply to a rotation is unchanged by earlier cleanup if and only if cleanup does not remove its last colliding tombstone |
| VnuRefreshCleanup.CleanupCanShow | apps/worker/src/vnu/vnu-refresh-control.ts:509-534 | a concrete state and rotation whose reply an earlier cleanup changes |
| VnuRefreshCleanup.CleanupShowsOnlyInFreeRepeats | apps/worker/src/vnu/vnu-refresh-control.ts:425-460 | exactly when an earlier cleanup changes the reply to a sign-in |
| VnuRefreshCleanup.CleanupCanShowInRepeats | apps/worker/src/vnu/vnu-refresh-control.ts:425-460 | a concrete state whose free repeat an earlier cleanup turns into a refusal |
| VnuRefreshCleanupRuns.CleansAlike | apps/worker/src/vnu/vnu-refresh-control.ts:346-389 | where the cleanup leaves the window settled, cleaning again later gives the same state with it or without it, deleted or not |
| VnuRefreshCleanupRuns.ContinuationStaysInvisible | apps/worker/src/vnu/vnu-refresh-control.ts:346-389 | from such a state no later sequence of steps, of any length and avoiding stale collisions and changed repeats, gets a different reply |
| VnuRefreshCleanupLimits.CleanupHidesIff | apps/worker/src/vnu/vnu-refresh-control.ts:346-389 | exactly: no guarded continuation can tell the cleanup if and only if it restarts a run-out window just when it deletes the state |
| VnuRefreshCleanupLimits.InsertedCleanupIsInvisible | apps/worker/src/vnu/vnu-refresh-control.ts:346-389 | a cleanup inserted anywhere into a valid run changes no later reply, under the window condition and the two guards |
| VnuRefreshCleanupLimits.InsertedCleanupHidesIff | apps/worker/src/vnu/vnu-refresh-control.ts:346-389 | for the state any valid run has stored, the window condition is exact |
| VnuRefreshCleanupLimits.UnsettledWindowShows | apps/worker/src/vnu/vnu-refresh-control.ts:476-506 | where the window condition fails, a continuation with one fresh pair gets different replies |
| VnuRefreshCleanupLimits.StaleCollisionShows | apps/worker/src/vnu/vnu-refresh-control.ts:509-534 | a rotation the first guard excludes is told at once |
| VnuRefreshCleanupLimits.RepeatShows | apps/worker/src/vnu/vnu-refresh-control.ts:425-460 | a sign-in the second guard excludes is told, at once or after enough fresh sign-ins |
| VnuRefreshCleanupLimits.StaleCheckShowsIff | apps/worker/src/vnu/vnu-refresh-control.ts:711-732 | an access check that read its clock before the cleanup is told exactly if its pair ran out in between |
| VnuRefreshCleanupLimits.CleanupCanShowLater | apps/worker/src/vnu/vnu-refresh-control.ts:476-506 | a concrete sequence: sign-in, cleanup just after the window ran out, five begins, and a sixth that is refused without the cleanup and accepted with it |
| VnuRefreshCleanup.NothingRunsOutBeforeTheAlarm | apps/worker/src/vnu/vnu-refresh-control.ts:670-684 | strictly before the alarm, cleanup changes nothing but an unused refresh window |
| VnuRefreshCleanup.QuiescentIffNothingTimed | apps/worker/src/vnu/vnu-refresh-control.ts:698-709 | a state is deleted exactly when it holds nothing timed, which is exactly when it needs no alarm |
| VnuRefreshCleanup.AlarmMakesProgress | apps/worker/src/vnu/vnu-refresh-control-durable-object.ts:103-112 | an alarm that fires when due strictly shrinks the timed items |
| VnuRefreshCleanup.AlarmsEndInDeletion | apps/worker/src/vnu/vnu-refresh-control-durable-object.ts:103-112 | as many due alarms as there are timed items leave nothing stored |
| VnuRefreshCleanup.WaitingTheQuotedDelayWorks | apps/worker/src/vnu/vnu-refresh-control.ts:433-506 | after the quoted delay with no step in between, a rate or lease refusal is never repeated |
| VnuRefreshRuns.StepKeepsCellOk | apps/worker/src/vnu/vnu-refresh-control-durable-object.ts:55-71 | one transaction keeps storage readable, not quiescent, and scheduled for its next expiry |
| VnuRefreshRuns.EveryRunIsOk | apps/worker/src/vnu/vnu-refresh-control-durable-object.ts:55-112 | in every run with fresh identifiers the Durable Object can read back what it stored, and holds only identifiers handed out |
| VnuRefreshFinality.LeavingIsGone | apps/worker/src/vnu/vnu-refresh-control.ts:407-423 | whenever a pair stops being active, by whatever step, it is tombstoned until its grant expires or has expired |
| VnuRefreshFinality.RotationCannotRevive | apps/worker/src/vnu/vnu-refresh-control.ts:509-534 | a rotation never installs a pair that is gone, even after its tombstones were pruned |
| VnuRefreshFinality.StepKeepsGone | apps/worker/src/vnu/vnu-refresh-control.ts:425-643 | no step of any kind brings a gone pair back |
| VnuRefreshFinality.GoneForever | apps/worker/src/vnu/vnu-refresh-control.ts:425-643 | from any point of a run at which a formerly active pair is not active, it is gone at every later point |
| VnuRefreshFinality.RevocationIsFinal | apps/worker/src/vnu/vnu-refresh-control.ts:647-668 | every later access check or begin with such a pair, at any instant of any run, answers revoked |
| VnuRefreshRates.RefreshRateHolds | apps/worker/src/vnu/vnu-refresh-control.ts:476-506 | in every run, deletion and re-login included, no closed 15 minutes hold more than 10 accepted refreshes |
| VnuRefreshRates.ActivationRateHolds | apps/worker/src/vnu/vnu-refresh-control.ts:433-460 | in every run no closed 15 minutes hold more than 10 sign-ins that changed anything |
| VnuRefreshRatesAttained.RefreshRateIsAttained | apps/worker/src/vnu/vnu-refresh-control.ts:476-506 | a valid run with ten refreshes in one closed 15 minutes |
| VnuRefreshRatesAttained.ActivationRateIsAttained | apps/worker/src/vnu/vnu-refresh-control.ts:433-460 | a valid run with ten sign-ins that change something in one closed 15 minutes |
| VnuRefreshRates.DeletingForgetsNothing | apps/worker/src/vnu/vnu-refresh-control.ts:698-709 | deleting a quiescent state never resets a window that has been used |
| VnuRefreshLineage.LeaseIsBacked | apps/worker/src/vnu/vnu-refresh-control.ts:462-507 | a stored lease was granted by an accepted begin for that pair, not consumed since |
| VnuRefreshLineage.CompletionConsumesABegin | apps/worker/src/vnu/vnu-refresh-control.ts:509-546 | each completed rotation consumes its own earlier begin for exactly the old pair, strictly before the lease expires |
| VnuRefreshLineage.RotationKeepsTheGrantExpiry | packages/core/src/index.ts:451-456 | along any chain of rotations the active pair keeps the grant expiry of the sign-in that started it |
| VnuRefreshLineage.NothingOutlivesItsSignIn | apps/worker/src/vnu/vnu-refresh-control.ts:647-668 | no access is reported active at or past the grant expiry of the last sign-in |
| VnuRefreshLineage.OldGrantReachesOneStep | apps/worker/src/vnu/vnu-refresh-control.ts:602-643 | a logout by an old grant clears an active pair only if that pair came from the one rotation that replaced the proof |
| VnuRefreshLineage.LinkedGrantReach | apps/worker/src/vnu/vnu-refresh-control.ts:602-643 | with a live grant, it clears the active pair if and only if it names it or is recorded as its predecessor; then both pairs are tombstoned and nothing is leased |
| VnuRefreshVerdicts.CleanedIs | apps/worker/src/vnu/vnu-refresh-control.ts:346-389 | cleanup removes exactly what has run out, and restarts exactly the windows that have |
| VnuRefreshVerdicts.CleaningStores | apps/worker/src/vnu/vnu-refresh-control.ts:647-668 | an access check and the alarm store the cleaned state, if that is any different |
| VnuRefreshVerdicts.CheckVerdict | apps/worker/src/vnu/vnu-refresh-control.ts:647-668 | an access is active if and only if exactly its pair is stored as active and neither the access nor the grant has expired; otherwise revoked |
| VnuRefreshVerdicts.BeginVerdict | apps/worker/src/vnu/vnu-refresh-control.ts:462-507 | which reply a begin gets: revoked unless the pair lives, in progress under its own live lease, limited after five in the window, each with a delay that covers the wait; else a lease of 120 seconds or what the grant leaves |
| VnuRefreshVerdicts.BeginStores | apps/worker/src/vnu/vnu-refresh-control.ts:494-506 | an accepted begin stores that lease, one more refresh in the window, and changes nothing else that lasts |
| VnuRefreshVerdicts.CompleteVerdict | apps/worker/src/vnu/vnu-refresh-control.ts:509-546 | which reply a rotation gets, error by error; it completes if and only if the old pair and its lease live |
| VnuRefreshVerdicts.CompleteStores | apps/worker/src/vnu/vnu-refresh-control.ts:535-546 | a completed rotation ends the lease, records the old pair with its successor, installs the new one and keeps windows and other tombstones |
| VnuRefreshVerdicts.AbortVerdict | apps/worker/src/vnu/vnu-refresh-control.ts:548-571 | which reply an abort gets: revoked for a recorded pair, else effective if and only if pair and lease live |
| VnuRefreshVerdicts.AbortStores | apps/worker/src/vnu/vnu-refresh-control.ts:562-571 | an effective abort ends the lease alone, a terminal one the pair, which it records |
| VnuRefreshVerdicts.SignInVerdict | apps/worker/src/vnu/vnu-refresh-control.ts:425-460 | which reply a sign-in gets: a repeat is free, six in one window are too many |
| VnuRefreshVerdicts.SignInStores | apps/worker/src/vnu/vnu-refresh-control.ts:440-460 | a sign-in counts itself, takes over without a lease and records a different pair that was live |
| VnuRefreshVerdicts.LogoutByAccessVerdict | apps/worker/src/vnu/vnu-refresh-control.ts:573-600 | which reply a logout by access gets; it changes the record if and only if the pair lives and is not already recorded |
| VnuRefreshVerdicts.LogoutByAccessStores | apps/worker/src/vnu/vnu-refresh-control.ts:573-600 | logging a live pair out answers revoked, leaves nothing active or leased, and records both identifiers |
| VnuRefreshVerdicts.LogoutByGrantVerdict | apps/worker/src/vnu/vnu-refresh-control.ts:602-643 | which reply a logout by grant gets; it is effective if and only if the proof is live or was replaced by the live pair |
| VnuRefreshVerdicts.LogoutByGrantStores | apps/worker/src/vnu/vnu-refresh-control.ts:602-643 | an effective logout by grant leaves nothing active or leased, and records both pairs |
| VnuRefreshVerdicts.LogoutIsFinal | apps/worker/src/vnu/vnu-refresh-control.ts:573-643 | in every run: after a logout or terminal abort of a pair that was ever active has answered revoked, every later check and begin of it answers revoked |
| VnuRefreshVerdicts.LiveLogoutIsFinal | apps/worker/src/vnu/vnu-refresh-control.ts:548-643 | and a live pair that logs out, or aborts terminally under its lease, does get that answer, so it is finished |
| VnuRefreshVerdicts.MalformedVerdict | apps/worker/src/vnu/vnu-refresh-control.ts:77-113 | exactly the commands that carry a malformed pair are rejected for it, and store nothing |
| VnuRefreshVerdicts.ReadableIff | apps/worker/src/vnu/vnu-refresh-control.ts:119-274 | what reading a stored record back demands, field by field |
| VnuRefreshDurableObject.RefreshControlObject.Mutate | apps/worker/src/vnu/vnu-refresh-control-durable-object.ts:55-71 | one mutation equals the transition plus persist, delete-when-quiescent and reschedule; an unreadable state aborts it untouched |
| VnuRefreshDurableObject.RefreshControlObject.CheckAccess | apps/worker/src/vnu/vnu-refresh-control.ts:719-732 | the transaction of an access check, whatever steps came since the clock was read, is one step of a run and keeps storage valid |
| VnuRefreshDurableObject.RefreshControlObject.PeekAccess | apps/worker/src/vnu/vnu-refresh-control.ts:711-718 | the read before it answers exactly when a whole check at that moment would store nothing, and with its reply |
| VnuRefreshDurableObject.RefreshControlObject.FireAlarm | apps/worker/src/vnu/vnu-refresh-control-durable-object.ts:103-112 | the alarm leaves the cleaned state, or nothing when it is quiescent |
| StudentIdResolver.LocalCandidates | apps/worker/src/vnu/vnu-student-id-resolver.ts:113-127 | the loop and filter yield the specified candidates in priority order |
| StudentIdResolver.CandidatesAreTheNeighbours | apps/worker/src/vnu/vnu-student-id-resolver.ts:113-127 | the candidates are exactly the valid identifiers within 16 of the projection, other than itself |
| StudentIdResolver.AtMost33Probes | apps/worker/src/vnu/vnu-student-id-resolver.ts:6-6 | projection and candidates are distinct, and never more than 33 |
| StudentIdResolver.NotConvergedIffNobodyNearby | apps/worker/src/vnu/vnu-student-id-resolver.ts:216-326 | without errors the search fails exactly when no valid identifier within 16 of the projection has the target code |
| ResolverMeaning.LooksThereFirst | apps/worker/src/vnu/vnu-student-id-resolver.ts:141-153 | for a code that spells eight given digits, the first probe is at own identifier + (their number - own code), and a match or failure there is the outcome |
| ResolverMeaning.SearchesOnlyIf | apps/worker/src/vnu/vnu-student-id-resolver.ts:141-153 | outside the ranges of identifiers and codes nothing is found |
| ResolverMeaning.CandidatesByRank | apps/worker/src/vnu/vnu-student-id-resolver.ts:113-127 | the candidates in order: the corrected identifier, then nearest first, lower before higher, each once |
| ResolverMeaning.FindsTheBestAround | apps/worker/src/vnu/vnu-student-id-resolver.ts:216-326 | without failures around, the outcome is the matching identifier of least rank within 16, or none if nothing there matches |
| ResolverRun.ProbePool.FillPool | apps/worker/src/vnu/vnu-student-id-resolver.ts:254-263 | fills the pool to its width and never past a known match |
| ResolverRun.ProbePool.Winner | apps/worker/src/vnu/vnu-student-id-resolver.ts:301-322 | the first match of the settled prefix is what the sequential search finds |
| ResolverRun.ProbePool.Advance | apps/worker/src/vnu/vnu-student-id-resolver.ts:266-324 | whichever probe settles, the turn ends with the sequential answer or a full pool still searching |
| ResolverRun.ProbePool.SettleStarted | apps/worker/src/vnu/vnu-student-id-resolver.ts:202-214 | afterwards nothing is in flight, and a reported failure is that of a probe that was active |
| ResolverRun.SearchNeighbours | apps/worker/src/vnu/vnu-student-id-resolver.ts:244-334 | for every completion order the concurrent phase answers as the sequential search, or was aborted, or a probe failed; it leaves nothing running |
| ResolverRun.ResolveVnuStudentId | apps/worker/src/vnu/vnu-student-id-resolver.ts:129-334 | for every oracle, width, completion order and abort time the answer is that of sequential search, or the failure of the projection or of a neighbour within the pool's reach; at most 33 distinct probes near the projection, never more than the width in flight, none left running |
| ResolverSchedules.OutcomesAre | apps/worker/src/vnu/vnu-student-id-resolver.ts:254-326 | the outcomes some schedule leads to are exactly the sequential one and every failure within the pool's reach |
| ResolverSchedules.EveryScheduleAgreesIff | apps/worker/src/vnu/vnu-student-id-resolver.ts:254-326 | every schedule gives the sequential outcome if and only if each failing candidate with fewer blockers ahead of it than the width fails as the sequential search does |
| ResolverSchedules.WidthOneAgrees | apps/worker/src/vnu/vnu-student-id-resolver.ts:93-99 | a pool of one always does |
| ResolverSchedules.AnswerCanBeWithheld | apps/worker/src/vnu/vnu-student-id-resolver.ts:285-291 | a schedule in which a lower-priority failure withholds the answer |
| ResolverSchedules.EveryScheduleEnds | apps/worker/src/vnu/vnu-student-id-resolver.ts:266-324 | no schedule takes more turns than there are candidates |
| ResolverSchedules.ResolverAnswersAre | apps/worker/src/vnu/vnu-student-id-resolver.ts:129-334 | the same exact description for the whole resolver, projection included |
| ResolverSchedules.ResolverIsDeterministicIff | apps/worker/src/vnu/vnu-student-id-resolver.ts:129-334 | the whole resolver's answer depends on no schedule exactly when no failure it may report differs from the sequential answer |
| BulkReservation.EffectiveLimits | apps/worker/src/policy/feature-policy.ts:97-137 | the result has exactly the bounded keys, each at the largest number the native and hard bounds and the one entry that applies - the university's own, else the global number - leave; it throws if and only if a bounded key meets an invalid entry |
| BulkReservation.AcceptsIff | apps/worker/src/app.ts:1204-1262 | exactly which bulk requests are accepted, from the operator's settings and the policy: lookups enabled, at least one target, and room under the overall maximum, the direct chunk and the mode |
| BulkReservation.WorkersAre | apps/worker/src/vnu/vnu-runtime-config.ts:95-133 | the number of workers: 1 or 2 if set so, otherwise 3 |
| BulkReservation.CandidateWidth | apps/worker/src/app.ts:1360-1369 | workers times width never exceeds the six permits |
| BulkReservation.AcceptedRequestsFitTheBudget | apps/worker/src/app.ts:1204-1215 | for every operator setting and valid policy an accepted bulk request reserves between 1 and 300 units |
| BulkReservation.ZeroMaximumDisables | apps/worker/src/app.ts:2656-2690 | a zero or unreadable overall maximum admits nothing, whatever the policy says |
| BulkLookupRun.AllowanceSuffices | apps/worker/src/app.ts:1343-1352 | whenever the resolver may start a probe the shared allowance can pay for it |
| BulkLookupRun.StepKeepsOk | apps/worker/src/app.ts:4204-4293 | every step of any worker, and an abort at any time, keeps the remaining allowance at least what can still be asked for |
| BulkLookupRun.TraceIsAllowed | apps/worker/src/app.ts:4236-4256 | in any trace the resolver's contract allows, each probe meets the guards assumed of it here: below 33 probes and the width |
| BulkLookupRun.ResolverRunsThrough | apps/worker/src/app.ts:4236-4256 | once a target is claimed its resolver's whole trace runs through, the allowance paying for every probe |
| BulkLookupRun.BulkIsSafe | apps/worker/src/app.ts:4204-4293 | in every interleaving the allowance never throws, at most six probes are in flight, and a run without abort answers every target |
| BulkLookupRun.EveryProbeIsPaidOnce | apps/worker/src/app.ts:4204-4293 | in every interleaving the allowance left is 33 a target less one for each probe started, and targets are claimed one after the other |
| BulkLookupRun.AbortEndsClaiming | apps/worker/src/app.ts:4204-4293 | in every interleaving no target is claimed once something has aborted the run |
| StreamGroups.ReadKeepsPartition | apps/automation-worker/src/transport/broker.ts:124-137 | a read moves entries from undelivered to pending and nothing else |
| StreamGroups.ReadDelivers | apps/automation-worker/src/transport/broker.ts:124-137 | the next entries, up to the count, follow what was pending, as the consumer's from now on and delivered once |
| StreamGroups.ReclaimKeepsPartition | apps/automation-worker/src/transport/broker.ts:139-154 | a reclaim neither loses nor invents a pending entry |
| StreamGroups.AckKeepsPartition | apps/automation-worker/src/transport/broker.ts:156-158 | an acknowledgement moves one pending entry to acknowledged and ignores anything else |
| StreamGroups.StepKeepsRunOk | apps/automation-worker/src/transport/broker.ts:124-166 | in every run each entry is exactly one of undelivered, pending, acknowledged, and first deliveries follow the stream without repeats |
| StreamReclaims.ReclaimRule | apps/automation-worker/src/transport/broker.ts:143-152 | an entry is redelivered if and only if it is idle and fewer than `count` idle entries precede it, with new owner and time and one more delivery, handed out in insertion order |
| StreamReclaims.HandedOut | apps/automation-worker/src/transport/broker.ts:143-152 | everything a reclaim hands out is such an entry |
| StreamReclaims.RedeliveredIs | apps/automation-worker/src/transport/broker.ts:143-152 | what one reclaim leaves in each place: an entry claimed at least the idle time ago, with fewer than `count` such before it, is the caller's from now on with one more delivery; any other is as it was |
| StreamReclaims.DeliveriesAreCounted | apps/automation-worker/src/transport/broker.ts:143-152 | however often and by whomever reclaimed, the delivery count is the deliveries there have been |
| StreamReclaims.LastTakerOwns | apps/automation-worker/src/transport/broker.ts:143-152 | an entry belongs to the one who took it last, since then |
| StreamReclaims.ReachedWithinAnIdlePeriod | apps/automation-worker/src/transport/broker.ts:139-154 | reclaims within one idle period reach every entry idle at its start once their number times the count exceeds its position |
| StreamReclaims.StarvesIff | apps/automation-worker/src/transport/broker.ts:139-154 | reclaims a whole idle period apart, with nothing acknowledged, ever redeliver an entry if and only if it is among the first `count` |
| StreamsBroker.DeliverNext | apps/automation-worker/src/transport/broker.ts:128-135 | the delivery loop claims exactly the next undelivered entries in order |
| StreamsBroker.RedeliverIdle | apps/automation-worker/src/transport/broker.ts:143-152 | the loop that stops when full redelivers what the full pass would |
| StreamsBroker.InMemoryStreamsBroker.ReadGroup | apps/automation-worker/src/transport/broker.ts:124-137 | reads one group's next entries; an aborted read has claimed them all the same; other groups are untouched |
| StreamsBroker.InMemoryStreamsBroker.ReclaimPending | apps/automation-worker/src/transport/broker.ts:139-154 | redelivers one group's idle entries and keeps every group's partition |
| StreamsBroker.InMemoryStreamsBroker.Ack | apps/automation-worker/src/transport/broker.ts:156-158 | removes the entry from one group's pending and records it as acknowledged only if it was pending |
| StreamsBroker.InMemoryStreamsBroker.Add | apps/automation-worker/src/transport/broker.ts:160-166 | appends with the next number and disturbs no group |
| JobLeases.InMemoryJobLeaseStore.AtMostOneHolder | apps/automation-worker/src/transport/lease.ts:38-51 | of all handles ever returned for a job at most one passes assertHeld at any instant |
| JobLeases.InMemoryJobLeaseStore.OnlyTheHolderPasses | apps/automation-worker/src/transport/lease.ts:38-51 | a handle whose record is not the job's own never passes |
| JobLeases.InMemoryJobLeaseStore.HeldIff | apps/automation-worker/src/transport/lease.ts:23-51 | exactly who passes: a handle not released, whose own record is still the job's, before that record runs out |
| JobLeases.InMemoryJobLeaseStore.Acquire | apps/automation-worker/src/transport/lease.ts:23-48 | a job is handed out exactly when nobody holds it unexpired |
| JobLeases.InMemoryJobLeaseStore.Renew | apps/automation-worker/src/transport/lease.ts:33-37 | extends exactly the caller's own held lease and no other handle's standing, now or later |
| JobLeases.InMemoryJobLeaseStore.Release | apps/automation-worker/src/transport/lease.ts:41-46 | removes the record only when it is the caller's own, and changes no other handle's standing |
| JobEvents.ValidateSequence | packages/automation-protocol/src/index.ts:541-545 | the loop is the fold of the single-event check |
| JobEvents.FoldAccepts | packages/automation-protocol/src/index.ts:531-545 | a list is accepted if and only if identities match, sequences are contiguous from the cursor, nothing is expired and no terminal event precedes another |
| JobEvents.FoldComposes | packages/automation-protocol/src/index.ts:541-545 | folding a concatenation is folding its parts in turn, errors included |
| JobEvents.RefusedWithTheFirstError | packages/automation-protocol/src/index.ts:531-539 | an event is refused if and only if one of seven errors applies, with the first that does; an accepted one moves the cursor onto itself |
| JobEvents.JobEventWriter.RunNext | apps/automation-worker/src/transport/events.ts:54-77 | an emit is published exactly when it is well formed and the sink takes it; only then does the sequence advance |
| JobEvents.EmittedIs | apps/automation-worker/src/transport/events.ts:54-72 | what an emit says and exactly when it is well formed: own job and number, now, and the earlier of deadline and time to live |
| JobEvents.WriterAndCursorAgree | apps/automation-worker/src/transport/events.ts:43-77 | whatever subset of publishes failed, a fresh cursor accepts what one writer published exactly when none has expired and only the last is terminal |
| JobEvents.NothingAfterTheDeadline | apps/automation-worker/src/transport/events.ts:55-72 | once the job's deadline has passed the writer publishes nothing |
| AutomationWorkers.StepKeepsInvariant | apps/automation-worker/src/runtime/worker.ts:120-152 | every step of every worker, cancellation, crash and tick keeps the partition, the meaning of acknowledged and what terminal events say |
| AutomationWorkers.NoJobIsLost | apps/automation-worker/src/runtime/worker.ts:198-340 | with any number of workers, cancellations, crashes, aborted reads and reclaims, an acknowledged entry was no job any more, or handling that very entry published a terminal event |
| AutomationWorkers.AttemptEnds | apps/automation-worker/src/runtime/worker.ts:308-340 | what the end of an attempt changes, by the error thrown and the reason found: a lost lease or a shutdown publishes nothing and leaves the entry pending |
| AutomationWorkers.LostLeasesPublishNothing | apps/automation-worker/src/runtime/worker.ts:310-318 | in every run no event but success is published for a failure that lost the lease, or for a run cancelled by a shutdown or a lost lease |
| AutomationWorkers.OpensIff | apps/automation-worker/src/runtime/worker.ts:198-224 | a message is discarded unopened if and only if it holds no job or an expired one |
| AutomationWorkers.AroundTheAttempt | apps/automation-worker/src/runtime/worker.ts:198-340 | the steps around an attempt move only their own worker: opened, leased or passed over, begun uncancelled, left |
| AutomationWorkers.AcknowledgesItsEntry | apps/automation-worker/src/runtime/worker.ts:198-340 | an acknowledgement takes exactly the message's own entry out of the pending ones |
| AutomationWorkers.FetchesWhenIdle | apps/automation-worker/src/runtime/worker.ts:120-152 | only an idle worker reads, it then holds the next entries in order, and an aborted read has claimed them all the same |
| AutomationWorkers.FencedCancelReachesOnlyItsRun | apps/automation-worker/src/runtime/worker.ts:164-179 | a fenced request changes nothing but the token of a working, uncancelled run it names with job, account and fence |
| AutomationWorkers.FirstReasonStands | apps/automation-worker/src/runtime/cancellation.ts:29-36 | a deadline, a shutdown or a lost lease marks only a working run that nothing has cancelled before |
| AutomationWorkers.CancelledRunStep | apps/automation-worker/src/runtime/worker.ts:310-340 | whatever step comes next, a cancelled run is as it was, ended with a cancelled or succeeded event of its own, or left its entry as it was in the group |
| AutomationWorkers.CancelledRunsNeverFail | apps/automation-worker/src/runtime/worker.ts:310-340 | in every run no failed event is published for a cancelled run, and a cancelled event only for one asked to stop or out of time |
| AutomationWorkers.RetryableStaysPendingIff | apps/automation-worker/src/runtime/worker.ts:325-334 | a retryable failure leaves its entry pending if and only if its deliveries are not used up; the last one publishes the failure |
| AutomationWorkers.RetryableFailuresAreRetried | apps/automation-worker/src/runtime/worker.ts:325-334 | in every run a retryable failure is published only at the last delivery |
| AutomationWorkers.ReclaimHandsOutIff | apps/automation-worker/src/runtime/worker.ts:120-141 | a reclaim hands an entry to the worker that asks if and only if it is among the first `count` idle ones, with its new delivery count |
| PolicyHistory.PublishingKeepsTheLog | apps/worker/src/policy/feature-policy-store.ts:75-100 | a publication on the current base appends one entry, any other changes nothing, and the log stays gap-free |
| PolicyHistory.PublicationIs | apps/worker/src/policy/feature-policy-store.ts:75-100 | the entry appended says who, why, when and on which base; another base is told the current revision |
| PolicyHistory.AtMostOneWins | apps/worker/src/policy/feature-policy-store.ts:75-100 | two successful publications, however many compete, never share a base |
| PolicyHistory.MemoryPageIs | apps/worker/src/policy/feature-policy-store.ts:102-115 | filter and slice give the next lower revisions, and a cursor exactly when more remain |
| PolicyHistory.PagesAreBounded | apps/worker/src/policy/feature-policy-store.ts:102-115 | exactly which page requests are refused, by both stores alike; no page exceeds the limit asked for, nor a hundred |
| PolicyHistory.SelectRows | apps/worker/src/policy/feature-policy-durable-object.ts:147-154 | the query returns the highest revisions below the bound, newest first |
| PolicyHistory.PagesAgree | apps/worker/src/policy/feature-policy-durable-object.ts:145-163 | the in-memory and the SQL page of one log are equal, with one exact exception |
| PolicyHistory.PagingIsStable | apps/worker/src/policy/feature-policy-store.ts:102-115 | for any store that pages in closed form, following the cursors over growing views yields exactly the entries of the first view, each once, newest first, and ends |
| PolicyHistory.RunsAreGrowing | apps/worker/src/policy/feature-policy-store.ts:75-100 | what any publications leave between the pages are growing views |
| PolicyHistory.PagingWhilePublishing | apps/worker/src/policy/feature-policy-durable-object.ts:145-163 | whatever is published between the pages, both stores enumerate the log as it was at the first page |
| PolicyHistory.RollbackRestores | apps/worker/src/policy/feature-policy-store.ts:305-331 | whatever is published between lookup and publication, a rollback succeeds exactly for a target published at lookup on the base current at publication, appends the target's policy and alters no entry; it names the error of any other |
| PolicyHistory.MemoryFeaturePolicyStore.Publish | apps/worker/src/policy/feature-policy-store.ts:75-100 | the compare-and-swap on the in-memory store |
| PolicyHistory.DurableFeaturePolicyStore.Publish | apps/worker/src/policy/feature-policy-durable-object.ts:100-143 | the durable store answers and evolves as the in-memory one |
| PolicyHistory.DurableFeaturePolicyStore.History | apps/worker/src/policy/feature-policy-durable-object.ts:145-163 | its pages are the in-memory store's pages, with the one exact exception |
| PolicyRuntime.FeaturePolicyRuntime.Invalidate | apps/worker/src/policy/feature-policy-store.ts:271-278 | a notification raises the floor and drops an older cached snapshot |
| PolicyRuntime.FeaturePolicyRuntime.Current | apps/worker/src/policy/feature-policy-store.ts:254-261 | a read that came back is answered and offered to the cache; an outage falls back on the cache unchanged |
| PolicyRuntime.CacheIs | apps/worker/src/policy/feature-policy-store.ts:271-293 | whatever came in whatever order, the cache holds the last snapshot up to date when it came, if no notification has outdated it since, and is empty otherwise |
| PolicyRuntime.StepKeepsInvariant | apps/worker/src/policy/feature-policy-store.ts:240-303 | every interleaved step keeps the cache at or above the notified floor and equal to a published snapshot |
| PolicyRuntime.FallbackIsNeverStale | apps/worker/src/policy/feature-policy-store.ts:254-261 | however reads, publications and notifications interleave, the fallback is never older than any revision notified |
| PolicyRuntime.ReadsStayFresh | apps/worker/src/policy/feature-policy-store.ts:380-385 | with genuine notifications a successful read is never older than what was notified when it was asked for |
| PolicyRuntime.CacheRegressesIff | apps/worker/src/policy/feature-policy-store.ts:380-385 | exactly which steps move the cache back |
| PolicyRuntime.CacheCanRegress | apps/worker/src/policy/feature-policy-store.ts:280-303 | a concrete run in which the cache falls behind this process's own publication |
| RevisionStreams.CallListeners | apps/worker/src/policy/feature-policy-store.ts:144-156 | every listener in turn; the streams counted drop by those whose write failed |
| RevisionStreams.InProcessFeaturePolicyEvents.Publish | apps/worker/src/policy/feature-policy-store.ts:144-156 | a publication reaches every open stream that had not seen it |
| RevisionStreams.InProcessFeaturePolicyEvents.OpenStream | apps/worker/src/policy/feature-policy-store.ts:163-232 | refused exactly at 256 streams; otherwise starts from the newer of the snapshot and what was published meanwhile |
| RevisionStreams.StepKeepsOk | apps/worker/src/policy/feature-policy-store.ts:144-238 | every step keeps seen, emitted and the count consistent and takes back nothing written |
| RevisionStreams.PublishReaches | apps/worker/src/policy/feature-policy-store.ts:144-156 | a publication is written once to every open stream that has seen less, one that cannot be written to is closed, no other notices, and the count is the streams left open |
| RevisionStreams.OpeningTells | apps/worker/src/policy/feature-policy-store.ts:163-215 | a stream opens exactly below 256, and is told of the newest revision known exactly if that is newer than what it had |
| RevisionStreams.ClosingIs | apps/worker/src/policy/feature-policy-store.ts:181-194 | closing counts once and touches no other stream |
| RevisionStreams.NoWakeUpIsLost | apps/worker/src/policy/feature-policy-store.ts:163-232 | the newest revision that has reached an open stream's subscriber is at least every revision published before or after it opened; writes strictly increase, and the count is the open streams, at most 256 |
| RevisionStreams.WrittenWasHeard | apps/worker/src/policy/feature-policy-store.ts:163-232 | in every run all that is written to a stream was published, or current when a stream was opened |
| AdminLoginWindows.LoginLimiter.ConsumeAdminLoginAttempt | apps/worker/src/policy/feature-policy-durable-object.ts:176-232 | the transaction on the table, which never grows past its bound |
| AdminLoginWindows.AttemptVerdict | apps/worker/src/policy/feature-policy-durable-object.ts:176-232 | exactly which attempts are allowed: a counting bucket below its limit, a new one while fewer than ten thousand count; a refusal's delay covers the bucket's window, or the first of all to run out |
| AdminLoginWindows.AttemptStores | apps/worker/src/policy/feature-policy-durable-object.ts:190-230 | only an allowed attempt counts, in its own bucket and without moving its window; what has run out is dropped |
| AdminLoginWindows.WaitingTheQuotedDelayWorks | apps/worker/src/policy/feature-policy-durable-object.ts:176-232 | after the quoted delay with no step in between the attempt is allowed, full table or not |
| AdminLoginWindows.LoginRateHolds | apps/worker/src/policy/feature-policy-durable-object.ts:176-232 | under one configuration no closed interval of one window lets a bucket through more than twice its limit |
| ProbeBudget.ValidateIssuance | apps/worker/src/vnu/vnu-probe-budget.ts:111-130 | accepts exactly batches of bounded size, sound records and few enough distinct targets |
| ProbeBudget.IssuedMeaning | apps/worker/src/vnu/vnu-probe-budget-durable-object.ts:261-264 | a batch leaves every permit it names unconsumed, as issued, and the others alone |
| ProbeBudget.RefusalsWriteNothing | apps/worker/src/vnu/vnu-probe-budget-durable-object.ts:190-252 | any refusal leaves permits, windows, leases and alarm as they were |
| ProbeBudget.WaitingTheQuotedDelayWorks | apps/worker/src/vnu/vnu-probe-budget-durable-object.ts:57-86 | after the quoted delay with no step in between the budget does not refuse again, and a reservation succeeds |
| ProbeBudget.BusyAgainIff | apps/worker/src/vnu/vnu-probe-budget-durable-object.ts:158-171 | a busy refusal, which quotes one second, is repeated exactly if too few leases have run out by then |
| ProbeBudget.DetailBusyAgainIff | apps/worker/src/vnu/vnu-probe-budget-durable-object.ts:234-235 | the same for a detail permit, while the permit lasts |
| ProbeBudgetVerdicts.AcquireVerdict | apps/worker/src/vnu/vnu-probe-budget-durable-object.ts:158-171 | a Brc1 lease is granted if and only if fewer than six are held, for 125 seconds |
| ProbeBudgetVerdicts.AcquireStores | apps/worker/src/vnu/vnu-probe-budget-durable-object.ts:158-171 | it stores that lease and keeps exactly the others that last |
| ProbeBudgetVerdicts.ReleaseBrc1Stores | apps/worker/src/vnu/vnu-probe-budget-durable-object.ts:173-182 | a release gives back exactly the lease named, if it lasts, and writes nothing otherwise |
| ProbeBudgetVerdicts.ReleaseLeaseStores | apps/worker/src/vnu/vnu-probe-budget-durable-object.ts:270-279 | the same for a detail lease |
| ProbeBudgetVerdicts.ReserveVerdict | apps/worker/src/vnu/vnu-probe-budget-durable-object.ts:309-327 | a reservation throws unless it is of 1 to 300 units, succeeds if and only if that makes at most 300 in the window, and otherwise quotes a delay that covers it |
| ProbeBudgetVerdicts.ReserveStores | apps/worker/src/vnu/vnu-probe-budget-durable-object.ts:57-86 | it stores the units used so far and the window's end, a new one 600 seconds ahead, and nothing else |
| ProbeBudgetVerdicts.ConsumeVerdict | apps/worker/src/vnu/vnu-probe-budget-durable-object.ts:190-252 | which reply a presented permit gets: limits first, then the permit, then the budget, then the room; it releases the stored envelope if and only if all pass |
| ProbeBudgetVerdicts.ConsumeStores | apps/worker/src/vnu/vnu-probe-budget-durable-object.ts:238-249 | it marks the permit used now, charges one unit, takes a lease of 125 seconds, and keeps exactly the rest that lasts |
| ProbeBudgetVerdicts.IssueVerdict | apps/worker/src/vnu/vnu-probe-budget-durable-object.ts:254-268 | an issue call throws exactly for limits or a batch outside their shapes |
| ProbeBudgetVerdicts.IssueStores | apps/worker/src/vnu/vnu-probe-budget-durable-object.ts:254-268 | it stores every permit of the batch unused, the last record of a repeated hash, and keeps exactly the others that last |
| ProbeBudgetVerdicts.AlarmStores | apps/worker/src/vnu/vnu-probe-budget-durable-object.ts:281-299 | the alarm drops what has run out from all three stores, and nothing else |
| ProbeBudgetVerdicts.TimedStepsFindTheFirst | apps/worker/src/vnu/vnu-probe-budget-durable-object.ts:419-457 | after any write to an expiring store the alarm is due with the first item still to run out, and absent if there is none |
| ProbeBudget.ProbeBudgetObject.ConsumeCrossDetailPermit | apps/worker/src/vnu/vnu-probe-budget-durable-object.ts:190-252 | one transaction: every check before the first write, then permit, window, lease and alarm together |
| ProbeBudget.ProbeBudgetObject.IssueCrossDetailPermits | apps/worker/src/vnu/vnu-probe-budget-durable-object.ts:254-268 | stores a valid batch over the unexpired permits, or throws and stores nothing |
| ProbeBudget.ProbeBudgetObject.ReserveUnits | apps/worker/src/vnu/vnu-probe-budget-durable-object.ts:309-327 | reserves whole amounts of 1 to 300 units or none |
| ProbeBudget.ProbeBudgetObject.FireAlarm | apps/worker/src/vnu/vnu-probe-budget-durable-object.ts:281-299 | prunes the three stores one by one and ends with the right alarm |
| ProbeBudgetRuns.ProbeRateHolds | apps/worker/src/vnu/vnu-probe-budget-durable-object.ts:57-86 | in every run no closed 600 seconds grant more than 600 probe units |
| ProbeBudgetRuns.ProbeRateIsAttained | apps/worker/src/vnu/vnu-probe-budget-durable-object.ts:57-86 | a run with 600 units in one closed 600 seconds |
| ProbeBudgetRuns.ReleaseRateHolds | apps/worker/src/vnu/vnu-probe-budget-durable-object.ts:216-249 | under one configuration no closed window length releases more than twice the detail budget |
| ProbeBudgetRuns.PruningIsInvisible | apps/worker/src/vnu/vnu-probe-budget-durable-object.ts:329-417 | at every instant the stores hold, unexpired, exactly what a store that never prunes would hold |
| ProbeBudgetRuns.HonouredIff | apps/worker/src/vnu/vnu-probe-budget-durable-object.ts:190-252 | a permit is honoured if and only if it was issued, is unused and unexpired, all seven bindings are equal and there is budget and room |
| ProbeBudgetRuns.PermitsAreSingleUse | apps/worker/src/vnu/vnu-probe-budget-durable-object.ts:190-268 | in every run a permit is honoured at most once for each time it is issued |
| ProbeBudgetRuns.HonouredAsIssued | apps/worker/src/vnu/vnu-probe-budget-durable-object.ts:190-252 | an honoured permit matches a record some call issued, and hands out that record's envelope |
| ProbeBudgetRuns.IssuedPermitIsHonoured | apps/worker/src/vnu/vnu-probe-budget-durable-object.ts:190-268 | whatever happens to other permits in between, a permit no later step names is honoured while it lasts and there is room, and returns the envelope it was issued with |
| ProbeBudgetRuns.CapacityHolds | apps/worker/src/vnu/vnu-probe-budget-durable-object.ts:158-182 | at every instant at most six Brc1 leases, and at most the concurrency limit of detail leases, are granted, unreleased and unexpired |
| ProbeBudgetRuns.AlarmIsTheLeastExpiry | apps/worker/src/vnu/vnu-probe-budget-durable-object.ts:419-457 | until it is due the stored alarm is the least unexpired expiry over the three stores |
| ProbeBudgetRuns.DueAlarmShrinks | apps/worker/src/vnu/vnu-probe-budget-durable-object.ts:281-299 | a due alarm removes something, so alarms alone empty the stores |
| CrossDetailMinter.Minter.Mint | apps/worker/src/vnu/vnu-cross-detail.ts:118-201 | a row gets no permit exactly when a cap is reached; otherwise its own record is appended and its target counted |
| CrossDetailMinter.EveryBatchIsIssuable | apps/worker/src/vnu/vnu-cross-detail.ts:118-201 | every nonempty batch a minter builds passes issuance validation under the same limits |
| CrossDetailMinter.RowIsFourLines | apps/worker/src/vnu/vnu-cross-detail.ts:151-155 | the row digest is of four lines: student, term, class, course |
| CrossDetailMinter.SameBindingsNeedACollision | apps/worker/src/vnu/vnu-cross-detail.ts:136-155 | permits with equal bindings are for the same requester, student, transcript and row, or whichever differs is a collision of its own digest |
| CrossDetailMinter.ParsesIffJoined | apps/worker/src/vnu/vnu-cross-detail.ts:203-215 | a permit string parses exactly when it is an identifier, a dot and a fitting envelope, and every minted one does |
| CrossDetailMinter.OnlyTheRequesterCanPresent | apps/worker/src/vnu/vnu-cross-detail.ts:217-236 | presenting a minted permit passes all bindings exactly for a bearer with the requester's digest |
| Base64Url.EncoderIsUnpadded | packages/automation-protocol/src/index.ts:73-77 | the pipeline over btoa is base64url without padding |
| Base64Url.EncoderSpellsBits | packages/automation-protocol/src/index.ts:73-77 | each character is the letter of Table 2 of RFC 4648 for the next six bits of the bytes, zeros after the last |
| Base64Url.SameBits | packages/automation-protocol/src/index.ts:73-77 | the groups of six hold the bytes' bits in order, and zeros in what is left of the last |
| Base64Url.DecoderReadsSextets | packages/automation-protocol/src/index.ts:79-93 | the pipeline over padEnd and atob reads the text's groups of six bits |
| Base64Url.DecoderAcceptsIffCanonical | packages/automation-protocol/src/index.ts:79-94 | the strict decoder accepts exactly the nonempty canonical unpadded strings of sections 3.5 and 5 of RFC 4648 |
| Base64Url.DecoderInvertsEncoder | packages/automation-protocol/src/index.ts:73-94 | decoding undoes encoding for every nonempty input |
| Base64Url.EncodedLength | packages/core/src/index.ts:155-159 | the text has ceil(4n/3) url-safe characters |
| AutomationEnvelope.AuthenticatedDataBuffer | packages/automation-protocol/src/index.ts:270-280 | the filled buffer is prefix, header, zero byte and context; a context outside 1..4096 bytes is refused |
| AutomationEnvelope.PiecesAre | packages/automation-protocol/src/index.ts:270-280 | where each piece of the authenticated data lies, and exactly which contexts are refused |
| AutomationEnvelope.HeaderJsonIsInjective | packages/automation-protocol/src/index.ts:266-268 | two valid headers never print to the same JSON |
| AutomationEnvelope.NonceIsTwelveBytes | packages/automation-protocol/src/index.ts:295-303 | the header's nonce check never fires once the schema holds |
| AutomationEnvelope.HeaderIs | packages/automation-protocol/src/index.ts:245-252 | which headers the schema accepts, told by their characters |
| AutomationEnvelope.AuthenticatedDataIsInjective | packages/automation-protocol/src/index.ts:270-280 | equal authenticated data means equal header and equal context |
| AutomationEnvelope.SplitIffToken | packages/automation-protocol/src/index.ts:310-313 | splitting at dots finds the three parts exactly in tokens of that form |
| AutomationEnvelope.DecodesIffEncoded | packages/automation-protocol/src/index.ts:305-324 | exactly when an encoded header and ciphertext are read back as themselves |
| AutomationEnvelope.DecodedTokensAreEncodings | packages/automation-protocol/src/index.ts:310-324 | every token that decodes is the encoding of its header bytes and ciphertext |
| AutomationEnvelope.EnvelopeRoundTrip | packages/automation-protocol/src/index.ts:305-324 | decoding undoes encoding for every valid header and permitted payload size |
| AutomationEnvelope.GrantLengthIsExact | packages/core/src/index.ts:269-274 | the predicted length of a refresh grant is the length of its token |
| CaptchaRelay.EachWaiterSettlesOnce | apps/worker/src/captcha/captcha-relay.ts:57-139 | in every run each waiter is settled once or still waits, and each preparation of a challenge accepts at most one answer |
| CaptchaRelay.NobodyIsLeftBehind | apps/worker/src/captcha/captcha-relay.ts:116-139 | however a challenge ends, everyone waiting on it gets the same news and nobody waits on |
| CaptchaRelay.StepTells | apps/worker/src/captcha/captcha-relay.ts:57-139 | exactly what each step tells whom |
| CaptchaRelay.StepLeaves | apps/worker/src/captcha/captcha-relay.ts:57-139 | exactly how a challenge goes on from each step: opened, answered, joined or gone |
| CaptchaRelay.AcceptedAnswerCanBeLost | apps/worker/src/captcha/captcha-relay.ts:76-85 | an answer accepted before anyone waits is lost to a timeout or a cancellation |
| CaptchaRelay.AnswerIsDeliveredIff | apps/worker/src/captcha/captcha-relay.ts:76-114 | such an answer is held through any other steps, and reaches a waiter if and only if a wait comes before every timeout and cancellation of its challenge |
| CaptchaRelay.LocalCaptchaRelayCoordinator.WaitFor | apps/worker/src/captcha/captcha-relay.ts:87-107 | waiting on a missing, answered, aborted or pending challenge |
| CaptchaRelay.LocalCaptchaRelayCoordinator.AnswerChallenge | apps/worker/src/captcha/captcha-relay.ts:76-85 | an answer is accepted exactly while the challenge is pending, and settles everyone waiting |

## Left out

- HTTP routes, server-sent-event framing, HTML scraping, upstream clients, browsers and the React application: input and output around the modelled logic.
- AES-GCM, HMAC, HKDF, OAuth and JWT: keys, digests and ciphertexts are abstract values; the tag adds 16 bytes, which is all the length results use.
- Redis and PostgreSQL coordinators: only the in-memory broker and lease store are modelled, so nothing is said about delivery counts of Redis messages.
- JSON and schema parsing of stored rows: a stored state is a typed value, and reading it back is the acceptance predicate; JSON.parse of an envelope header is a function assumed to read back what JSON.stringify printed.
- Object key order in state comparison by JSON.stringify: taken as structural equality.
- StreamsBroker: group keys are pairs of names, where the source joins them with a colon and could confuse names that contain one.
- ResolverRun.ResolveVnuStudentId: does not model the zero-padding of the identifier to eleven digits or the probe count in the result; the probe count is the length of the modelled trace.
- BulkLookupRun: what a resolved target yields is left to the resolver's contract; only units, slots and answered positions are tracked.
- VnuRefreshLineage.NothingOutlivesItsSignIn: bounds the instant an access check acts on; a check may have read its clock before waiting for storage, so its answer can arrive later than that.
- VnuRefreshCleanupRuns.ContinuationStaysInvisible: speaks of later steps that act at or after the instant of the cleanup; the one kind that may not, an access check with an older clock reading, is decided in StaleCheckShowsIff.
- VnuRefreshCleanupLimits.CleanupHidesIff: takes one pair of identifiers the state does not mention, as sign-ins supply, and a clock that can still advance half an hour.
- VnuRefreshLineage.LinkedGrantReach: is stated for grants that have not expired; after that a repeat reads as a mismatch.
- JobEvents: "the terminal event is last" is not claimed for a job, only what one writer's list satisfies; a redelivered job starts a new writer at sequence 0.
- AutomationWorkers: a failing acknowledgement is not modelled (the in-memory broker's cannot fail), nor are heartbeat, progress and challenge events, which acknowledge nothing. A token cancelled after its attempt has ended is not read again, so the model leaves it as it was.
- AutomationWorkers.NoJobIsLost: lease denial and grant are free choices there, so it holds with any lease store; mutual exclusion is proved in JobLeases. A job that expired counts as no job any more.
- JobLeases: acquisition does not compare fences, in the source or here.
- ProbeBudgetRuns.ReleaseRateHolds: limits are passed call by call, so the rate is stated for runs that pass the same budget and window throughout.
- ProbeBudgetRuns.AlarmIsTheLeastExpiry: an expired item of a store that was not pruned may stay stored without an alarm until the next operation on that store; it is never counted again.
- PolicyHistory: policy validation and cloning are left out; a policy is an opaque text, and revisions stop at the largest safe integer as the schema does.
- RevisionStreams: the Durable Object's own subscriber set with heartbeats is not modelled, and a listener that throws for another reason than its stream is not.
- PolicyRuntime: the stream route's authoritative read is the `currentRevision` argument of an opened stream.
- CaptchaRelay.LocalCaptchaRelayCoordinator.WaitFor: promises are settlement records; timers and abort listeners are steps, enabled only while the source keeps them registered.
- VnuRefreshControl: identifiers are 22-character texts taken as atoms, and the clock is bounded by what a JavaScript date can hold.
- ha-lifecycle, logging, i18n, mappers and dashboard filtering: single-branch facts or plain data mapping.
