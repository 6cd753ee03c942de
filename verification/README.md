# Verified model of the report-writing back end

The back end turns officers' incident notes into reports. It keeps durable AI jobs, append-only
revision logs, login sessions, a shared staff roster and paperwork packets, and it rewrites
generated text. This project models those parts in Dafny and proves what they promise over whole
runs.

Each stateful component appears twice. A class holds the fields that the program updates and one
method per operation; every method is proved equal to a function of the old state. The lemmas are
about those functions, over every sequence of events: requests, retries, crashes, late replies,
rival writers and officers' edits.

| files | part of the system |
|---|---|
| `idempotency.dfy` | claims on idempotency keys |
| `jobs.dfy`, `job_runs.dfy`, `job_results.dfy` | submission, leased claims and finalisation of AI jobs |
| `dispatch.dfy` | outbox rows and the task queue |
| `reports.dfy`, `report_records.dfy` | report revisions, access rows, guarded requests |
| `incidents.dfy`, `paperwork.dfy` | incident and paperwork logs |
| `sessions.dfy`, `session_runs.dfy`, `session_effects.dfy` | sessions, renewal tokens, account versions |
| `lockout.dfy`, `rate_limits.dfy` | PIN lockout, fixed-window limits |
| `roster.dfy`, `roster_runs.dfy`, `roster_cache.dfy` | the roster object, its writers, one process's cache |
| `packet_plan.dfy`, `packets.dfy` | paperwork packets |
| `citations.dfy`, `inference.dfy`, `names.dfy`, `bulk_reference.dfy` | text rewriting and codecs |
| `base.dfy`, `decimal.dfy`, `hexadecimal.dfy` | shared vocabulary, numerals, printed identifiers |

Check everything with `dafny verify dfyconfig.toml`.

## Assumptions

- A transaction that holds its row locks is one atomic step. Clock readings, new identifiers and
  new tokens are arguments of the step; identifiers and tokens are fresh.
- Hashes are injective: a request digest stands for the canonical request, a token hash for the
  token. Renewal and access tokens, session families and incident numbers are unique, as the
  indexes demand.
- Failed logins and detected token reuse are written and then raised. The login and renewal routes
  catch those errors inside the transaction scope (`backend/webapp/api_v1/auth.py:230-247` and
  `:450-465`), so the writes are committed.
- The task queue never accepts the same task name twice. A reply that reports a transient error
  leaves open whether the task was created.
- The bucket's conditional write is atomic, generations grow, and a download reads one generation.
- A request that is refused rolls its transaction back.

## Findings

Some expected properties are false of the code. The model keeps the code as it is. For each of
them there is a witness and the exact condition under which the property holds.

- A worker may hand a job back before its lease ends, and the job can be claimed again at once.
  Counting such attempts, "every attempt but the newest used up 20 minutes" fails after one
  submission, claim, release and claim (`JobRuns.OneHandBackIsEnough`). It holds throughout a run
  exactly when every claim of a handed-back job comes no earlier than 20 minutes per attempt after
  the start (`JobRuns.BoundHoldsIff`), so in particular when nobody hands the job back
  (`JobRuns.UnreleasedStaysBounded`); handing back a running job often enough always breaks it
  (`JobRuns.HandBacksBreakTheBound`).
- A worker gives a job up with the newest token but without a live lease, exactly while the job
  runs (`JobRuns.GivingUpIgnoresTheLease`, `JobRuns.LateGiveUp`).
- A retried paperwork save is never replayed. The base check comes before the claim and the save
  has moved the base, so the retry always conflicts (`Paperwork.SavesAreNeverReplayed`).
- Restoring an incident clears its number exactly when the restored revision had none
  (`Incidents.RestoreClearsTheNumberIff`, `Incidents.RestoreCanClearTheNumber`).
- Staff names stay unique exactly when every write meets its mutation's condition
  (`RosterRuns.NamesStayUniqueIff`). Additions from reports and removals always do. The
  administrator's addition does when it adds nobody or a new name, the administrator's edit when
  it updates nobody or gives a name that no other position has; neither looks at names
  (`Roster.AdditionOfANamesake`, `Roster.EditToANamesake`).
- Adding a form from the library to a required row that is removed or dismissed succeeds and
  changes nothing (`Packets.AddSelectsIff`, `Packets.AddCanDoNothing`). An added form survives the
  next rebuild exactly when the plan has it or the row was the officer's own
  (`Packets.AddedFormSurvivesIff`).
- Grounding an answer again on its own citations can drop inferred citations, if a sentence ties
  between two passages (`Inference.TiesReattribute`). It changes nothing exactly when no citations
  were inferred or the cited passages are reused in order: each is, for some sentence, the first
  cited one with as many words as that sentence's own, before any sentence first ties with a later
  one (`Inference.GroundingAgain`).
- A staff member with a rank and no first name is written with two spaces between rank and last
  name in the full form (`Names.StaffForms`).

The reference of a bulk export maps revision zero and a missing revision to the same text. Stored
revisions start at one, so `BulkReference.RoundTripIff` is exact for every list that occurs.

## Model

| member | source | states |
|---|---|---|
| Idempotency.Store.ClaimKey | backend/identity/idempotency.py:53-117 | a claim is granted when the key is new or expired, otherwise it replays the same digest's reference, refuses another digest, or finds the request in progress |
| Idempotency.Store.Complete | backend/identity/idempotency.py:120-144 | completion stores the reference on a record in progress and on no other |
| Idempotency.NeverInProgress | backend/identity/idempotency.py:111-117 | when claim, work and completion share a transaction no request ever meets another one in progress |
| Idempotency.RecordStands | backend/identity/idempotency.py:78-117 | the record of the last execution of a key stands through any requests until the key is executed again |
| Idempotency.ExecutionsAreADayApart | backend/identity/idempotency.py:68-110 | two granted executions of one actor, action and key are at least 24 hours apart by claim time |
| Idempotency.RetryReplays | backend/identity/idempotency.py:111-117 | between them the same digest gets the stored reference, another digest is refused, and nothing executes |
| Idempotency.FreeAgainIff | backend/identity/idempotency.py:101-110 | after an execution the key is free for any request again exactly 24 hours later |
| Idempotency.UnusedIsFree | backend/identity/idempotency.py:87-88 | a valid key nobody used is free for any request |
| Idempotency.KeyRules | backend/identity/idempotency.py:66-67 | a key has 8 to 128 letters, digits, dots, underscores, colons and hyphens |
| Jobs.JobService.SubmitJob | backend/jobs/service.py:189-264 | one job, outbox row, completed claim and audit event per accepted submission; replays, stale bases, refusals and missing incidents change nothing |
| Jobs.JobService.EnqueueJob | backend/jobs/outbox.py:11-22 | exactly one pending row with no attempts, available now |
| Jobs.JobService.ClaimJob | backend/jobs/service.py:280-312 | only queued or lease-expired work is claimed, with a new token, a 20 minute lease, one more attempt and the first start time kept |
| Jobs.JobService.ValidateResultTargets | backend/jobs/service.py:315-340 | accepted exactly when every revision a result names was saved for the job's own incident |
| Jobs.JobService.ApplyJobResult | backend/jobs/service.py:343-445 | terminal jobs are left alone; otherwise a live lease is needed, a stale base fails the job, and a success stores validated targets |
| Jobs.JobService.DeliverResult | backend/worker/routes.py:750-826 | under a live lease the saves and the job's success are one transaction whose reference names what was saved; a moved incident fails the job and saves nothing |
| Jobs.JobService.MarkTerminal | backend/worker/routes.py:434-466 | giving up fails the job for the holder of the newest token only |
| Jobs.JobService.ReleaseTransient | backend/worker/routes.py:469-482 | handing back requeues the job for the holder of the newest token only |
| JobRuns.OneRowAndAtMostOneEnd | backend/jobs/service.py:223-264 | in every run each job has exactly one outbox row, and one terminal audit event if terminal and none otherwise |
| JobRuns.TerminalForever | backend/jobs/service.py:371-372 | a finished job is never changed again by any event |
| JobRuns.OnlyTheNewestClaimFinishes | backend/jobs/service.py:373-445 | in every run that finishes a job exactly one step does; it presents the newest token ever issued for the job, a delivered or applied result under an unexpired lease; success means the incident was still at the base revision and the result names saved revisions |
| JobRuns.StaleWorkersChangeNothing | backend/jobs/service.py:375-381 | a worker whose claim was superseded can neither deliver, apply, give up nor release |
| JobRuns.AttemptsUseUpLeases | backend/jobs/service.py:284-312 | in every run started_at plus 20 minutes for each finished, not handed-back attempt is at most the last claim time |
| JobRuns.BoundHoldsIff | backend/jobs/service.py:284-312 | counting handed-back attempts as well, the bound holds throughout a run exactly when every claim of a handed-back job waits 20 minutes per attempt from the start |
| JobRuns.BoundFromTheStartIff | backend/jobs/service.py:284-312 | the same for every run from the empty state |
| JobRuns.UnreleasedStaysBounded | backend/jobs/service.py:284-312 | the bound survives every further run in which the job is not handed back |
| JobRuns.HandBacksBreakTheBound | backend/worker/routes.py:469-482 | handing back a running job and claiming it at once, often enough, breaks the bound |
| JobRuns.OneHandBackIsEnough | backend/worker/routes.py:469-482 | a run from the empty state that breaks it with one release |
| JobRuns.GivingUpIgnoresTheLease | backend/worker/routes.py:434-466 | giving up works exactly for the newest token of a running job, whether or not its lease lives |
| JobRuns.LateGiveUp | backend/worker/routes.py:434-466 | a run in which a worker gives up a minute after its lease ended |
| JobRuns.ResubmissionCreatesNothing | backend/jobs/service.py:206-264 | for a day after a submission the same request returns its job and creates no job, outbox row or audit event; other requests on the key are refused |
| JobResults.DeliverySucceeds | backend/worker/routes.py:750-826 | within 20 minutes of its claim the newest worker's delivery for an unmoved incident succeeds, saves every delivered report or the incident's next revision, and refers to exactly that |
| JobResults.DeliveredForGood | backend/worker/routes.py:750-826 | and through any further run the job has succeeded with that result and its revisions are saved |
| JobResults.MovedIncidentsFailDeliveries | backend/worker/routes.py:766-774 | for a moved incident the job fails with the conflict code and nothing is saved |
| JobResults.ApplyDecides | backend/jobs/service.py:382-445 | in time a result succeeds exactly on the current base with every named revision saved, a stale one fails the job, unsaved targets change nothing |
| JobResults.GivingUpFailsTheJob | backend/worker/routes.py:434-466 | giving up fails the job with the worker's code and one audit event |
| JobResults.ClaimedIff | backend/jobs/service.py:280-312 | a claim succeeds exactly on queued work and 20 minutes or more after the newest claim; the claimed worker may finish for exactly 20 minutes |
| JobResults.HandedBackIsFree | backend/worker/routes.py:469-482 | a handed-back job can be claimed at once |
| JobResults.AttemptsAreClaims | backend/jobs/service.py:304-308 | the attempts of a job are its claims in every run, and its first start is kept |
| JobResults.SubmissionCreatesIff | backend/jobs/service.py:189-240 | with an unused key a submission creates a job exactly for an authorised actor on the incident's current revision, and otherwise changes nothing |
| JobResults.SubmissionIsQueued | backend/jobs/service.py:223-264 | its job is queued for what was submitted, with one pending outbox row available now and one audit event |
| JobResults.SubmittedRequestStays | backend/jobs/service.py:223-238 | in every later run the job is for what was submitted, by whom and when |
| Dispatch.DelayDoublesTo256 | backend/jobs/dispatcher.py:133-148 | each retry delay lies in 2..256 seconds, doubles up to the eighth failure and never reaches the cap |
| Dispatch.Outbox.MarkDispatched | backend/jobs/dispatcher.py:121-130 | only a pending row becomes dispatched |
| Dispatch.Outbox.MarkFailure | backend/jobs/dispatcher.py:133-148 | only a pending row counts a failure; a permanent one settles it, a retryable one delays it |
| Dispatch.Outbox.CreateWithRetries | backend/jobs/dispatcher.py:206-216 | at most three calls; the first reply that is not transient decides |
| Dispatch.Outbox.DispatchPending | backend/jobs/dispatcher.py:189-231 | the rows and the summary of one pass over the fetched rows |
| Dispatch.NamesAreInjective | backend/jobs/dispatcher.py:151-156 | different jobs get different task names |
| Dispatch.TakenMeansOwnTask | backend/jobs/dispatcher.py:151-156 | when the queue knows the name, it is the job's own task that exists |
| Dispatch.DispatchedMeansCreatedOnce | backend/jobs/dispatcher.py:203-230 | with overlapping, crashing dispatchers and a queue that compares names, at most one task per job ever exists, and a dispatched row's own task was created |
| Dispatch.SettledRowsStay | backend/jobs/dispatcher.py:121-148 | dispatched and failed rows never change again in any run |
| Dispatch.LostReplyIsRecovered | backend/jobs/dispatcher.py:206-230 | a pending row whose task already exists gets no second task and is marked dispatched exactly when the queue reports the name, failed exactly when it rejects the request, and is left pending otherwise |
| Dispatch.PassCountsEveryRow | backend/jobs/dispatcher.py:199-231 | dispatched, failed and pending count every fetched row exactly once |
| Dispatch.VerdictsFollowTheReplies | backend/jobs/dispatcher.py:183-230 | a row is delivered exactly if the first definite reply took the task or had it, permanently failed exactly if it rejected it, and retryable exactly if all replies were transient |
| Dispatch.RowsEndByTheirReplies | backend/jobs/dispatcher.py:199-231 | after a pass each fetched pending row is dispatched, failed, or pending again in 2 to 256 seconds, by its own replies, with one more attempt and its error; no other row changes |
| Dispatch.CountsFollowTheReplies | backend/jobs/dispatcher.py:199-231 | the counters are the numbers of rows taken or had, rejected, and never answered definitely |
| Dispatch.DecisionsMarkTheRow | backend/jobs/dispatcher.py:206-230 | among overlapping dispatchers a decided call marks its pending row dispatched exactly on a created or existing task, failed exactly on a rejection |
| Reports.ReportRow.SaveReport | backend/reports/revisions.py:277-336 | a save on the current base appends the next revision, replaces the content and moves the current number; any other base conflicts |
| Reports.ReportRow.SaveReportStatus | backend/reports/revisions.py:339-403 | a status change appends a revision of the unchanged content and sets or clears the archive time |
| Reports.ReportRow.RestoreReport | backend/reports/revisions.py:473-537 | a restore appends the named revision's content as a new current revision |
| Reports.ReportRow.CreateRecoveryRevision | backend/reports/revisions.py:540-604 | a recovery appends a revision and changes neither content nor current number |
| Reports.ReportRow.TransferOwnership | backend/reports/revisions.py:607-708 | a transfer needs active staff, appends a revision and gives the access rows of the new pair |
| Reports.ReportRow.ReplaceAccess | backend/reports/revisions.py:632-672 | live rows outside the new pair are revoked, the pair's rows granted or reactivated, no row deleted |
| Reports.OnlyTheNewestBaseIsAccepted | backend/reports/revisions.py:248-268 | in every run exactly one base is accepted, the number of the newest revision that is not a recovery; every other one that is not negative conflicts with that number |
| Reports.SaveAcceptedIff | backend/reports/revisions.py:290-296 | a save is accepted exactly on the current number and for one of the four reasons of saves |
| Reports.SavedTextIsKept | backend/reports/revisions.py:293-336 | an accepted save makes the submitted text the content, logs it under the officer's name, and restoring it brings it back after any further run |
| Reports.RecoveredTextIsKept | backend/reports/revisions.py:540-604 | an accepted recovery logs the recovered text, its base and the officer and changes nothing else; restoring it brings the text back after any further run |
| Reports.RecoveryAcceptedIff | backend/reports/revisions.py:552-566 | a recovery is accepted for exactly the revisions up to the current one |
| Reports.RestoreIsRecorded | backend/reports/revisions.py:473-537 | a restore logs which revision it brought back and by whom |
| Reports.StatusIsSet | backend/reports/revisions.py:339-403 | an accepted status change sets the status and the archive time and logs the unchanged text |
| Reports.StatusIsTheLastSet | backend/reports/revisions.py:339-403 | in every run the archive time exists exactly while archived, and only status changes touch either |
| Reports.TransferTakesEffect | backend/reports/revisions.py:607-708 | a transfer is accepted exactly for active staff, installs the named owner and preparer, revokes everyone else now and keeps the text |
| Reports.RunInv | backend/reports/revisions.py:111-115 | in every run revisions are numbered 1..n, old ones never change, the current number names the newest non-recovery revision and its snapshot is the current content |
| Reports.OneSavePerBase | backend/reports/revisions.py:248-268 | of two saves or status changes on one base, whatever happens between them, the second conflicts and changes nothing |
| Reports.RecoveriesAreHarmless | backend/reports/revisions.py:540-604 | any number of recoveries leaves a pending save as successful as before, with the same new content |
| Reports.RestoreBringsBack | backend/reports/revisions.py:473-537 | restoring works for exactly the logged numbers and brings back that content after any run |
| Reports.ShellInv | backend/worker/routes.py:621-655 | a new report shell satisfies the invariant |
| Reports.RowsAgreeWithPolicy | backend/reports/policy.py:6-12 | after any run access by rows equals access by owner and preparer fields for everyone who is not an administrator |
| Reports.TransferAccess | backend/reports/revisions.py:632-672 | after a transfer the live rows are exactly those of the owner and the preparer, with the right relationship, and one row per staff member |
| Reports.TransferBack | backend/reports/revisions.py:607-708 | transferring back restores the old pair's live rows without adding rows |
| ReportRecords.ReportService.Execute | backend/reports/persistence.py:1254-1282 | authorise, claim, execute and complete in this order; a refusal leaves no trace |
| ReportRecords.RetryAppendsNothing | backend/reports/persistence.py:1068-1092 | for a day, through any requests and worker saves, the same request returns its own revision's number and appends nothing; another request is refused; a revoked actor learns nothing |
| ReportRecords.DigestsAgreeIff | backend/reports/persistence.py:1259-1266 | two operations have one digest exactly when they ask for the same, whoever asks and when |
| ReportRecords.FirstUseExecutesIff | backend/reports/persistence.py:650-666 | with an unused key a request is carried out exactly for an administrator or live access and when the report accepts it |
| Incidents.IncidentService.CreateIncident | backend/reports/persistence.py:369-445 | an incident starts with revision 1 of its own content; a taken number is refused |
| Incidents.IncidentService.SaveIncidentRecord | backend/reports/persistence.py:448-518 | an officer's save claims first, checks the base and numbers from the row |
| Incidents.IncidentService.SaveIncident | backend/reports/revisions.py:406-470 | the worker's save numbers from the log and carries the identity forward |
| Incidents.IncidentService.CarryForwardIdentity | backend/reports/incident_numbers.py:54-72 | an omitted number or label keeps the incident's own |
| Incidents.IncidentService.RestoreIncidentRecord | backend/reports/persistence.py:566-625 | a restore copies the old snapshot as it was, identity included |
| Incidents.IncidentService.SetRecordsStatus | backend/webapp/web_api/admin_incidents.py:368-438 | a status change on the current base copies the current snapshot into the next revision; a base below one is invalid |
| Incidents.IncidentService.Execute | backend/reports/persistence.py:448-518 | the common frame of the guarded incident requests |
| Incidents.NumberingRulesAgree | backend/reports/persistence.py:483-497 | current + 1 and maximum + 1 are the same number in every reachable state |
| Incidents.CreatedContentIsKept | backend/reports/persistence.py:402-445 | a new incident is accepted exactly with a free number and holds what was submitted as its first revision |
| Incidents.SavedContentIsKept | backend/reports/persistence.py:476-498 | an accepted save is on the row, with the row's own identity where it gives none, and stays in the log through any run |
| Incidents.SaveAcceptedIff | backend/reports/persistence.py:463-475 | a save is accepted exactly on the current revision and with a free number |
| Incidents.RestoreAcceptedIff | backend/reports/persistence.py:571-586 | a restore is invalid below one, finds nothing past the log and needs a free number otherwise |
| Incidents.RestoredOrSet | backend/reports/persistence.py:587-606 | a restore puts exactly the named snapshot on the row, a status change sets the status and keeps the row |
| Incidents.RunInv | backend/reports/persistence.py:466-518 | in every run every log is contiguous, append-only, ends in the row itself, and incident numbers stay unique |
| Incidents.NumberIsNeverCleared | backend/reports/incident_numbers.py:54-72 | over any run without a restore of that incident an assigned number stays on the row and in every later snapshot |
| Incidents.RestoreClearsTheNumberIff | backend/reports/persistence.py:587-604 | a restore clears the number exactly when the restored snapshot had none |
| Incidents.RestoreCanClearTheNumber | backend/reports/persistence.py:587-604 | a run from the empty state in which it does: created without a number, numbered, first revision restored |
| Incidents.RetryCreatesNothing | backend/reports/persistence.py:393-518 | for a day, whatever officers and workers do, a repeated create, save, restore or status request returns the same incident and revision and creates neither |
| Incidents.FirstUseExecutesIff | backend/reports/persistence.py:455-475 | with an unused key a request is carried out exactly for a visible incident, or a new one, that accepts it |
| Paperwork.PaperworkService.SaveRecord | backend/paperwork/service.py:169-308 | the kind, permission and base are checked before the key is claimed; a save appends the next snapshot |
| Paperwork.PaperworkService.RestoreRecord | backend/paperwork/service.py:515-624 | a restore of the same kind appends the old snapshot |
| Paperwork.RunInv | backend/paperwork/service.py:228-270 | in every run logs are contiguous and append-only, the live record is its newest snapshot, and a record's kind never changes |
| Paperwork.SubmittedContentIsKept | backend/paperwork/service.py:228-270 | a save is the live record and newest revision, a restore brings back exactly the named snapshot, and both stay in the log through any run |
| Paperwork.CreatedRecord | backend/paperwork/service.py:228-250 | a new record holds what was submitted and belongs to its creator |
| Paperwork.SaveAcceptedIff | backend/paperwork/service.py:197-225 | with an unused key a save is carried out exactly by the creator or an administrator, on the current revision and with the record's kind |
| Paperwork.RestoreAcceptedIff | backend/paperwork/service.py:515-567 | and a restore of exactly the logged revisions and the expected kind |
| Paperwork.StrangersLearnNothing | backend/paperwork/service.py:87-100 | someone who may not edit a record gets the answer of a missing record, and changes nothing |
| Paperwork.DigestsAgreeIff | backend/paperwork/service.py:217-224 | two requests have one digest exactly when they ask for the same |
| Paperwork.RetryAppendsNothing | backend/paperwork/service.py:217-308 | for a day a repeated create or restore appends nothing and gets the first reference, unless an earlier check refuses it |
| Paperwork.SavesAreNeverReplayed | backend/paperwork/service.py:213-226 | in no reachable state is a save answered from a stored reference |
| Paperwork.RepeatedSaveConflicts | backend/paperwork/service.py:213-226 | after a save the same save conflicts forever and changes nothing |
| Sessions.SessionService.CreateSession | backend/identity/sessions.py:88-125 | a login inserts a session bound to the account's version with the lifetimes of its kind |
| Sessions.SessionService.RenewSession | backend/identity/sessions.py:211-301 | a usable token is rotated into the history; a used one revokes its family and is refused |
| Sessions.SessionService.RevokeSession | backend/identity/sessions.py:329-359 | an account revokes its own session only |
| Sessions.SessionService.Logout | backend/identity/sessions.py:362-398 | logging out everywhere bumps the version and revokes every session of the account |
| Sessions.SessionService.ChangeOwnPin | backend/identity/sessions.py:401-488 | a PIN change bumps the version, revokes the other sessions and rotates the current one |
| Sessions.SessionService.ChangeRoleOrStatus | backend/identity/accounts.py:230-271 | a role or status change bumps the version, a role change or deactivation revokes all sessions, and the last active administrator stays one |
| Sessions.SessionService.ResetAccountPin | backend/identity/accounts.py:274-295 | a PIN reset bumps the version and revokes all sessions |
| Sessions.SessionService.UnlockAccount | backend/identity/accounts.py:298-323 | an unlock bumps the version and revokes all sessions |
| Sessions.SessionService.ResolveAccess | backend/identity/sessions.py:304-326 | authenticates exactly the unexpired, unrevoked session of an active account at the current version |
| SessionRuns.EveryTokenIsCurrentOrUsed | backend/identity/sessions.py:259-301 | in every run every renewal token ever issued is a session's current one or in the history, never both |
| SessionRuns.UsedTokenRevokes | backend/identity/sessions.py:227-257 | presenting a used token yields nothing and revokes the session it came from |
| SessionRuns.RenewsAtMostOnce | backend/identity/sessions.py:211-301 | each renewal token yields credentials at most once over a whole run |
| SessionRuns.RevokedForever | backend/identity/sessions.py:187-208 | a revoked session's row never changes again and neither authenticates, renews nor changes a PIN |
| SessionRuns.InvalidationOutdatesAll | backend/identity/accounts.py:230-323 | logout-all, role or status change, PIN reset and unlock outdate every session of the account |
| SessionRuns.OutdatedForever | backend/identity/sessions.py:171-184 | an outdated session never again authenticates, renews or changes a PIN |
| SessionRuns.PinChangeLeavesOneSession | backend/identity/sessions.py:401-488 | after a PIN change at most the session used for it is usable |
| SessionRuns.NonpersistentSessionsEnd | backend/identity/sessions.py:259-301 | through any renewals and PIN changes a non-persistent session never authenticates past creation plus one renewal and one access lifetime |
| SessionEffects.AuthenticatesIff | backend/identity/sessions.py:304-326 | an access token authenticates exactly the session whose current unexpired token it is, unrevoked, of its account's version, for an active account and staff member |
| SessionEffects.RenewsIff | backend/identity/sessions.py:259-270 | a renewal token yields credentials exactly for its session's device, in time, while the session is in force |
| SessionEffects.ChangesPinIff | backend/identity/sessions.py:401-440 | a PIN change needs the account's own session in force, its device, in time and the right PIN |
| SessionEffects.LogsInIff | backend/identity/sessions.py:83-96 | a session is created exactly for an active account and staff member |
| SessionEffects.LoginGivesASession | backend/identity/sessions.py:88-125 | its access token works for one access lifetime, its renewal token from its device for the lifetime of its kind, and no other session changes |
| SessionEffects.RenewalReplacesTokens | backend/identity/sessions.py:272-301 | a renewal makes the new tokens work and the old ones not, until the old deadline or a new one if persistent, and touches no other session |
| SessionEffects.RevokesItsFamily | backend/identity/sessions.py:329-359 | an account revokes its own session and its family and no other session; another account's session not at all |
| SessionEffects.RevokedFamilyIsDead | backend/identity/sessions.py:187-208 | after an accepted revocation no session of the family authenticates, renews or changes a PIN in any further run |
| SessionEffects.ReusedFamilyIsDead | backend/identity/sessions.py:227-257 | nor after a rotated token was presented again, which is recorded |
| SessionEffects.RefusedRenewalsChangeNothing | backend/identity/sessions.py:233-234 | a renewal refused for any other reason changes nothing |
| SessionEffects.LogoutRevokesAll | backend/identity/sessions.py:362-398 | logging out everywhere revokes every session of the account and no other |
| SessionEffects.RoleAndStatusAreSet | backend/identity/accounts.py:230-271 | an accepted change sets role and status of that account only; a new role or a deactivation revokes its sessions |
| SessionEffects.AnActiveAdminRemains | backend/identity/accounts.py:93-101 | role and status changes never take away the last active administrator |
| SessionEffects.ResetAndUnlockFree | backend/identity/accounts.py:274-323 | a PIN reset and an unlock lift a lock and revoke every session of the account |
| SessionEffects.StandingOnly | backend/identity/accounts.py:419-427 | locks and their ends change no version, role or session |
| Lockout.LoginAccount.VerifyLoginPin | backend/identity/accounts.py:568-617 | an expired lock is lifted first; a locked, inactive or blocked account refuses; a wrong PIN is counted; success resets |
| Lockout.LoginAccount.RecordFailedAttempt | backend/identity/accounts.py:419-427 | the fifth failure locks for the next cycle's minutes |
| Lockout.LoginAccount.ResetFailedAttempts | backend/identity/accounts.py:411-416 | count, cycle and deadline are cleared and a lock lifted |
| Lockout.LockedAttemptsChangeNothing | backend/identity/accounts.py:587-594 | attempts under a lock never succeed and change neither count, cycle nor deadline |
| Lockout.LockPeriods | backend/identity/accounts.py:407-408 | the locks last 15, 30, 60, 120, 240, 480, 960 and then 1440 minutes |
| Lockout.SucceedsIff | backend/identity/accounts.py:587-617 | a login succeeds exactly with the right PIN, unblocked, on an account active or past its lock, and then starts from scratch |
| Lockout.WrongPinCounts | backend/identity/accounts.py:419-427 | a wrong PIN is counted and the fifth locks for the next period from now |
| Lockout.FiveWrongPins | backend/identity/accounts.py:419-427 | five wrong PINs on a clean account refuse the right one for exactly 15 minutes |
| Lockout.TotalLockClosed | backend/identity/accounts.py:407-408 | the first k locks last 1905 minutes and a day for each after the seventh |
| Lockout.GuessingTakesTime | backend/identity/accounts.py:407-427 | without success or reset the g-th counted wrong PIN comes at least the first (g-1)/5 lock periods after the first |
| Lockout.LongRunRate | backend/identity/accounts.py:407-427 | from the 36th guess on that is 1905 minutes plus a day for every five guesses |
| Lockout.BoundIsExact | backend/identity/accounts.py:407-427 | an eager guesser has every guess counted at exactly those times |
| RateLimits.Limiter.ConsumeLimit | backend/identity/rate_limits.py:31-73 | the window and the decision of one hit |
| RateLimits.AtMostTwiceTheLimit | backend/identity/rate_limits.py:42-68 | for every nondecreasing hit sequence any 15 minutes hold at most twice the limit of allowed hits |
| RateLimits.AttemptsPerQuarterHour | backend/identity/rate_limits.py:14-15 | an employee number gets at most 20, a device 60 and a network 400 attempts into any 15 minutes |
| RateLimits.AllowedUpToTheLimit | backend/identity/rate_limits.py:42-68 | of the hits within 15 minutes of the first exactly those up to the limit are allowed, and the next one opens a new window |
| RateLimits.OneWindow | backend/identity/rate_limits.py:42-68 | one window allows at most the limit |
| RateLimits.RejectionsDoNotExtend | backend/identity/rate_limits.py:50-61 | a rejected hit does not move the window |
| RateLimits.WaitingIsEnough | backend/identity/rate_limits.py:68-73 | after the returned retry-after the next hit is allowed, even if other hits of the window came in between |
| RateLimits.WaitingLessIsNot | backend/identity/rate_limits.py:68-73 | a second less is not enough |
| Roster.Store.Update | backend/reports/roster_store.py:186-225 | the change is made on what the last attempt fetched, that attempt met no rival and every earlier one did; five losses give up; nothing to change writes nothing |
| Roster.Store.Read | backend/reports/roster_store.py:112-125 | the cached document while it lasts, otherwise the object, cached for the time-to-live |
| Roster.Store.Write | backend/reports/roster_store.py:163-171 | a write lands exactly when the generation is the expected one |
| Roster.NumbersStayUnique | backend/webapp/routes/roster.py:67-125 | every mutation keeps employee numbers unique |
| Roster.NamesStayUnique | backend/reports/roster.py:187-204 | additions from reports and removals keep full names unique |
| Roster.AdminKeepsNamesUniqueIff | backend/webapp/routes/roster.py:67-78 | the administrator's addition keeps names unique exactly when the number is taken or the name is new |
| Roster.EditKeepsNamesUniqueIff | backend/webapp/routes/roster.py:102-125 | an edit that updates somebody keeps names unique exactly when no other position has the new name |
| Roster.NamesStayUniqueIff | backend/webapp/routes/roster.py:67-148 | any mutation keeps names unique exactly when its condition holds |
| Roster.AdditionOfANamesake | backend/webapp/routes/roster.py:67-78 | an accepted addition of a second person of one name |
| Roster.EditToANamesake | backend/webapp/routes/roster.py:102-125 | an accepted edit that gives one person another's name |
| Roster.WithoutKeeps | backend/webapp/routes/roster.py:139-147 | whoever a removal leaves stays in the old order |
| Roster.WithoutRemoves | backend/webapp/routes/roster.py:139-147 | a removal drops exactly those with the number |
| Roster.RemoveWritesIff | backend/webapp/routes/roster.py:139-147 | a removal writes exactly when somebody has the number |
| Roster.ReportAdditions | backend/reports/roster.py:187-204 | an addition from a report is declined exactly when somebody has the number or both names, and otherwise appends exactly that person |
| Roster.AdminAdditions | backend/webapp/routes/roster.py:67-78 | the administrator's addition answers a duplicate exactly when the number is taken and otherwise appends exactly that person |
| Roster.Edits | backend/webapp/routes/roster.py:102-125 | an edit changes exactly the requested fields of the first person with the number, and nobody if there is none or another has the new number |
| Roster.Removals | backend/webapp/routes/roster.py:142-148 | a removal keeps exactly the others, in order |
| RosterRuns.NoUpdateIsLost | backend/reports/roster_store.py:186-225 | with any number of processes the roster is the successful changes applied one after another in generation order, each call at most once |
| RosterRuns.EveryCallTakesEffectAtOnce | backend/reports/roster_store.py:186-225 | every call takes effect at one moment between its start and end, its answer is right at that moment, and it gives up only after five rival writes |
| RosterRuns.StaffStayUnique | backend/reports/roster.py:187-204 | in every run numbers stay unique, and names too in runs of additions from reports and removals |
| RosterRuns.NamesStayUniqueIff | backend/reports/roster_store.py:186-225 | at every moment of every run names are unique exactly when every write met its mutation's condition |
| RosterRuns.NoAddIsLost | backend/reports/roster.py:187-211 | a successfully added person is on the roster until somebody is removed or edited |
| RosterRuns.ReportAdditionsTakeEffect | backend/reports/roster.py:187-211 | in every run an addition that wrote answered so and appended exactly the person where nobody resembled it; one that declined did so where somebody did |
| RosterRuns.ReportAdditionsDecide | backend/reports/roster.py:187-211 | an attempt declines exactly when the fetched document has somebody like that, and otherwise writes unless a rival wrote first |
| RosterRuns.FifthLossGivesUp | backend/reports/roster_store.py:200-225 | a write that lost is tried again exactly unless it was the fifth |
| RosterCache.ReadYourWrites | backend/reports/roster_store.py:112-139 | a read that begins after an update of the same process returned is served at least that version, even if another thread was mid-download |
| RosterCache.CachedAnswersAreFresh | backend/reports/roster_store.py:119-125 | a cached answer was stored less than the time-to-live ago |
| RosterCache.RivalWritesAreSeenLate | backend/reports/roster_store.py:119-125 | another process's write stays unseen exactly as long as the cached entry lasts |
| RosterCache.RefreshesAreCurrent | backend/reports/roster_store.py:112-125 | a refresh or an expired entry is served, and leaves in the cache, what was newest at the download |
| RosterCache.WrittenVersionIsNewest | backend/reports/roster_store.py:201-225 | an update's version is newer than the cache and everything served so far |
| PacketPlan.ReviewedAnswersSettle | backend/forms/packets.py:262-331 | a reviewed yes or no settles every condition: a yes requires the form, after a no it is required exactly on other evidence, and nothing stays merely recommended |
| PacketPlan.ReviewedAnswersDecide | backend/forms/packets.py:190-197 | reviewed answers hide extracted facts in every condition |
| PacketPlan.YesAndNo | backend/forms/packets.py:211-232 | the recognised words for yes and no, and nothing is both |
| PacketPlan.UnansweredIsRecommended | backend/forms/packets.py:262-331 | an unanswered question leaves its form recommended unless other evidence or an injury requires it |
| PacketPlan.AnswersDecide | backend/forms/packets.py:262-331 | exactly when each question requires its form and when it rules it out, wherever the answer is |
| PacketPlan.LayersHide | backend/forms/packets.py:190-197 | a layer that has a fact hides those below it, one that lacks it hides nothing |
| PacketPlan.ScopesAreConsistent | backend/forms/packets.py:83-131 | the officers' form is the only one scoped to officers |
| PacketPlan.FactsDecideForms | backend/forms/packets.py:83-331 | which fact about things decides on which forms |
| PacketPlan.PeoplesFactsDecideForms | backend/forms/packets.py:83-331 | and which fact about people |
| PacketPlan.FormsAlwaysRequired | backend/forms/packets.py:83-124 | which forms need no question |
| PacketPlan.PlanIncidentPacket | backend/forms/packets.py:375-429 | the merged calls of the checklist, or the first entry's error |
| PacketPlan.PlanMergesGroups | backend/forms/packets.py:349-372 | a key is planned exactly when called, and required exactly when some call requires it |
| PacketPlan.GroupsIgnoreOrder | backend/forms/packets.py:349-372 | the order of the checklist changes no group |
| PacketPlan.ReasonsFit | backend/forms/packets.py:364-372 | a planned reason fits 240 characters and begins with the first call's reason |
| PacketPlan.TwoReasons | backend/forms/packets.py:364-367 | two different reasons are joined if they fit in 240 characters, and the first stands alone otherwise |
| PacketPlan.ReasonsName | backend/forms/packets.py:334-346 | a reason names its group, category and requirement |
| PacketPlan.NamesOutsideTheTable | backend/forms/packets.py:396-403 | the two report outputs are skipped and any other unknown name is an error |
| PacketPlan.PlanIsTheChecklist | backend/forms/packets.py:394-429 | a form is planned exactly when an entry asks for it in that scope, and required exactly when some entry requires it |
| PacketPlan.PlanFollowsTheSnapshot | backend/forms/packets.py:83-429 | the same for the program's requirement table and the facts of a saved revision |
| Packets.Packet.Build | backend/forms/packets.py:500-595 | every row after a rebuild |
| Packets.Packet.RemoveRecommendedForm | backend/forms/packets.py:642-658 | removes recommended forms only |
| Packets.Packet.MarkFormNotApplicable | backend/forms/packets.py:661-683 | dismisses required forms only, with a reason of 1 to 500 characters |
| Packets.Packet.AddAdditionalForm | backend/forms/packets.py:686-750 | adds an active form that is not scoped to officers, or re-enables its row unless it is required |
| Packets.RunInv | backend/forms/packets.py:642-750 | in every run not-applicable occurs only on required forms with a reason, and additional forms are selected |
| Packets.RowsStay | backend/forms/packets.py:585-592 | no row is ever deleted |
| Packets.RebuildFollowsThePlan | backend/forms/packets.py:535-592 | after a rebuild required forms are selected or dismissed, unplanned ones removed unless additional |
| Packets.PacketFollowsTheSnapshot | backend/forms/packets.py:500-595 | after any run and a rebuild each form's group and state follow what the checklist asks for on the saved facts |
| Packets.RebuildIsIdempotent | backend/forms/packets.py:500-595 | rebuilding on the same plan changes nothing |
| Packets.RebuildForALaterRevision | backend/forms/packets.py:500-595 | rebuilding a later revision with the same plan changes no group, state or reason |
| Packets.DecisionsSurviveIff | backend/forms/packets.py:562-583 | a dismissal survives exactly while the form stays required, a removal exactly until it becomes required |
| Packets.RemovesIff | backend/forms/packets.py:642-658 | exactly recommended forms can be removed and nothing else changes |
| Packets.DismissesIff | backend/forms/packets.py:661-683 | exactly required forms can be dismissed, with 1 to 500 characters that are kept, and nothing else changes |
| Packets.DecisionsOutlastRebuilds | backend/forms/packets.py:562-592 | a removal outlasts any rebuilds that do not require the form, a dismissal with its reason any that do |
| Packets.RebuildsStampRevisions | backend/forms/packets.py:557-592 | planned and removed forms carry the rebuild's revision, an officer's own form is untouched |
| Packets.DismissalsAreForgotten | backend/forms/packets.py:562-583 | a dismissed form that is dropped and required again is selected |
| Packets.AddSelectsIff | backend/forms/packets.py:741-747 | adding leaves the form selected exactly unless it is a required form dismissed or removed |
| Packets.AddsIff | backend/forms/packets.py:701-748 | exactly active forms but the officers' own can be added, a new row is the officer's, and no other row changes |
| Packets.AddCanDoNothing | backend/forms/packets.py:741-747 | a history in which adding succeeds and the form stays removed |
| Packets.AddedFormSurvivesIff | backend/forms/packets.py:585-592 | an added form survives a rebuild exactly when planned or the officer's own row |
| Packets.AddedFormIsTakenOverIff | backend/forms/packets.py:579-592 | once planned, an officer's form stays selected exactly as long as the plan keeps it |
| Citations.ScanIsFaithful | backend/pipeline/citations.py:14-14 | scanning for markers loses no character and returns canonical pieces |
| Citations.ScanInvertsText | backend/pipeline/citations.py:14-14 | canonical pieces are what their text scans to |
| Citations.CitedIndices | backend/pipeline/citations.py:122-130 | the valid distinct passage numbers of the scan |
| Citations.CitedExactly | backend/pipeline/citations.py:122-130 | a number is returned exactly when a valid marker carries it |
| Citations.CitedInFirstUseOrder | backend/pipeline/citations.py:122-130 | an earlier entry has a marker before every marker of a later one |
| Citations.RenumberAligns | backend/pipeline/citations.py:133-143 | renumbering changes nothing but the digits of cited markers, character for character |
| Citations.MarkersKeepTheirPassage | backend/pipeline/citations.py:146-182 | text is unchanged, each valid marker still names its passage, and no out-of-range marker becomes valid |
| Citations.RescanFindsOneToK | backend/pipeline/citations.py:133-182 | rescanning the result finds exactly 1..k in first-use order |
| Citations.GroundingIsIdempotent | backend/pipeline/citations.py:146-182 | grounding the output on its own citations changes nothing |
| Inference.InferCitations | backend/pipeline/citations.py:76-119 | the attributed passages in first-use order, if at least half of the substantive sentences are attributed |
| Inference.Attribute | backend/pipeline/citations.py:95-106 | how many sentences are attributed, and to which passages in first-use order |
| Inference.BestPassage | backend/pipeline/citations.py:98-102 | the scan for the best passage of a sentence |
| Inference.BestIsFirstMaximum | backend/pipeline/citations.py:98-102 | the best passage is the first with the most shared words |
| Inference.AttributedIff | backend/pipeline/citations.py:103-106 | a sentence is attributed exactly when some passage holds three fifths of its words |
| Inference.Thresholds | backend/pipeline/citations.py:47-51 | the two thresholds are the fractions 0.6 and 0.5 |
| Inference.GroundedIff | backend/pipeline/citations.py:88-109 | an answer is grounded exactly when at least half of its sentences of four words share 0.6 of their words with some passage |
| Inference.SubstantiveExactly | backend/pipeline/citations.py:90-91 | exactly the sentences of at least four content words count |
| Inference.CitationsAreEvidence | backend/pipeline/citations.py:95-119 | every inferred citation holds three fifths of the words of some substantive sentence |
| Inference.KeepsItsPassageIff | backend/pipeline/citations.py:98-106 | on the cited passages a sentence keeps its passage exactly when none cited earlier ties with it |
| Inference.InferringAgainStaysGrounded | backend/pipeline/citations.py:76-119 | inferring again on the cited passages stays grounded and cites nothing new |
| Inference.InferringAgainIff | backend/pipeline/citations.py:76-119 | inferring again on the cited passages changes nothing exactly when they are reused in order |
| Inference.FirstUsesAscendIff | backend/pipeline/citations.py:95-106 | numbers are first used in ascending order exactly when each has a use before every use of a greater one |
| Inference.InferringAgainChangesNothing | backend/pipeline/citations.py:76-119 | in particular when no sentence ties between two passages |
| Inference.TiesReattribute | backend/pipeline/citations.py:146-182 | an answer and two passages for which grounding again drops a citation |
| Inference.GroundingAgain | backend/pipeline/citations.py:146-182 | grounding with inference again keeps answer and verdict and cites nothing new; it changes nothing exactly when no citations were inferred or they are reused in order |
| Names.FormsExist | backend/reports/name_fixer.py:14-46 | whoever has a last name can be written in both forms |
| Names.StaffForms | backend/reports/name_fixer.py:34-46 | staff are written rank, first and last name, then rank and last name; with a rank and no first name the full form has two spaces |
| Names.InmateForms | backend/reports/name_fixer.py:14-31 | inmates are written last name, first name and number, then with the last name; what is missing is left out |
| Names.AmbiguousLastNames | backend/reports/name_fixer.py:114-126 | a nonblank last name is ambiguous exactly when two people of the list share it in lower case |
| Names.SelectSpans | backend/reports/name_fixer.py:158-170 | the greedy selection over the stably sorted spans |
| Names.SelectionIsGreedy | backend/reports/name_fixer.py:158-170 | chosen spans ascend without overlap; a rejected span overlaps a chosen one that starts no later and is at least as long from there; ties go to the first listed |
| Names.Rewrite | backend/reports/name_fixer.py:198-217 | the untouched gaps interleaved with the replacements |
| Names.CapitalisedIff | backend/reports/name_fixer.py:183-195 | a form is capitalised exactly at the start of a sentence, unless it already is |
| Names.MentionsStand | backend/reports/name_fixer.py:198-217 | in the rewritten text each chosen mention stands as it is to be written, right after the untouched gap that follows the mention before it |
| Names.PiecesStandInOrder | backend/reports/name_fixer.py:204-217 | interleaving puts every gap and piece into the output, in order and adjacent |
| Names.NothingElseChanges | backend/reports/name_fixer.py:204-217 | the same gaps with the original mentions are the original text |
| Names.FirstMentionInFull | backend/reports/name_fixer.py:183-215 | a person's first kept mention is the full form and every later one the short form, capitalised exactly at the start of a sentence |
| BulkReference.Decode | backend/reports/export_service.py:461-475 | the nonempty items decoded in order, up to the first malformed one |
| BulkReference.ReferenceDecodes | backend/reports/export_service.py:391-475 | decoding the stored reference gives back the revision ids and the failures in order |
| BulkReference.RoundTripIff | backend/reports/export_service.py:391-475 | the round trip is exact for exactly the lists without a revision zero |
| BulkReference.StoredFailure | backend/reports/export_service.py:400-405 | a stored failure is 32 digits, the letter of its reason and the revision number or zero |
| BulkReference.EncodeIsInjective | backend/reports/export_service.py:391-407 | different selections have different references |

## Left out

- HTTP routes, cookies, SQL text, the task-queue, bucket and secret clients: only their outcomes appear.
- Model calls, prompts, retrieval and document files: no decidable specification.
- Audit events of reports, paperwork and sessions, and audit details everywhere: flat records beside each write. The audit trail of jobs is modelled.
- Validation of schemas, payload shapes, labels and incident-number syntax, and the incident authorisation query: contents are opaque and authorisation is a flag.
- Database uniqueness is assumed where the program relies on an index; a violated index is modelled only for incident numbers.
- `claim_job` skips a locked row; that is a claim that does nothing, and an event of the runs that changes nothing.
- `copy_previous_daily_record`, listings, searches, cursors and revision pages: queries without new state.
- Incidents.NumberIsNeverCleared: speaks of saves, analysis results and status changes, because restores do clear the number.
- Inference: words and sentences of a text are given by parameters, the two regular expressions are not modelled; the float comparisons are exact fractions.
- Names: the patterns that find names are not modelled, their matches are arguments; spans are nonempty and lie in the text.
- Citations: a digit run beyond the interpreter's integer-string limit, which the program rejects, is read as a number.
- BulkReference.Decode: identifiers and integers in the spellings that the encoder never writes (braces, hyphens, underscores, blanks, plus signs) count as malformed.
- PacketPlan: the sorted order of a plan, the reading of the checklist file and its category lookup.
- Packets: time stamps, row identifiers, authorisation and the revision check that precede each operation.
- Roster: the local file used without a bucket, whose lock guards one process only, and its missing-file case, which hands out a module-level list that additions then share; a corrupt object, whose read raises before anything changes.
- Roster.NumbersStayUnique: needs that strings equal in lower case are equal when case-folded, and that callers strip numbers, which they do.
- RosterRuns.StaffStayUnique: claims unique names only for runs without the administrator's add and edit, which do not check them; NamesStayUniqueIff has the exact condition for all runs.
- Jobs.JobService.DeliverResult: the revision numbers of saved reports are arguments, because report logs are in another module, and a save that is refused rolls everything back.
- Sessions: listing sessions, device labels and the reauthentication messages.
