/** What the transactions of the job protocol achieve, for good and within which time. */
module JobResults {
  import opened Base
  import I = Idempotency
  import opened Jobs
  import opened JobRuns

  // ----- Delivery -----

  /** The worker that holds the newest token, within 20 minutes of its claim. */
  predicate MayFinish(w: World, id: Uuid, held: Uuid, now: Instant) {
    && id in w.db.jobs && w.db.jobs[id].state == Running && id in w.h.newest && id in w.h.lastClaim
    && held == w.h.newest[id] && now < w.h.lastClaim[id] + 1_200_000_000
  }

  predicate Unmoved(db: Db, id: Uuid)
    requires id in db.jobs
  {
    db.jobs[id].command.incident in db.current && db.current[db.jobs[id].command.incident] == db.jobs[id].base
  }

  /** Everything a delivered result promises is there. */
  ghost predicate KeepsPromise(db: Db, job: Job, result: WorkResult) {
    match result
    case ReportContents(reports) =>
      && job.result == Reference(None, reports)
      && forall t :: t in reports ==> ReportRevision(t.0, job.command.incident, t.1) in db.saved
    case IncidentContent =>
      && job.base >= 1 && job.result == Reference(Some(job.base + 1), [])
      && IncidentRevision(job.command.incident, job.base + 1) in db.saved
  }

  /** A delivery in time for an unmoved incident succeeds, saves what it delivers and refers
      to exactly that: reports without touching the incident, or the incident's next
      revision. */
  lemma DeliverySucceeds(w: World, id: Uuid, held: Uuid, result: WorkResult, now: Instant)
    requires IdOk(w, id) && MayFinish(w, id, held, now) && Unmoved(w.db, id)
    ensures var v := Step(w, Deliver(id, held, result, now)).db;
            var incident := w.db.jobs[id].command.incident;
            && id in v.jobs && v.jobs[id].state == Succeeded && v.jobs[id].completedAt == Some(now)
            && KeepsPromise(v, v.jobs[id], result) && w.db.saved <= v.saved
            && v.current == (if result.IncidentContent? then w.db.current[incident := w.db.jobs[id].base + 1] else w.db.current)
  {
    var rs := if result.ReportContents? then result.reports else [];
    assert forall t :: t in rs ==> ReportRevision(t.0, w.db.jobs[id].command.incident, t.1) in SavedReports(w.db.jobs[id].command.incident, rs);
  }

  /** If the incident has moved on, the job fails with the conflict code and nothing is saved. */
  lemma MovedIncidentsFailDeliveries(w: World, id: Uuid, held: Uuid, result: WorkResult, now: Instant)
    requires IdOk(w, id) && MayFinish(w, id, held, now) && !Unmoved(w.db, id)
    requires w.db.jobs[id].command.incident in w.db.current
    ensures var v := Step(w, Deliver(id, held, result, now)).db;
            && id in v.jobs && v.jobs[id].state == Failed && v.jobs[id].errorCode == Some("job_result_conflict")
            && v.jobs[id].result == w.db.jobs[id].result && v.saved == w.db.saved && v.current == w.db.current
  {
  }

  lemma {:induction false} SavedStays(w: World, run: seq<Event>)
    ensures w.db.saved <= After(w, run).db.saved
    decreases |run|
  {
    if run != [] {
      SavedStays(Step(w, run[0]), run[1..]);
    }
  }

  /** And so it stays: whatever happens afterwards, the job has succeeded with that result
      and the revisions it names are saved. */
  lemma DeliveredForGood(w: World, id: Uuid, held: Uuid, result: WorkResult, now: Instant, run: seq<Event>)
    requires IdOk(w, id) && MayFinish(w, id, held, now) && Unmoved(w.db, id)
    requires ValidRun(Step(w, Deliver(id, held, result, now)), run)
    ensures var v := After(Step(w, Deliver(id, held, result, now)), run).db;
            && id in v.jobs && v.jobs[id].state == Succeeded && KeepsPromise(v, v.jobs[id], result)
  {
    var e := Deliver(id, held, result, now);
    DeliverySucceeds(w, id, held, result, now);
    StepId(w, e, id);
    TerminalForever(Step(w, e), run, id);
    SavedStays(Step(w, e), run);
  }

  // ----- Applying, giving up, handing back -----

  /** Every revision that a result names was saved for the incident. */
  ghost predicate NamesSaved(saved: set<Target>, incident: Uuid, r: Reference) {
    && (r.incidentRevision.Some? ==> IncidentRevision(incident, r.incidentRevision.value) in saved)
    && forall i :: 0 <= i < |r.reports| ==> ReportRevision(r.reports[i].0, incident, r.reports[i].1) in saved
  }

  lemma TargetsExistIff(db: Db, job: Job, r: Reference)
    ensures TargetsExist(db, job, r) <==> NamesSaved(db.saved, job.command.incident, r)
  {
    assert forall i :: 0 <= i < |r.reports| ==> r.reports[i] in r.reports;
  }

  /** In time, a result is accepted exactly for the current base and saved targets; a stale
      one fails the job, one with unsaved targets changes nothing. */
  lemma ApplyDecides(w: World, id: Uuid, held: Uuid, expected: int, r: Reference, now: Instant)
    requires IdOk(w, id) && MayFinish(w, id, held, now) && expected >= 1
    requires w.db.jobs[id].command.incident in w.db.current
    ensures var v := Step(w, Apply(id, expected, Some(held), r, now)).db;
            var fits := expected == w.db.jobs[id].base && Unmoved(w.db, id);
            && id in v.jobs
            && (v.jobs[id].state == Succeeded <==> fits && NamesSaved(w.db.saved, w.db.jobs[id].command.incident, r))
            && (v.jobs[id].state == Succeeded ==> v.jobs[id].result == r && v.jobs[id].errorCode == None)
            && (v.jobs[id].state == Failed <==> !fits)
            && (v.jobs[id].state == Failed ==> v.jobs[id].errorCode == Some("job_result_conflict"))
            && (v.jobs[id].state == Running <==> v == w.db)
  {
    TargetsExistIff(w.db, w.db.jobs[id], r);
    assert |w.db.audit + [JobFailed(id, CONFLICT_CODE)]| > |w.db.audit|;
  }

  /** The holder of the newest token fails its job with its own code at any time. */
  lemma GivingUpFailsTheJob(w: World, id: Uuid, code: string, now: Instant)
    requires IdOk(w, id) && id in w.db.jobs && w.db.jobs[id].state == Running
    ensures var v := Step(w, GiveUp(id, w.h.newest[id], code, now)).db;
            && v.jobs[id].state == Failed && v.jobs[id].errorCode == Some(code) && v.jobs[id].completedAt == Some(now)
            && v.audit == w.db.audit + [JobFailed(id, code)]
  {
  }

  // ----- Claims -----

  /** A claim succeeds exactly on queued work and on running work 20 minutes or more after
      its newest claim; the claimed worker may finish for exactly 20 minutes. */
  lemma ClaimedIff(w: World, id: Uuid, now: Instant, token: Uuid)
    requires IdOk(w, id) && id in w.db.jobs && Enabled(w, Claim(id, now, token))
    ensures var v := Step(w, Claim(id, now, token));
            && (v.db.jobs[id].claimToken == Some(token) <==>
                  || w.db.jobs[id].state == Queued
                  || (w.db.jobs[id].state == Running && now >= w.h.lastClaim[id] + 1_200_000_000))
            && (v.db.jobs[id].claimToken == Some(token) ==>
                  && v.db.jobs[id].stage == (match v.db.jobs[id].command.jobType
                                             case Classify => "classifying"
                                             case Extract => "extracting"
                                             case Generate => "validating"
                                             case Disciplinary => "disciplinary")
                  && forall later :: MayFinish(v, id, token, later) <==> later < now + 1_200_000_000)
            && (v.db.jobs[id].claimToken != Some(token) ==> v == w)
  {
  }

  /** A job that its holder hands back can be claimed at once. */
  lemma HandedBackIsFree(w: World, id: Uuid, now: Instant, token: Uuid)
    requires IdOk(w, id) && id in w.db.jobs && w.db.jobs[id].state == Running
    requires Enabled(Step(w, Release(id, w.h.newest[id])), Claim(id, now, token))
    ensures var v := Step(Step(w, Release(id, w.h.newest[id])), Claim(id, now, token));
            v.db.jobs[id].claimToken == Some(token)
  {
    StepId(w, Release(id, w.h.newest[id]), id);
    ClaimedIff(Step(w, Release(id, w.h.newest[id])), id, now, token);
  }

  /** How often a run claims a job. */
  ghost function ClaimsOf(w: World, run: seq<Event>, id: Uuid): nat
    decreases |run|
  {
    if run == [] then 0
    else ClaimsOf(Step(w, run[0]), run[1..], id)
         + if run[0].Claim? && run[0].id == id && Step(w, run[0]) != w then 1 else 0
  }

  function AttemptsAt(w: World, id: Uuid): nat {
    if id in w.db.jobs then w.db.jobs[id].attempts else 0
  }

  /** The attempts of a job are its claims, and the first of them keeps its start. */
  lemma {:induction false} AttemptsAreClaims(w: World, run: seq<Event>, id: Uuid)
    requires ValidRun(w, run) && IdOk(w, id)
    ensures AttemptsAt(After(w, run), id) == AttemptsAt(w, id) + ClaimsOf(w, run, id)
    ensures id in w.db.jobs && w.db.jobs[id].startedAt.Some? ==>
              id in After(w, run).db.jobs && After(w, run).db.jobs[id].startedAt == w.db.jobs[id].startedAt
    decreases |run|
  {
    if run != [] {
      StepId(w, run[0], id);
      StepAttempts(w, run[0], id);
      AttemptsAreClaims(Step(w, run[0]), run[1..], id);
    }
  }

  lemma StepAttempts(w: World, e: Event, id: Uuid)
    requires Enabled(w, e) && IdOk(w, id)
    ensures AttemptsAt(Step(w, e), id) == AttemptsAt(w, id) + if e.Claim? && e.id == id && Step(w, e) != w then 1 else 0
    ensures id in w.db.jobs && w.db.jobs[id].startedAt.Some? ==>
              id in Step(w, e).db.jobs && Step(w, e).db.jobs[id].startedAt == w.db.jobs[id].startedAt
  {
  }

  // ----- Submissions -----

  /** With an unused key, a submission creates a job exactly for an actor who may see the
      incident and on the incident's current revision; everything else changes nothing. */
  lemma SubmissionCreatesIff(w: World, e: Event)
    requires e.Submit? && Enabled(w, e) && I.ValidKey(e.k.key) && e.k !in w.db.claims
    ensures e.id in Step(w, e).db.jobs <==>
              && e.authorized && e.c.base >= 1
              && e.c.command.incident in w.db.current && w.db.current[e.c.command.incident] == e.c.base
    ensures e.id !in Step(w, e).db.jobs ==> Step(w, e) == w
    ensures (e.id in Step(w, e).db.jobs <==> SubmitReply(w.db, e.k, e.c, e.authorized, e.now, e.id).Ok?)
  {
  }

  /** Its job is queued and its one outbox row is pending from now on. */
  lemma SubmissionIsQueued(w: World, e: Event)
    requires e.Submit? && Enabled(w, e) && SubmitCreates(w.db, e.k, e.c, e.authorized, e.now)
    ensures var v := Step(w, e).db;
            && SubmitReply(w.db, e.k, e.c, e.authorized, e.now, e.id) == Ok(e.id)
            && v.jobs[e.id].state == Queued && v.jobs[e.id].attempts == 0 && IsRequest(v.jobs[e.id], e)
            && v.audit == w.db.audit + [JobSubmitted(e.id)]
            && v.outbox[e.row].job == e.id && v.outbox[e.row].state == Pending
            && v.outbox[e.row].attempts == 0 && v.outbox[e.row].availableAt == e.now
  {
  }

  predicate IsRequest(job: Job, e: Event)
    requires e.Submit?
  {
    job.command == e.c.command && job.base == e.c.base && job.requester == e.k.actor && job.createdAt == e.now
  }

  /** A job is for what was submitted, in every later run. */
  lemma SubmittedRequestStays(w: World, e: Event, run: seq<Event>)
    requires e.Submit? && Enabled(w, e) && SubmitCreates(w.db, e.k, e.c, e.authorized, e.now)
    requires ValidRun(Step(w, e), run)
    ensures e.id in After(Step(w, e), run).db.jobs && IsRequest(After(Step(w, e), run).db.jobs[e.id], e)
  {
    RequestStays(Step(w, e), run, e.id);
  }

  lemma {:induction false} RequestStays(w: World, run: seq<Event>, id: Uuid)
    requires ValidRun(w, run) && id in w.db.jobs
    ensures var v := After(w, run).db;
            && id in v.jobs && v.jobs[id].command == w.db.jobs[id].command && v.jobs[id].base == w.db.jobs[id].base
            && v.jobs[id].requester == w.db.jobs[id].requester && v.jobs[id].createdAt == w.db.jobs[id].createdAt
    decreases |run|
  {
    if run != [] {
      StepRequest(w, run[0], id);
      RequestStays(Step(w, run[0]), run[1..], id);
    }
  }

  lemma StepRequest(w: World, e: Event, id: Uuid)
    requires Enabled(w, e) && id in w.db.jobs
    ensures var v := Step(w, e).db;
            && id in v.jobs && v.jobs[id].command == w.db.jobs[id].command && v.jobs[id].base == w.db.jobs[id].base
            && v.jobs[id].requester == w.db.jobs[id].requester && v.jobs[id].createdAt == w.db.jobs[id].createdAt
  {
  }
}
