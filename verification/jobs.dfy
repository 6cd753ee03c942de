/** The durable job protocol: idempotent submission, leased claims, reclaim after
    a crash, and finalisation.  Every member of the class is one transaction; fresh
    identifiers and clock readings are arguments. */
module Jobs {
  import opened Base
  import I = Idempotency

  const LEASE: int := 20 * MINUTE

  datatype JobType = Classify | Extract | Generate | Disciplinary

  datatype State = Queued | Running | Succeeded | Failed | Cancelled

  predicate Terminal(s: State) {
    s == Succeeded || s == Failed || s == Cancelled
  }

  function ClaimStage(t: JobType): string {
    match t
    case Classify => "classifying"
    case Extract => "extracting"
    case Generate => "validating"
    case Disciplinary => "disciplinary"
  }

  datatype Command = Command(incident: Uuid, jobType: JobType, report: Option<Uuid>)

  /** The request that an idempotency digest stands for. */
  datatype Canonical = Canonical(command: Command, base: int)

  /** A saved incident or report revision that a result may point to. */
  datatype Target = IncidentRevision(incident: Uuid, number: nat) | ReportRevision(report: Uuid, incident: Uuid, number: nat)

  datatype Reference = Reference(incidentRevision: Option<nat>, reports: seq<(Uuid, nat)>)

  const EMPTY_REFERENCE := Reference(None, [])

  datatype Job = Job(
    command: Command, requester: Uuid, base: int, createdAt: Instant,
    state: State, stage: string, attempts: nat, startedAt: Option<Instant>,
    claimToken: Option<Uuid>, leaseExpiresAt: Option<Instant>,
    completedAt: Option<Instant>, errorCode: Option<string>, result: Reference)

  datatype RowState = Pending | Dispatched | Undeliverable

  datatype OutboxRow = OutboxRow(
    job: Uuid, state: RowState, attempts: nat, availableAt: Instant, lastError: Option<string>)

  datatype AuditEvent = JobSubmitted(job: Uuid) | JobSucceeded(job: Uuid) | JobFailed(job: Uuid, code: string)

  type Claims = I.Records<Canonical, Uuid>

  datatype Db = Db(
    jobs: map<Uuid, Job>, outbox: map<Uuid, OutboxRow>, claims: Claims,
    current: map<Uuid, nat>, saved: set<Target>, audit: seq<AuditEvent>)

  datatype SubmitError = BadBase | IncidentNotFound | Refused(why: I.Refusal) | StaleBase(current: nat)

  datatype FinishError = BadRevision | JobNotFound | NotClaimed | StaleJobClaim | InvalidResultReference

  // ----- What each transaction does -----

  function NewJob(actor: Uuid, c: Canonical, now: Instant): Job {
    Job(c.command, actor, c.base, now, Queued, "queued", 0, None, None, None, None, None, EMPTY_REFERENCE)
  }

  function NewRow(job: Uuid, now: Instant): OutboxRow {
    OutboxRow(job, Pending, 0, now, None)
  }

  /** The reply to a submission by an actor who may or may not see the incident. */
  function SubmitReply(db: Db, k: I.Key, c: Canonical, authorized: bool, now: Instant, id: Uuid): Result<Uuid, SubmitError> {
    if c.base < 1 then Err(BadBase)
    else if !authorized || c.command.incident !in db.current then Err(IncidentNotFound)
    else
      match I.ClaimReply(db.claims, k, c, now)
      case Err(why) => Err(Refused(why))
      case Ok(Replayed(job)) => Ok(job)
      case Ok(Granted) =>
        if db.current[c.command.incident] != c.base then Err(StaleBase(db.current[c.command.incident])) else Ok(id)
  }

  predicate SubmitCreates(db: Db, k: I.Key, c: Canonical, authorized: bool, now: Instant) {
    && c.base >= 1 && authorized
    && c.command.incident in db.current && db.current[c.command.incident] == c.base
    && I.ClaimReply(db.claims, k, c, now) == Ok(I.Granted)
  }

  function AfterSubmit(db: Db, k: I.Key, c: Canonical, authorized: bool, now: Instant, id: Uuid, row: Uuid): Db {
    if SubmitCreates(db, k, c, authorized, now) then
      db.(jobs := db.jobs[id := NewJob(k.actor, c, now)],
          outbox := db.outbox[row := NewRow(id, now)],
          claims := I.AfterComplete(I.AfterClaim(db.claims, k, c, now), k, id),
          audit := db.audit + [JobSubmitted(id)])
    else db
  }

  /** Queued work, or running work whose lease has run out. */
  predicate Claimable(job: Job, now: Instant) {
    || job.state == Queued
    || (job.state == Running && (job.leaseExpiresAt == None || job.leaseExpiresAt.value <= now))
  }

  function ClaimedJob(job: Job, now: Instant, token: Uuid): Job {
    job.(state := Running, stage := ClaimStage(job.command.jobType), attempts := job.attempts + 1,
         startedAt := if job.startedAt == None then Some(now) else job.startedAt,
         claimToken := Some(token), leaseExpiresAt := Some(now + LEASE))
  }

  function AfterClaim(db: Db, id: Uuid, now: Instant, token: Uuid): Db {
    if id in db.jobs && Claimable(db.jobs[id], now)
    then db.(jobs := db.jobs[id := ClaimedJob(db.jobs[id], now, token)])
    else db
  }

  predicate HoldsLease(job: Job, token: Option<Uuid>, now: Instant) {
    token.Some? && job.claimToken == token && job.leaseExpiresAt.Some? && job.leaseExpiresAt.value > now
  }

  ghost predicate TargetsExist(db: Db, job: Job, r: Reference) {
    && (r.incidentRevision.Some? ==> IncidentRevision(job.command.incident, r.incidentRevision.value) in db.saved)
    && forall t :: t in r.reports ==> ReportRevision(t.0, job.command.incident, t.1) in db.saved
  }

  ghost function ApplyReply(db: Db, id: Uuid, expected: int, token: Option<Uuid>, r: Reference, now: Instant): Result<(), FinishError> {
    if expected < 1 then Err(BadRevision)
    else if id !in db.jobs then Err(JobNotFound)
    else
      var job := db.jobs[id];
      if Terminal(job.state) then Ok(())
      else if job.state != Running then Err(NotClaimed)
      else if !HoldsLease(job, token, now) then Err(StaleJobClaim)
      else if job.command.incident !in db.current then Err(JobNotFound)
      else if !Stale(db, job, expected) && !TargetsExist(db, job, r) then Err(InvalidResultReference)
      else Ok(())
  }

  predicate Stale(db: Db, job: Job, expected: int)
    requires job.command.incident in db.current
  {
    expected != job.base || db.current[job.command.incident] != expected
  }

  function FailedJob(job: Job, code: string, now: Instant): Job {
    job.(state := Failed, stage := "failed", errorCode := Some(code), completedAt := Some(now),
         claimToken := None, leaseExpiresAt := None)
  }

  function SucceededJob(job: Job, r: Reference, now: Instant): Job {
    job.(state := Succeeded, stage := "completed", errorCode := None, result := r, completedAt := Some(now),
         claimToken := None, leaseExpiresAt := None)
  }

  const CONFLICT_CODE := "job_result_conflict"

  ghost function AfterApply(db: Db, id: Uuid, expected: int, token: Option<Uuid>, r: Reference, now: Instant): Db {
    if ApplyReply(db, id, expected, token, r, now).Err? || Terminal(db.jobs[id].state) then db
    else if Stale(db, db.jobs[id], expected) then
      db.(jobs := db.jobs[id := FailedJob(db.jobs[id], CONFLICT_CODE, now)],
          audit := db.audit + [JobFailed(id, CONFLICT_CODE)])
    else
      db.(jobs := db.jobs[id := SucceededJob(db.jobs[id], r, now)], audit := db.audit + [JobSucceeded(id)])
  }

  predicate Holds(db: Db, id: Uuid, token: Uuid) {
    id in db.jobs && db.jobs[id].state == Running && db.jobs[id].claimToken == Some(token)
  }

  function AfterMarkTerminal(db: Db, id: Uuid, token: Uuid, code: string, now: Instant): Db {
    if Holds(db, id, token) then
      db.(jobs := db.jobs[id := FailedJob(db.jobs[id], code, now)], audit := db.audit + [JobFailed(id, code)])
    else db
  }

  function ReleasedJob(job: Job): Job {
    job.(state := Queued, stage := "queued", claimToken := None, leaseExpiresAt := None)
  }

  function AfterRelease(db: Db, id: Uuid, token: Uuid): Db {
    if Holds(db, id, token) then db.(jobs := db.jobs[id := ReleasedJob(db.jobs[id])]) else db
  }

  /** What a worker's engine returned: the content of the incident, or of reports, whose
      saves get the given revision numbers. */
  datatype WorkResult = IncidentContent | ReportContents(reports: seq<(Uuid, nat)>)

  /** A worker's whole transaction: under a live lease the incident or the reports are
      saved and the job succeeds with references to what was saved; an incident that has
      moved on fails the job and saves nothing. */
  function AfterDelivery(db: Db, id: Uuid, token: Uuid, result: WorkResult, now: Instant): Db {
    if id !in db.jobs || db.jobs[id].state != Running || !HoldsLease(db.jobs[id], Some(token), now) then db
    else
      var job := db.jobs[id];
      var incident := job.command.incident;
      if incident !in db.current || job.base < 1 then db
      else if db.current[incident] != job.base then
        db.(jobs := db.jobs[id := FailedJob(job, CONFLICT_CODE, now)], audit := db.audit + [JobFailed(id, CONFLICT_CODE)])
      else
        match result
        case IncidentContent =>
          AfterIncidentSave(db, incident)
            .(jobs := db.jobs[id := SucceededJob(job, Reference(Some(job.base + 1), []), now)], audit := db.audit + [JobSucceeded(id)])
        case ReportContents(reports) =>
          db.(saved := db.saved + SavedReports(incident, reports),
              jobs := db.jobs[id := SucceededJob(job, Reference(None, reports), now)], audit := db.audit + [JobSucceeded(id)])
  }

  function SavedReports(incident: Uuid, reports: seq<(Uuid, nat)>): set<Target> {
    set t | t in reports :: ReportRevision(t.0, incident, t.1)
  }

  /** An officer's save of an incident, which job transactions race with. */
  function AfterIncidentSave(db: Db, incident: Uuid): Db {
    if incident in db.current then
      var n := db.current[incident] + 1;
      db.(current := db.current[incident := n], saved := db.saved + {IncidentRevision(incident, n)})
    else db
  }

  // ----- The service -----

  class JobService {
    var jobs: map<Uuid, Job>
    var outbox: map<Uuid, OutboxRow>
    var claims: Claims
    var current: map<Uuid, nat>
    var saved: set<Target>
    var audit: seq<AuditEvent>

    ghost function View(): Db
      reads this
    {
      Db(jobs, outbox, claims, current, saved, audit)
    }

    constructor (current: map<Uuid, nat>, saved: set<Target>)
      ensures View() == Db(map[], map[], map[], current, saved, [])
    {
      jobs, outbox, claims, audit := map[], map[], map[], [];
      this.current, this.saved := current, saved;
    }

    method SubmitJob(k: I.Key, c: Canonical, authorized: bool, now: Instant, id: Uuid, row: Uuid)
      returns (reply: Result<Uuid, SubmitError>)
      modifies this
      ensures reply == SubmitReply(old(View()), k, c, authorized, now, id)
      ensures View() == AfterSubmit(old(View()), k, c, authorized, now, id, row)
    {
      if c.base < 1 {
        return Err(BadBase);
      }
      if !authorized || c.command.incident !in current {
        return Err(IncidentNotFound);
      }
      match I.ClaimReply(claims, k, c, now) {
        case Err(why) => return Err(Refused(why));
        case Ok(Replayed(job)) => return Ok(job);
        case Ok(Granted) =>
      }
      if current[c.command.incident] != c.base {
        return Err(StaleBase(current[c.command.incident]));
      }
      claims := I.AfterClaim(claims, k, c, now);
      jobs := jobs[id := NewJob(k.actor, c, now)];
      EnqueueJob(id, now, row);
      audit := audit + [JobSubmitted(id)];
      claims := I.AfterComplete(claims, k, id);
      return Ok(id);
    }

    /** Add exactly one pending dispatch intent. */
    method EnqueueJob(job: Uuid, now: Instant, row: Uuid)
      modifies this`outbox
      ensures outbox == old(outbox)[row := NewRow(job, now)]
    {
      outbox := outbox[row := OutboxRow(job, Pending, 0, now, None)];
    }

    method ClaimJob(id: Uuid, now: Instant, token: Uuid) returns (claimed: Option<Job>)
      modifies this`jobs
      ensures View() == AfterClaim(old(View()), id, now, token)
      ensures claimed.Some? <==> id in old(jobs) && Claimable(old(jobs)[id], now)
      ensures claimed.Some? ==> id in jobs && claimed.value == jobs[id]
    {
      if id !in jobs || !Claimable(jobs[id], now) {
        return None;
      }
      var job := jobs[id];
      job := job.(state := Running, stage := ClaimStage(job.command.jobType));
      job := job.(attempts := job.attempts + 1);
      if job.startedAt == None {
        job := job.(startedAt := Some(now));
      }
      job := job.(claimToken := Some(token), leaseExpiresAt := Some(now + LEASE));
      jobs := jobs[id := job];
      return Some(job);
    }

    /** Every revision a result names must have been saved for the job's incident. */
    method ValidateResultTargets(job: Job, r: Reference) returns (ok: bool)
      ensures ok <==> TargetsExist(View(), job, r)
    {
      if r.incidentRevision.Some? && IncidentRevision(job.command.incident, r.incidentRevision.value) !in saved {
        return false;
      }
      for i := 0 to |r.reports|
        invariant forall h :: 0 <= h < i ==> ReportRevision(r.reports[h].0, job.command.incident, r.reports[h].1) in saved
      {
        var target := ReportRevision(r.reports[i].0, job.command.incident, r.reports[i].1);
        if target !in saved {
          assert r.reports[i] in r.reports;
          return false;
        }
      }
      return true;
    }

    method ApplyJobResult(id: Uuid, expected: int, token: Option<Uuid>, r: Reference, now: Instant)
      returns (reply: Result<(), FinishError>)
      modifies this
      ensures reply == ApplyReply(old(View()), id, expected, token, r, now)
      ensures View() == AfterApply(old(View()), id, expected, token, r, now)
    {
      if expected < 1 {
        return Err(BadRevision);
      }
      if id !in jobs {
        return Err(JobNotFound);
      }
      var job := jobs[id];
      if Terminal(job.state) {
        return Ok(());
      }
      if job.state != Running {
        return Err(NotClaimed);
      }
      if token == None || job.claimToken != token || job.leaseExpiresAt == None || job.leaseExpiresAt.value <= now {
        return Err(StaleJobClaim);
      }
      if job.command.incident !in current {
        return Err(JobNotFound);
      }
      var stale := expected != job.base || current[job.command.incident] != expected;
      if stale {
        job := job.(state := Failed, stage := "failed", errorCode := Some(CONFLICT_CODE), completedAt := Some(now));
        job := job.(claimToken := None, leaseExpiresAt := None);
        jobs := jobs[id := job];
        audit := audit + [JobFailed(id, CONFLICT_CODE)];
        return Ok(());
      }
      var valid := ValidateResultTargets(job, r);
      if !valid {
        return Err(InvalidResultReference);
      }
      job := job.(state := Succeeded, stage := "completed", errorCode := None, result := r, completedAt := Some(now));
      job := job.(claimToken := None, leaseExpiresAt := None);
      jobs := jobs[id := job];
      audit := audit + [JobSucceeded(id)];
      return Ok(());
    }

    /** Apply the result before the incident is saved and after the reports are: the base
        check wants the unchanged incident, the target check the saved reports. */
    method DeliverResult(id: Uuid, token: Uuid, result: WorkResult, now: Instant)
      modifies this
      ensures View() == AfterDelivery(old(View()), id, token, result, now)
    {
      if id !in jobs {
        return;
      }
      var job := jobs[id];
      if job.state != Running || job.claimToken != Some(token) || job.leaseExpiresAt == None || job.leaseExpiresAt.value <= now {
        return;
      }
      var incident := job.command.incident;
      if incident !in current || job.base < 1 {
        return;
      }
      if current[incident] != job.base {
        var reply := ApplyJobResult(id, job.base, Some(token), EMPTY_REFERENCE, now);
        return;
      }
      match result
      case IncidentContent =>
        var reply := ApplyJobResult(id, job.base, Some(token), EMPTY_REFERENCE, now);
        var number := current[incident] + 1;
        current, saved := current[incident := number], saved + {IncidentRevision(incident, number)};
        jobs := jobs[id := jobs[id].(result := Reference(Some(number), []))];
      case ReportContents(reports) =>
        saved := saved + SavedReports(incident, reports);
        var reply := ApplyJobResult(id, job.base, Some(token), Reference(None, reports), now);
    }

    /** The worker gives up on a job it holds. */
    method MarkTerminal(id: Uuid, token: Uuid, code: string, now: Instant) returns (reply: Result<(), FinishError>)
      modifies this
      ensures View() == AfterMarkTerminal(old(View()), id, token, code, now)
      ensures reply.Err? <==> id in old(jobs) && !Terminal(old(jobs)[id].state) && !Holds(old(View()), id, token)
    {
      if id !in jobs || Terminal(jobs[id].state) {
        return Ok(());
      }
      var job := jobs[id];
      if job.state != Running || job.claimToken != Some(token) {
        return Err(StaleJobClaim);
      }
      job := job.(state := Failed, stage := "failed", errorCode := Some(code), completedAt := Some(now));
      jobs := jobs[id := job.(claimToken := None, leaseExpiresAt := None)];
      audit := audit + [JobFailed(id, code)];
      return Ok(());
    }

    /** The worker hands a job it holds back to the queue. */
    method ReleaseTransient(id: Uuid, token: Uuid)
      modifies this`jobs
      ensures View() == AfterRelease(old(View()), id, token)
    {
      if id !in jobs || Terminal(jobs[id].state) {
        return;
      }
      var job := jobs[id];
      if job.state == Running && job.claimToken == Some(token) {
        job := job.(state := Queued, stage := "queued");
        jobs := jobs[id := job.(claimToken := None, leaseExpiresAt := None)];
      }
    }
  }
}
