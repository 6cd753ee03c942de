/** Runs of the job protocol: any interleaving of submissions, claims, crashes
    (a worker that simply stops), reclaims, releases, late or duplicate finishes,
    and officers saving incidents meanwhile. */
module JobRuns {
  import opened Base
  import I = Idempotency
  import opened Jobs

  datatype Event =
    | Submit(k: I.Key, c: Canonical, authorized: bool, now: Instant, id: Uuid, row: Uuid)
    | Claim(id: Uuid, now: Instant, token: Uuid)
    | Apply(id: Uuid, expected: int, presented: Option<Uuid>, r: Reference, now: Instant)
    | Deliver(id: Uuid, held: Uuid, result: WorkResult, now: Instant)
    | GiveUp(id: Uuid, held: Uuid, code: string, now: Instant)
    | Release(id: Uuid, held: Uuid)
    | SaveIncident(incident: Uuid)

  ghost function Next(db: Db, e: Event): Db {
    match e
    case Submit(k, c, authorized, now, id, row) => AfterSubmit(db, k, c, authorized, now, id, row)
    case Claim(id, now, token) => AfterClaim(db, id, now, token)
    case Apply(id, expected, presented, r, now) => AfterApply(db, id, expected, presented, r, now)
    case Deliver(id, held, result, now) => AfterDelivery(db, id, held, result, now)
    case GiveUp(id, held, code, now) => AfterMarkTerminal(db, id, held, code, now)
    case Release(id, held) => AfterRelease(db, id, held)
    case SaveIncident(incident) => AfterIncidentSave(db, incident)
  }

  /** What the rows do not record: per job the newest token, the time of the newest
      claim and the number of releases, and every token ever issued. */
  datatype History = History(
    newest: map<Uuid, Uuid>, lastClaim: map<Uuid, Instant>, releases: map<Uuid, nat>, issued: set<Uuid>)

  datatype World = World(db: Db, h: History)

  ghost function Step(w: World, e: Event): World {
    var db, h := w.db, w.h;
    World(Next(db, e),
      match e
      case Submit(k, c, authorized, now, id, _) =>
        if SubmitCreates(db, k, c, authorized, now) then h.(releases := h.releases[id := 0]) else h
      case Claim(id, now, token) =>
        if id in db.jobs && Claimable(db.jobs[id], now)
        then h.(newest := h.newest[id := token], lastClaim := h.lastClaim[id := now], issued := h.issued + {token})
        else h
      case Release(id, held) =>
        if Holds(db, id, held) && id in h.releases then h.(releases := h.releases[id := h.releases[id] + 1]) else h
      case _ => h)
  }

  /** Identifiers and tokens are fresh, and a job is not claimed at a clock reading
      before its previous claim. */
  predicate Enabled(w: World, e: Event) {
    match e
    case Submit(_, _, _, _, id, row) => id !in w.db.jobs && row !in w.db.outbox
    case Claim(id, now, token) => token !in w.h.issued && (id in w.h.lastClaim ==> w.h.lastClaim[id] <= now)
    case _ => true
  }

  ghost predicate ValidRun(w: World, run: seq<Event>)
    decreases |run|
  {
    run != [] ==> Enabled(w, run[0]) && ValidRun(Step(w, run[0]), run[1..])
  }

  ghost function After(w: World, run: seq<Event>): World
    decreases |run|
  {
    if run == [] then w else After(Step(w, run[0]), run[1..])
  }

  function Start(current: map<Uuid, nat>, saved: set<Target>): World {
    World(Db(map[], map[], map[], current, saved, []), History(map[], map[], map[], {}))
  }

  // ----- The invariant -----

  function IsTerminalEvent(a: AuditEvent, id: Uuid): bool {
    (a.JobSucceeded? || a.JobFailed?) && a.job == id
  }

  function TerminalEvents(audit: seq<AuditEvent>, id: Uuid): nat {
    if audit == [] then 0
    else TerminalEvents(audit[..|audit| - 1], id) + (if IsTerminalEvent(audit[|audit| - 1], id) then 1 else 0)
  }

  lemma OneMoreEvent(audit: seq<AuditEvent>, a: AuditEvent, id: Uuid)
    ensures TerminalEvents(audit + [a], id) == TerminalEvents(audit, id) + if IsTerminalEvent(a, id) then 1 else 0
  {
    assert (audit + [a])[..|audit|] == audit;
  }

  /** Lease, token, attempts and timing of one job row. */
  predicate JobOk(job: Job, id: Uuid, h: History) {
    && id in h.releases && job.base >= 1
    && (job.attempts > 0 <==> job.startedAt.Some?)
    && (job.attempts > 0 <==> id in h.newest)
    && (job.attempts > 0 <==> id in h.lastClaim)
    && (if job.state == Running
        then job.attempts > 0 && job.claimToken == Some(h.newest[id]) && job.leaseExpiresAt == Some(h.lastClaim[id] + LEASE)
        else job.claimToken == None && job.leaseExpiresAt == None)
    && (job.attempts == 0 ==> h.releases[id] == 0)
    && (job.attempts > 0 ==>
          && id in h.lastClaim
          && h.releases[id] <= SpentAttempts(job)
          && job.startedAt.value + LEASE * (SpentAttempts(job) - h.releases[id]) <= h.lastClaim[id])
  }

  /** Attempts that are over: all of them while the job is back in the queue, all but
      the newest otherwise. */
  function SpentAttempts(job: Job): int {
    if job.state == Queued then job.attempts else job.attempts - 1
  }

  /** The outbox rows of a job. */
  function RowsOf(outbox: map<Uuid, OutboxRow>, id: Uuid): set<Uuid> {
    set row | row in outbox && outbox[row].job == id
  }

  /** Everything about one job id that every step keeps. */
  predicate IdOk(w: World, id: Uuid) {
    && (id in w.db.jobs ==> JobOk(w.db.jobs[id], id, w.h))
    && (id in w.h.newest ==> w.h.newest[id] in w.h.issued && id in w.db.jobs)
    && (id in w.h.lastClaim ==> id in w.db.jobs)
    && TerminalEvents(w.db.audit, id) == if id in w.db.jobs && Terminal(w.db.jobs[id].state) then 1 else 0
  }

  ghost predicate HasOneRow(db: Db, id: Uuid) {
    exists row :: row in db.outbox && RowsOf(db.outbox, id) == {row}
  }

  ghost predicate OutboxOk(db: Db) {
    && (forall row :: row in db.outbox ==> db.outbox[row].job in db.jobs)
    && (forall id :: id in db.jobs ==> HasOneRow(db, id))
  }

  ghost predicate Inv(w: World) {
    && (forall id :: IdOk(w, id))
    && OutboxOk(w.db)
  }

  lemma StartInv(current: map<Uuid, nat>, saved: set<Target>)
    ensures Inv(Start(current, saved))
  {
  }

  lemma StepInv(w: World, e: Event)
    requires Inv(w) && Enabled(w, e)
    ensures Inv(Step(w, e))
  {
    forall id ensures IdOk(Step(w, e), id) {
      assert IdOk(w, id);
      StepId(w, e, id);
    }
    StepOutbox(w, e);
  }

  lemma StepId(w: World, e: Event, id: Uuid)
    requires IdOk(w, id) && Enabled(w, e)
    ensures IdOk(Step(w, e), id)
  {
    match e
    case Submit(_, _, _, _, _, _) => SubmitKeepsId(w, e, id);
    case Claim(_, _, _) => ClaimKeepsId(w, e, id);
    case Apply(_, _, _, _, _) => ApplyKeepsId(w, e, id);
    case Deliver(_, _, _, _) => DeliverKeepsId(w, e, id);
    case GiveUp(_, _, _, _) => GiveUpKeepsId(w, e, id);
    case Release(_, _) => ReleaseKeepsId(w, e, id);
    case SaveIncident(_) =>
  }

  lemma ClaimKeepsId(w: World, e: Event, id: Uuid)
    requires e.Claim? && IdOk(w, id) && Enabled(w, e)
    ensures IdOk(Step(w, e), id)
  {
    if e.id == id && id in w.db.jobs && Claimable(w.db.jobs[id], e.now) {
      ClaimedJobOk(w.db.jobs[id], id, w.h, e.now, e.token);
    }
  }

  lemma ClaimedJobOk(job: Job, id: Uuid, h: History, now: Instant, token: Uuid)
    requires JobOk(job, id, h) && Claimable(job, now) && (id in h.lastClaim ==> h.lastClaim[id] <= now)
    ensures JobOk(ClaimedJob(job, now, token), id,
                  h.(newest := h.newest[id := token], lastClaim := h.lastClaim[id := now], issued := h.issued + {token}))
  {
    if job.state == Running {
      var spent := SpentAttempts(job) - h.releases[id];
      assert LEASE * (spent + 1) == LEASE * spent + LEASE;
    }
  }

  lemma ReleaseKeepsId(w: World, e: Event, id: Uuid)
    requires e.Release? && IdOk(w, id)
    ensures IdOk(Step(w, e), id)
  {
  }

  /** A job leaves the running state for good and one terminal event is appended. */
  lemma FinishKeepsId(w: World, at: Uuid, done: Job, event: AuditEvent, id: Uuid)
    requires IdOk(w, id) && at in w.db.jobs && w.db.jobs[at].state == Running
    requires done == w.db.jobs[at].(state := done.state, stage := done.stage, errorCode := done.errorCode, result := done.result,
                                    completedAt := done.completedAt, claimToken := None, leaseExpiresAt := None)
    requires Terminal(done.state) && IsTerminalEvent(event, at)
    ensures IdOk(World(w.db.(jobs := w.db.jobs[at := done], audit := w.db.audit + [event]), w.h), id)
  {
    OneMoreEvent(w.db.audit, event, id);
  }

  lemma ApplyKeepsId(w: World, e: Event, id: Uuid)
    requires e.Apply? && IdOk(w, id)
    ensures IdOk(Step(w, e), id)
  {
    var db := w.db;
    if AfterApply(db, e.id, e.expected, e.presented, e.r, e.now) != db {
      var job := db.jobs[e.id];
      if Stale(db, job, e.expected) {
        FinishKeepsId(w, e.id, FailedJob(job, CONFLICT_CODE, e.now), JobFailed(e.id, CONFLICT_CODE), id);
      } else {
        FinishKeepsId(w, e.id, SucceededJob(job, e.r, e.now), JobSucceeded(e.id), id);
      }
    }
  }

  lemma DeliverKeepsId(w: World, e: Event, id: Uuid)
    requires e.Deliver? && IdOk(w, id)
    ensures IdOk(Step(w, e), id)
  {
    var db, after := w.db, AfterDelivery(w.db, e.id, e.held, e.result, e.now);
    if after != db {
      FinishKeepsId(w, e.id, after.jobs[e.id], after.audit[|db.audit|], id);
    }
  }

  lemma GiveUpKeepsId(w: World, e: Event, id: Uuid)
    requires e.GiveUp? && IdOk(w, id)
    ensures IdOk(Step(w, e), id)
  {
    if Holds(w.db, e.id, e.held) {
      FinishKeepsId(w, e.id, FailedJob(w.db.jobs[e.id], e.code, e.now), JobFailed(e.id, e.code), id);
    }
  }

  lemma SubmitKeepsId(w: World, e: Event, id: Uuid)
    requires e.Submit? && IdOk(w, id) && Enabled(w, e)
    ensures IdOk(Step(w, e), id)
  {
    OneMoreEvent(w.db.audit, JobSubmitted(e.id), id);
  }

  lemma OnlySubmitsTouchTheOutbox(w: World, e: Event)
    requires !e.Submit? || !SubmitCreates(w.db, e.k, e.c, e.authorized, e.now)
    ensures Next(w.db, e).outbox == w.db.outbox && Next(w.db, e).jobs.Keys == w.db.jobs.Keys
  {
  }

  lemma StepOutbox(w: World, e: Event)
    requires OutboxOk(w.db) && Enabled(w, e)
    ensures OutboxOk(Step(w, e).db)
  {
    var db, after := w.db, Step(w, e).db;
    if e.Submit? && SubmitCreates(db, e.k, e.c, e.authorized, e.now) {
      NewRowForNewJob(db, after, e.id, e.row, NewRow(e.id, e.now));
    } else {
      OnlySubmitsTouchTheOutbox(w, e);
      forall id | id in after.jobs ensures HasOneRow(after, id) {
        assert HasOneRow(db, id);
      }
    }
  }

  lemma NewRowForNewJob(db: Db, after: Db, job: Uuid, added: Uuid, content: OutboxRow)
    requires OutboxOk(db) && job !in db.jobs && added !in db.outbox && content.job == job
    requires after.jobs.Keys == db.jobs.Keys + {job} && after.outbox == db.outbox[added := content]
    ensures OutboxOk(after)
  {
    forall id | id in after.jobs ensures HasOneRow(after, id) {
      if id == job {
        assert RowsOf(after.outbox, id) == {added};
      } else {
        assert HasOneRow(db, id);
        var row :| row in db.outbox && RowsOf(db.outbox, id) == {row};
        assert RowsOf(after.outbox, id) == {row};
      }
    }
  }

  lemma {:induction false} RunInv(w: World, run: seq<Event>)
    requires Inv(w) && ValidRun(w, run)
    ensures Inv(After(w, run))
    decreases |run|
  {
    if run != [] {
      StepInv(w, run[0]);
      RunInv(Step(w, run[0]), run[1..]);
    }
  }

  // ----- Main results -----

  /** In every run each job has exactly one outbox row, and exactly one terminal audit
      event if it is terminal and none otherwise. */
  lemma OneRowAndAtMostOneEnd(current: map<Uuid, nat>, saved: set<Target>, run: seq<Event>, id: Uuid)
    requires ValidRun(Start(current, saved), run)
    requires id in After(Start(current, saved), run).db.jobs
    ensures var db := After(Start(current, saved), run).db;
            && TerminalEvents(db.audit, id) == (if Terminal(db.jobs[id].state) then 1 else 0)
            && |RowsOf(db.outbox, id)| == 1
  {
    StartInv(current, saved);
    RunInv(Start(current, saved), run);
    assert IdOk(After(Start(current, saved), run), id);
    assert HasOneRow(After(Start(current, saved), run).db, id);
  }

  /** A finished job is never touched again: not its state, result or attempts. */
  lemma {:induction false} TerminalForever(w: World, run: seq<Event>, id: Uuid)
    requires ValidRun(w, run) && IdOk(w, id)
    requires id in w.db.jobs && Terminal(w.db.jobs[id].state)
    ensures id in After(w, run).db.jobs && After(w, run).db.jobs[id] == w.db.jobs[id]
    decreases |run|
  {
    if run != [] {
      StepId(w, run[0], id);
      StaysTerminal(w, run[0], id);
      TerminalForever(Step(w, run[0]), run[1..], id);
    }
  }

  lemma StaysTerminal(w: World, e: Event, id: Uuid)
    requires Enabled(w, e) && id in w.db.jobs && Terminal(w.db.jobs[id].state)
    ensures id in Step(w, e).db.jobs && Step(w, e).db.jobs[id] == w.db.jobs[id]
  {
  }

  /** The step that ends a job presents the newest token issued for it.  A result is
      applied only under an unexpired lease, and a success means that the incident was
      still at the job's base revision and that the result names saved revisions. */
  ghost predicate ProperEnd(w: World, e: Event, id: Uuid) {
    && id in w.db.jobs && !Terminal(w.db.jobs[id].state)
    && id in w.h.newest && id in w.h.lastClaim
    && (|| (e.GiveUp? && e.id == id && e.held == w.h.newest[id])
        || (e.Apply? && e.id == id && e.presented == Some(w.h.newest[id]) && e.now < w.h.lastClaim[id] + LEASE)
        || (e.Deliver? && e.id == id && e.held == w.h.newest[id] && e.now < w.h.lastClaim[id] + LEASE))
    && id in Step(w, e).db.jobs
    && (Step(w, e).db.jobs[id].state == Succeeded ==>
          var job, done := w.db.jobs[id], Step(w, e).db.jobs[id];
          && !e.GiveUp? && (e.Apply? ==> e.expected == job.base && done.result == e.r)
          && job.command.incident in w.db.current && w.db.current[job.command.incident] == job.base
          && TargetsExist(Step(w, e).db, job, done.result))
  }

  lemma EndsProperly(w: World, e: Event, id: Uuid)
    requires IdOk(w, id) && Enabled(w, e)
    requires id in w.db.jobs && !Terminal(w.db.jobs[id].state) && Terminal(Step(w, e).db.jobs[id].state)
    ensures ProperEnd(w, e, id)
  {
    if e.Deliver? {
      DeliveryEndsProperly(w, e, id);
    } else if e.Apply? {
      ApplyEndsProperly(w, e, id);
    }
  }

  lemma DeliveryEndsProperly(w: World, e: Event, id: Uuid)
    requires IdOk(w, id) && e.Deliver?
    requires id in w.db.jobs && !Terminal(w.db.jobs[id].state) && Terminal(Step(w, e).db.jobs[id].state)
    ensures ProperEnd(w, e, id)
  {
  }

  lemma ApplyEndsProperly(w: World, e: Event, id: Uuid)
    requires IdOk(w, id) && e.Apply?
    requires id in w.db.jobs && !Terminal(w.db.jobs[id].state) && Terminal(Step(w, e).db.jobs[id].state)
    ensures ProperEnd(w, e, id)
  {
  }

  predicate Finished(w: World, id: Uuid) {
    id in w.db.jobs && Terminal(w.db.jobs[id].state)
  }

  /** In every run that finishes a job exactly one step does so, and that step ends it
      properly; the job is unfinished before it and stays as it left it. */
  lemma OnlyTheNewestClaimFinishes(w: World, run: seq<Event>, id: Uuid) returns (i: nat)
    requires ValidRun(w, run) && IdOk(w, id) && !Finished(w, id) && Finished(After(w, run), id)
    ensures i < |run| && ProperEnd(After(w, run[..i]), run[i], id)
    ensures forall j :: 0 <= j <= i ==> !Finished(After(w, run[..j]), id)
    ensures After(w, run).db.jobs[id] == Step(After(w, run[..i]), run[i]).db.jobs[id]
  {
    i := FinishingStep(w, run, id);
    SplitAt(w, run, i, id);
    var before, rest := After(w, run[..i]), run[i..];
    assert rest[0] == run[i];
    EndsProperly(before, run[i], id);
    StepId(before, run[i], id);
    TerminalForever(Step(before, run[i]), rest[1..], id);
    assert After(before, rest) == After(Step(before, run[i]), rest[1..]);
  }

  /** The first step after which the job is finished. */
  lemma {:induction false} FinishingStep(w: World, run: seq<Event>, id: Uuid) returns (i: nat)
    requires !Finished(w, id) && Finished(After(w, run), id)
    ensures i < |run| && Finished(Step(After(w, run[..i]), run[i]), id)
    ensures forall j :: 0 <= j <= i ==> !Finished(After(w, run[..j]), id)
    decreases |run|
  {
    var v := Step(w, run[0]);
    assert run[..0] == [];
    if Finished(v, id) {
      i := 0;
    } else {
      i := FinishingStep(v, run[1..], id);
      i := i + 1;
      forall j | 0 < j <= i
        ensures After(w, run[..j]) == After(v, run[1..][..j - 1])
      {
        assert run[..j][1..] == run[1..][..j - 1];
      }
    }
  }

  lemma {:induction false} SplitAt(w: World, run: seq<Event>, i: nat, id: Uuid)
    requires i <= |run| && ValidRun(w, run) && IdOk(w, id)
    ensures IdOk(After(w, run[..i]), id) && ValidRun(After(w, run[..i]), run[i..])
    ensures After(w, run) == After(After(w, run[..i]), run[i..])
    decreases i
  {
    if i == 0 {
      assert run[0..] == run && run[..0] == [];
    } else {
      assert run[..i][1..] == run[1..][..i - 1] && run[1..][i - 1..] == run[i..];
      StepId(w, run[0], id);
      SplitAt(Step(w, run[0]), run[1..], i - 1, id);
    }
  }

  /** A worker whose claim was superseded cannot apply, give up or release. */
  lemma StaleWorkersChangeNothing(w: World, id: Uuid, old_: Uuid, e: Event)
    requires IdOk(w, id) && id in w.h.newest && old_ != w.h.newest[id]
    requires || (e.Apply? && e.id == id && e.presented == Some(old_))
             || (e.Deliver? && e.id == id && e.held == old_)
             || (e.GiveUp? && e.id == id && e.held == old_)
             || (e.Release? && e.id == id && e.held == old_)
    ensures Step(w, e) == w
  {
  }

  // ----- How attempts use up leases -----

  /** Attempts cost time: apart from the ones that were handed back, every attempt but
      the newest used up a whole lease after the job started. */
  lemma AttemptsUseUpLeases(current: map<Uuid, nat>, saved: set<Target>, run: seq<Event>, id: Uuid)
    requires ValidRun(Start(current, saved), run)
    requires var w := After(Start(current, saved), run); id in w.db.jobs && w.db.jobs[id].attempts > 0
    ensures var w := After(Start(current, saved), run);
            && id in w.h.releases && id in w.h.lastClaim && w.db.jobs[id].startedAt.Some?
            && w.db.jobs[id].startedAt.value + LEASE * (w.db.jobs[id].attempts - 1 - w.h.releases[id]) <= w.h.lastClaim[id]
  {
    StartInv(current, saved);
    RunInv(Start(current, saved), run);
    assert IdOk(After(Start(current, saved), run), id);
  }

  /** Every attempt but the newest, handed back or not, used up a whole lease. */
  predicate Bounded(w: World, id: Uuid) {
    id in w.db.jobs && w.db.jobs[id].startedAt.Some? && id in w.h.lastClaim ==>
      w.db.jobs[id].startedAt.value + LEASE * (w.db.jobs[id].attempts - 1) <= w.h.lastClaim[id]
  }

  ghost predicate AlwaysBounded(w: World, run: seq<Event>, id: Uuid)
    decreases |run|
  {
    Bounded(w, id) && (run != [] ==> AlwaysBounded(Step(w, run[0]), run[1..], id))
  }

  /** A claim of a handed-back job waits until all its attempts could have run out. */
  predicate Patient(w: World, e: Event, id: Uuid) {
    e.Claim? && e.id == id && id in w.db.jobs && w.db.jobs[id].state == Queued && w.db.jobs[id].startedAt.Some? ==>
      w.db.jobs[id].startedAt.value + LEASE * w.db.jobs[id].attempts <= e.now
  }

  ghost predicate PatientRun(w: World, run: seq<Event>, id: Uuid)
    decreases |run|
  {
    run != [] ==> Patient(w, run[0], id) && PatientRun(Step(w, run[0]), run[1..], id)
  }

  lemma StepBoundedIff(w: World, e: Event, id: Uuid)
    requires IdOk(w, id) && Enabled(w, e) && Bounded(w, id)
    ensures Bounded(Step(w, e), id) <==> Patient(w, e, id)
  {
    if e.Claim? && e.id == id && id in w.db.jobs && w.db.jobs[id].state == Running && Claimable(w.db.jobs[id], e.now) {
      var n := w.db.jobs[id].attempts;
      assert LEASE * n == LEASE * (n - 1) + LEASE;
    }
  }

  /** Counting handed-back attempts too, the bound holds throughout a run exactly when every
      claim of a handed-back job is patient. */
  lemma {:induction false} BoundHoldsIff(w: World, run: seq<Event>, id: Uuid)
    requires IdOk(w, id) && ValidRun(w, run) && Bounded(w, id)
    ensures AlwaysBounded(w, run, id) <==> PatientRun(w, run, id)
    decreases |run|
  {
    if run != [] {
      StepBoundedIff(w, run[0], id);
      StepId(w, run[0], id);
      if Bounded(Step(w, run[0]), id) {
        BoundHoldsIff(Step(w, run[0]), run[1..], id);
      }
    }
  }

  /** Every run from the start. */
  lemma BoundFromTheStartIff(current: map<Uuid, nat>, saved: set<Target>, run: seq<Event>, id: Uuid)
    requires ValidRun(Start(current, saved), run)
    ensures AlwaysBounded(Start(current, saved), run, id) <==> PatientRun(Start(current, saved), run, id)
  {
    StartInv(current, saved);
    assert IdOk(Start(current, saved), id);
    BoundHoldsIff(Start(current, saved), run, id);
  }

  /** No worker hands the job back. */
  ghost predicate NeverReleased(w: World, run: seq<Event>, id: Uuid)
    decreases |run|
  {
    run != [] ==>
      && !(run[0].Release? && run[0].id == id && Holds(w.db, id, run[0].held))
      && NeverReleased(Step(w, run[0]), run[1..], id)
  }

  /** In particular it survives every further run in which the job is not handed back. */
  lemma {:induction false} UnreleasedStaysBounded(w: World, run: seq<Event>, id: Uuid)
    requires IdOk(w, id) && ValidRun(w, run) && NeverReleased(w, run, id)
    requires id in w.h.releases ==> w.h.releases[id] == 0
    ensures AlwaysBounded(w, run, id)
    decreases |run|
  {
    UnreleasedIsBounded(w, id);
    if run != [] {
      StepId(w, run[0], id);
      StaysUnreleased(w, run[0], id);
      UnreleasedStaysBounded(Step(w, run[0]), run[1..], id);
    }
  }

  lemma UnreleasedIsBounded(w: World, id: Uuid)
    requires IdOk(w, id) && (id in w.h.releases ==> w.h.releases[id] == 0)
    ensures Bounded(w, id)
  {
    if id in w.db.jobs && w.db.jobs[id].attempts > 0 {
      var n := w.db.jobs[id].attempts;
      assert LEASE * n == LEASE * (n - 1) + LEASE;
    }
  }

  lemma StaysUnreleased(w: World, e: Event, id: Uuid)
    requires id in w.h.releases ==> w.h.releases[id] == 0
    requires !(e.Release? && e.id == id && Holds(w.db, id, e.held))
    ensures id in Step(w, e).h.releases ==> Step(w, e).h.releases[id] == 0
  {
  }

  /** The holder of a job hands it back and it is claimed again at once, over and over. */
  function HandBacks(id: Uuid, held: Uuid, at: Instant, tokens: seq<Uuid>): seq<Event>
    decreases |tokens|
  {
    if tokens == [] then [] else [Release(id, held), Claim(id, at, tokens[0])] + HandBacks(id, tokens[0], at, tokens[1..])
  }

  /** And it survives no run in which a running job is handed back often enough: once, if
      the newest claim came before all attempts could have run out. */
  lemma {:induction false} HandBacksBreakTheBound(w: World, id: Uuid, tokens: seq<Uuid>)
    requires IdOk(w, id) && id in w.db.jobs && w.db.jobs[id].state == Running && tokens != []
    requires Distinct(tokens) && forall t :: t in tokens ==> t !in w.h.issued
    requires w.db.jobs[id].startedAt.value + LEASE * (w.db.jobs[id].attempts - 1 + |tokens|) > w.h.lastClaim[id]
    ensures var run := HandBacks(id, w.h.newest[id], w.h.lastClaim[id], tokens);
            ValidRun(w, run) && !Bounded(After(w, run), id)
    decreases |tokens|
  {
    var at, token := w.h.lastClaim[id], tokens[0];
    var release, claim := Release(id, w.h.newest[id]), Claim(id, at, token);
    var run, rest := HandBacks(id, w.h.newest[id], at, tokens), HandBacks(id, token, at, tokens[1..]);
    StepId(w, release, id);
    var u := Step(w, release);
    assert token in tokens;
    StepId(u, claim, id);
    var v := Step(u, claim);
    assert run[0] == release && run[1..][0] == claim && run[1..][1..] == rest;
    if |tokens| > 1 {
      assert forall t :: t in tokens[1..] ==> t in tokens && t != token;
      HandBacksBreakTheBound(v, id, tokens[1..]);
    } else {
      assert tokens[1..] == [];
    }
    assert After(w, run) == After(u, run[1..]) == After(v, rest);
  }

  /** A job that was just submitted and claimed. */
  lemma Claimed(k: I.Key, c: Canonical, now: Instant, id: Uuid, row: Uuid, token: Uuid) returns (w: World)
    requires I.ValidKey(k.key) && c.base >= 1
    ensures var start, run := Start(map[c.command.incident := c.base], {}), [Submit(k, c, true, now, id, row), Claim(id, now, token)];
            && ValidRun(start, run) && w == After(start, run) && IdOk(w, id)
    ensures id in w.db.jobs && w.db.jobs[id] == ClaimedJob(NewJob(k.actor, c, now), now, token)
    ensures w.h == History(map[id := token], map[id := now], map[id := 0], {token})
  {
    var start := Start(map[c.command.incident := c.base], {});
    var submit, claim := Submit(k, c, true, now, id, row), Claim(id, now, token);
    var run := [submit, claim];
    StartInv(map[c.command.incident := c.base], {});
    assert IdOk(start, id);
    StepId(start, submit, id);
    StepId(Step(start, submit), claim, id);
    w := Step(Step(start, submit), claim);
    assert run[1..] == [claim] && run[1..][1..] == [];
    assert After(start, run) == After(Step(start, submit), run[1..]) == w;
  }

  /** For instance when a job is submitted, claimed, handed back and claimed again at once. */
  lemma OneHandBackIsEnough(k: I.Key, c: Canonical, now: Instant, id: Uuid, row: Uuid, first: Uuid, second: Uuid)
    requires I.ValidKey(k.key) && c.base >= 1 && first != second
    ensures var start := Start(map[c.command.incident := c.base], {});
            var run := [Submit(k, c, true, now, id, row), Claim(id, now, first), Release(id, first), Claim(id, now, second)];
            ValidRun(start, run) && !Bounded(After(start, run), id)
  {
    var start := Start(map[c.command.incident := c.base], {});
    var run := [Submit(k, c, true, now, id, row), Claim(id, now, first), Release(id, first), Claim(id, now, second)];
    var w := Claimed(k, c, now, id, row, first);
    HandBacksBreakTheBound(w, id, [second]);
    assert run[..2] == [Submit(k, c, true, now, id, row), Claim(id, now, first)];
    assert run[2..] == HandBacks(id, first, now, [second]);
    Continued(start, run, 2);
  }

  lemma {:induction false} Continued(w: World, run: seq<Event>, i: nat)
    requires i <= |run| && ValidRun(w, run[..i]) && ValidRun(After(w, run[..i]), run[i..])
    ensures ValidRun(w, run) && After(w, run) == After(After(w, run[..i]), run[i..])
    decreases i
  {
    if i == 0 {
      assert run[0..] == run;
    } else {
      assert run[..i][1..] == run[1..][..i - 1] && run[1..][i - 1..] == run[i..];
      Continued(Step(w, run[0]), run[1..], i - 1);
    }
  }

  /** Giving up needs the newest token but no live lease: it ends the job at any time
      until another worker reclaims it or the job is handed back. */
  lemma GivingUpIgnoresTheLease(w: World, id: Uuid, token: Uuid, code: string, now: Instant)
    requires IdOk(w, id) && id in w.db.jobs && !Terminal(w.db.jobs[id].state)
    ensures Terminal(Step(w, GiveUp(id, token, code, now)).db.jobs[id].state) <==>
            (w.db.jobs[id].state == Running && token == w.h.newest[id])
  {
  }

  /** For instance a minute after the lease of a job's only claim ran out. */
  lemma LateGiveUp(k: I.Key, c: Canonical, now: Instant, id: Uuid, row: Uuid, token: Uuid, code: string)
    requires I.ValidKey(k.key) && c.base >= 1
    ensures var start := Start(map[c.command.incident := c.base], {});
            var late := now + LEASE + MINUTE;
            var run := [Submit(k, c, true, now, id, row), Claim(id, now, token), GiveUp(id, token, code, late)];
            && ValidRun(start, run) && Finished(After(start, run), id)
            && id in After(start, run[..2]).db.jobs && !HoldsLease(After(start, run[..2]).db.jobs[id], Some(token), late)
  {
    var start := Start(map[c.command.incident := c.base], {});
    var late := now + LEASE + MINUTE;
    var run := [Submit(k, c, true, now, id, row), Claim(id, now, token), GiveUp(id, token, code, late)];
    var w := Claimed(k, c, now, id, row, token);
    assert run[..2] == [Submit(k, c, true, now, id, row), Claim(id, now, token)];
    assert run[2..] == [GiveUp(id, token, code, late)] && run[2..][1..] == [];
    GivingUpIgnoresTheLease(w, id, token, code, late);
    Continued(start, run, 2);
  }

  /** Submissions of a key within a day of a created job. */
  predicate WithinADay(e: Event, k: I.Key, created: Instant) {
    e.Submit? ==> I.WithinADay(e.k, e.now, k, created)
  }

  lemma {:induction false} ClaimStands(w: World, run: seq<Event>, k: I.Key, c: Canonical, created: Instant, id: Uuid)
    requires ValidRun(w, run)
    requires forall i :: 0 <= i < |run| ==> WithinADay(run[i], k, created)
    requires I.ValidKey(k.key)
    requires k in w.db.claims && w.db.claims[k] == I.Stored(c, id, created)
    ensures var db := After(w, run).db;
            k in db.claims && db.claims[k] == I.Stored(c, id, created)
    decreases |run|
  {
    if run != [] {
      assert WithinADay(run[0], k, created);
      ClaimStands(Step(w, run[0]), run[1..], k, c, created, id);
    }
  }

  /** After a submission created a job, whatever happens for a day, resubmitting the
      same request returns that job and changes nothing: no second job, outbox row or
      audit event.  Another request under the key is refused and changes nothing. */
  lemma ResubmissionCreatesNothing(w: World, first: Event, run: seq<Event>, again: Event)
    requires first.Submit? && SubmitCreates(w.db, first.k, first.c, first.authorized, first.now)
    requires ValidRun(Step(w, first), run)
    requires forall i :: 0 <= i < |run| ==> WithinADay(run[i], first.k, first.now)
    requires again.Submit? && again.k == first.k && WithinADay(again, first.k, first.now)
    ensures var v := After(Step(w, first), run);
            && Next(v.db, again) == v.db
            && (again.c.base >= 1 && again.authorized && again.c.command.incident in v.db.current ==>
                  SubmitReply(v.db, again.k, again.c, again.authorized, again.now, again.id) ==
                  if again.c == first.c then Ok(first.id) else Err(Refused(I.Conflict)))
  {
    ClaimStands(Step(w, first), run, first.k, first.c, first.now, first.id);
  }
}
