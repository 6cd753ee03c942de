/** Report operations as requests: authorized by a live access row, guarded by an
    idempotency key, executed on the locked report. */
module ReportRecords {
  import opened Base
  import I = Idempotency
  import opened Reports

  /** `elevated` marks the administrator's routes, which skip the access row. */
  datatype Request = Request(key: I.Key, op: Op, elevated: bool, now: Instant)

  datatype Reply = NotFound | Refused(why: I.Refusal) | Failed(error: Error) | Replayed(number: nat) | Done(number: nat)

  type Claims = I.Records<Op, nat>

  datatype State = State(report: Report, claims: Claims)

  const NOBODY := Actor(0, 0, false)

  /** The part of an operation that the request digest covers. */
  function Canonical(op: Op): Op {
    match op
    case Save(_, content, base, reason) => Save(NOBODY, content, base, reason)
    case SetStatus(_, status, base, _) => SetStatus(NOBODY, status, base, 0)
    case Restore(_, number) => Restore(NOBODY, number)
    case Recover(_, content, base) => Recover(NOBODY, content, base)
    case Transfer(_, owner, preparer, _, _) => Transfer(NOBODY, owner, preparer, {}, 0)
  }

  /** What two operations ask for is the same, whoever asks and whenever. */
  predicate SameAsk(a: Op, b: Op) {
    match (a, b)
    case (Save(_, c, base, reason), Save(_, d, e, f)) => c == d && base == e && reason == f
    case (SetStatus(_, status, base, _), SetStatus(_, t, e, _)) => status == t && base == e
    case (Restore(_, number), Restore(_, n)) => number == n
    case (Recover(_, c, base), Recover(_, d, e)) => c == d && base == e
    case (Transfer(_, owner, preparer, _, _), Transfer(_, o, p, _, _)) => owner == o && preparer == p
    case _ => false
  }

  lemma DigestsAgreeIff(a: Op, b: Op)
    ensures Canonical(a) == Canonical(b) <==> SameAsk(a, b)
  {
  }

  function Answer(s: State, q: Request): Reply {
    if !q.elevated && !LiveAccess(s.report, q.op.actor.staff) then NotFound
    else
      match I.ClaimReply(s.claims, q.key, Canonical(q.op), q.now)
      case Err(why) => Refused(why)
      case Ok(Replayed(number)) => Replayed(number)
      case Ok(Granted) =>
        if Refusal(s.report, q.op).Some? then Failed(Refusal(s.report, q.op).value)
        else Done(NewRevision(s.report, q.op).number)
  }

  function Next(s: State, q: Request): State {
    if Answer(s, q).Done? then
      State(After(s.report, q.op),
            I.AfterComplete(I.AfterClaim(s.claims, q.key, Canonical(q.op), q.now), q.key, Answer(s, q).number))
    else s
  }

  class ReportService {
    const row: ReportRow
    var claims: Claims

    ghost function View(): State
      reads this, row
    {
      State(row.View(), claims)
    }

    constructor (row: ReportRow)
      ensures this.row == row && claims == map[]
    {
      this.row, claims := row, map[];
    }

    /** Authorize, claim, execute, complete; a refusal rolls everything back. */
    method Execute(q: Request) returns (reply: Reply)
      modifies this, row
      ensures reply == Answer(old(View()), q) && View() == Next(old(View()), q)
    {
      if !q.elevated {
        var staff := q.op.actor.staff;
        if staff !in row.access || row.access[staff].revokedAt != None {
          return NotFound;
        }
      }
      match I.ClaimReply(claims, q.key, Canonical(q.op), q.now) {
        case Err(why) => return Refused(why);
        case Ok(Replayed(number)) => return Replayed(number);
        case Ok(Granted) =>
      }
      var result;
      match q.op {
        case Save(actor, content, base, reason) => result := row.SaveReport(actor, content, base, reason);
        case SetStatus(actor, status, base, now) => result := row.SaveReportStatus(actor, status, base, now);
        case Restore(actor, number) => result := row.RestoreReport(actor, number);
        case Recover(actor, content, base) => result := row.CreateRecoveryRevision(actor, content, base);
        case Transfer(actor, owner, preparer, active, now) =>
          result := row.TransferOwnership(actor, owner, preparer, active, now);
      }
      match result
      case Err(error) => return Failed(error);
      case Ok(revision) =>
        claims := I.AfterClaim(claims, q.key, Canonical(q.op), q.now);
        claims := I.AfterComplete(claims, q.key, revision.number);
        return Done(revision.number);
    }
  }

  /** A request, or a save by a worker inside its own job transaction. */
  datatype Event = Asked(q: Request) | Worker(op: Op)

  function AfterEvent(s: State, e: Event): State {
    match e
    case Asked(q) => Next(s, q)
    case Worker(op) => s.(report := After(s.report, op))
  }

  function AfterAll(s: State, run: seq<Event>): State
    decreases |run|
  {
    if run == [] then s else AfterAll(AfterEvent(s, run[0]), run[1..])
  }

  predicate WithinADay(e: Event, key: I.Key, executed: Instant) {
    e.Asked? ==> I.WithinADay(e.q.key, e.q.now, key, executed)
  }

  lemma {:induction false} ClaimAndRevisionStand(s: State, run: seq<Event>, key: I.Key, canonical: Op, executed: Instant, v: Revision)
    requires Inv(s.report) && 1 <= v.number <= |s.report.log| && s.report.log[v.number - 1] == v
    requires I.ValidKey(key.key) && key in s.claims && s.claims[key] == I.Stored(canonical, v.number, executed)
    requires forall i :: 0 <= i < |run| ==> WithinADay(run[i], key, executed)
    ensures var t := AfterAll(s, run);
            && key in t.claims && t.claims[key] == s.claims[key]
            && Inv(t.report) && Find(t.report.log, v.number) == Some(v)
    decreases |run|
  {
    if run == [] {
      FindsByNumber(s.report.log, v.number);
    } else {
      assert WithinADay(run[0], key, executed);
      EventKeeps(s, run[0], key, canonical, executed, v);
      ClaimAndRevisionStand(AfterEvent(s, run[0]), run[1..], key, canonical, executed, v);
    }
  }

  lemma EventKeeps(s: State, e: Event, key: I.Key, canonical: Op, executed: Instant, v: Revision)
    requires Inv(s.report) && 1 <= v.number <= |s.report.log| && s.report.log[v.number - 1] == v
    requires I.ValidKey(key.key) && key in s.claims && s.claims[key] == I.Stored(canonical, v.number, executed)
    requires WithinADay(e, key, executed)
    ensures var t := AfterEvent(s, e);
            && Inv(t.report) && v.number <= |t.report.log| && t.report.log[v.number - 1] == v
            && key in t.claims && t.claims[key] == s.claims[key]
  {
    StepInv(s.report, if e.Asked? then e.q.op else e.op);
  }

  /** What a request that appended a revision leaves behind. */
  lemma DoneLeaves(s: State, q: Request) returns (v: Revision)
    requires Inv(s.report) && Answer(s, q).Done?
    ensures Refusal(s.report, q.op) == None && v == NewRevision(s.report, q.op) && v.number == Answer(s, q).number
    ensures var t := Next(s, q);
            && Inv(t.report) && 1 <= v.number <= |t.report.log| && t.report.log[v.number - 1] == v
            && I.ValidKey(q.key.key) && q.key in t.claims
            && t.claims[q.key] == I.Stored(Canonical(q.op), v.number, q.now)
  {
    StepInv(s.report, q.op);
    HighestIsLength(s.report.log);
    v := NewRevision(s.report, q.op);
  }

  lemma AnswerOnStandingClaim(t: State, again: Request, canonical: Op, number: nat, executed: Instant)
    requires I.ValidKey(again.key.key) && again.key in t.claims && t.claims[again.key] == I.Stored(canonical, number, executed)
    requires again.now < executed + I.LIFETIME
    ensures Next(t, again) == t
    ensures Answer(t, again) ==
            if !again.elevated && !LiveAccess(t.report, again.op.actor.staff) then NotFound
            else if Canonical(again.op) == canonical then Replayed(number)
            else Refused(I.Conflict)
  {
  }

  /** With an unused key a request is carried out exactly for an administrator or someone
      with live access, and exactly when the report accepts its operation. */
  lemma FirstUseExecutesIff(s: State, q: Request)
    requires I.ValidKey(q.key.key) && q.key !in s.claims
    ensures Answer(s, q).Done? <==> (q.elevated || LiveAccess(s.report, q.op.actor.staff)) && Refusal(s.report, q.op) == None
    ensures Answer(s, q).Done? ==> Next(s, q).report == After(s.report, q.op)
    ensures !Answer(s, q).Done? ==> Next(s, q) == s
    ensures Answer(s, q).NotFound? <==> !q.elevated && !LiveAccess(s.report, q.op.actor.staff)
  {
  }

  /** Once a request appended a revision, for a day and through any other requests
      and worker saves the same request gets that revision's number back and appends
      nothing; the number still names the very revision.  Another request on the key is refused, and an
      actor whose access was revoked meanwhile learns nothing. */
  lemma RetryAppendsNothing(s: State, first: Request, run: seq<Event>, again: Request)
    requires Inv(s.report) && Answer(s, first).Done?
    requires again.key == first.key && again.now < first.now + I.LIFETIME
    requires forall i :: 0 <= i < |run| ==> WithinADay(run[i], first.key, first.now)
    ensures var t := AfterAll(Next(s, first), run);
            && Next(t, again) == t
            && Answer(t, again) == (
                 if !again.elevated && !LiveAccess(t.report, again.op.actor.staff) then NotFound
                 else if SameAsk(again.op, first.op) then Replayed(Answer(s, first).number)
                 else Refused(I.Conflict))
            && Refusal(s.report, first.op) == None
            && Find(t.report.log, Answer(s, first).number) == Some(NewRevision(s.report, first.op))
  {
    DigestsAgreeIff(again.op, first.op);
    var v := DoneLeaves(s, first);
    ClaimAndRevisionStand(Next(s, first), run, first.key, Canonical(first.op), first.now, v);
    AnswerOnStandingClaim(AfterAll(Next(s, first), run), again, Canonical(first.op), v.number, first.now);
  }
}
