/** Incidents with their append-only revision logs, their carried-forward identity,
    and the two ways their revisions are numbered. */
module Incidents {
  import opened Base
  import I = Idempotency

  /** What a revision records: the officer-assigned identity and everything else. */
  datatype Snapshot = Snapshot(number: Option<string>, name: Option<string>, body: string)

  datatype Status = InProgress | Completed | Archived

  datatype Reason = Saved | Restored | StatusChange

  datatype Revision = Revision(number: nat, snapshot: Snapshot, reason: Reason)

  datatype Incident = Incident(status: Status, current: nat, row: Snapshot, log: seq<Revision>)

  datatype Error = InvalidRequest | NotFound | Conflict(current: nat) | NumberTaken | NothingToChange

  /** `Save` is an officer's save; `Apply` is the worker's, which numbers by the log. */
  datatype Op =
    | Create(content: Snapshot)
    | Save(content: Snapshot, base: int)
    | Apply(content: Snapshot, base: int)
    | Restore(source: int)
    | SetStatus(status: Status, base: int)

  type Incidents = map<Uuid, Incident>

  function Highest(log: seq<Revision>): nat {
    if log == [] then 0
    else
      var h, last := Highest(log[..|log| - 1]), log[|log| - 1].number;
      if last > h then last else h
  }

  function Find(log: seq<Revision>, number: int): Option<Revision> {
    if log == [] then None
    else if log[|log| - 1].number == number then Some(log[|log| - 1])
    else Find(log[..|log| - 1], number)
  }

  /** An omitted identity field keeps the value of the incident. */
  function CarryForward(row: Snapshot, payload: Snapshot): Snapshot {
    payload.(number := if payload.number == None then row.number else payload.number,
             name := if payload.name == None then row.name else payload.name)
  }

  /** Incident numbers are unique among the incidents that have one. */
  predicate Taken(db: Incidents, id: Uuid, number: Option<string>) {
    number.Some? && exists other :: other in db && other != id && db[other].row.number == number
  }

  /** The content an operation would put on the row. */
  function Proposed(i: Incident, op: Op): Option<Snapshot> {
    match op
    case Create(content) => Some(content)
    case Save(content, _) => Some(CarryForward(i.row, content))
    case Apply(content, _) => Some(CarryForward(i.row, content))
    case Restore(source) => if Find(i.log, source) == None then None else Some(Find(i.log, source).value.snapshot)
    case SetStatus(_, _) => if Find(i.log, i.current) == None then None else Some(Find(i.log, i.current).value.snapshot)
  }

  /** Numbers that no revision can have. */
  predicate Malformed(op: Op) {
    (op.Apply? && op.base < 0) || (op.Restore? && op.source < 1) || (op.SetStatus? && op.base < 1)
  }

  function Refusal(db: Incidents, id: Uuid, op: Op): Option<Error> {
    if op.Create? then
      if Taken(db, id, op.content.number) then Some(NumberTaken) else None
    else if Malformed(op) then Some(InvalidRequest)
    else if id !in db then Some(NotFound)
    else
      var i := db[id];
      if (op.Save? || op.Apply? || op.SetStatus?) && i.current != op.base then Some(Conflict(i.current))
      else if op.SetStatus? && i.status == op.status then Some(NothingToChange)
      else if Proposed(i, op) == None then Some(NotFound)
      else if !op.SetStatus? && Taken(db, id, Proposed(i, op).value.number) then Some(NumberTaken)
      else None
  }

  /** Officer requests count from the row, the worker from the log. */
  function NextNumber(i: Incident, op: Op): nat {
    if op.Apply? then Highest(i.log) + 1 else i.current + 1
  }

  function AfterOp(i: Incident, op: Op): Incident
    requires !op.Create? && Proposed(i, op).Some?
  {
    var n, content := NextNumber(i, op), Proposed(i, op).value;
    var reason := if op.Restore? then Restored else if op.SetStatus? then StatusChange else Saved;
    i.(current := n, log := i.log + [Revision(n, content, reason)],
       row := if op.SetStatus? then i.row else content,
       status := if op.SetStatus? then op.status else i.status)
  }

  function Next(db: Incidents, id: Uuid, op: Op): Incidents {
    if Refusal(db, id, op).Some? then db
    else if op.Create? then db[id := Incident(InProgress, 1, op.content, [Revision(1, op.content, Saved)])]
    else db[id := AfterOp(db[id], op)]
  }

  // ----- Requests -----

  datatype Request = Request(key: I.Key, id: Uuid, op: Op, visible: bool, now: Instant)

  datatype Canonical = NewIncident(content: Snapshot) | OnIncident(id: Uuid, op: Op)

  datatype Reference = Reference(id: Uuid, number: nat)

  datatype Reply = Refused(why: I.Refusal) | Failed(error: Error) | Replayed(r: Reference) | Done(r: Reference)

  type Claims = I.Records<Canonical, Reference>

  datatype State = State(db: Incidents, claims: Claims)

  function CanonicalOf(q: Request): Canonical {
    if q.op.Create? then NewIncident(q.op.content) else OnIncident(q.id, q.op)
  }

  /** The claim comes first, malformed numbers apart; only then is the incident looked up
      and checked. */
  function Answer(s: State, q: Request): Reply {
    if Malformed(q.op) then Failed(InvalidRequest)
    else
    match I.ClaimReply(s.claims, q.key, CanonicalOf(q), q.now)
    case Err(why) => Refused(why)
    case Ok(Replayed(r)) => Replayed(r)
    case Ok(Granted) =>
      if !q.op.Create? && !q.visible then Failed(NotFound)
      else if Refusal(s.db, q.id, q.op).Some? then Failed(Refusal(s.db, q.id, q.op).value)
      else Done(Reference(q.id, if q.op.Create? then 1 else NextNumber(s.db[q.id], q.op)))
  }

  function Committed(s: State, q: Request): State {
    if Answer(s, q).Done? then
      State(Next(s.db, q.id, q.op),
            I.AfterComplete(I.AfterClaim(s.claims, q.key, CanonicalOf(q), q.now), q.key, Answer(s, q).r))
    else s
  }

  class IncidentService {
    var incidents: Incidents
    var claims: Claims

    ghost function View(): State
      reads this
    {
      State(incidents, claims)
    }

    constructor ()
      ensures View() == State(map[], map[])
    {
      incidents, claims := map[], map[];
    }

    /** The common frame of the officers' create, save, restore and status requests;
        the worker saves inside its own job transaction. */
    method Execute(q: Request) returns (reply: Reply)
      requires !q.op.Apply?
      modifies this
      ensures reply == Answer(old(View()), q) && View() == Committed(old(View()), q)
    {
      if Malformed(q.op) {
        return Failed(InvalidRequest);
      }
      match I.ClaimReply(claims, q.key, CanonicalOf(q), q.now) {
        case Err(why) => return Refused(why);
        case Ok(Replayed(r)) => return Replayed(r);
        case Ok(Granted) =>
      }
      if !q.op.Create? && !q.visible {
        return Failed(NotFound);
      }
      var result: Result<nat, Error>;
      match q.op {
        case Create(content) => result := CreateIncident(q.id, content);
        case Save(content, base) => result := SaveIncidentRecord(q.id, content, base);
        case Restore(source) => result := RestoreIncidentRecord(q.id, source);
        case SetStatus(status, base) => result := SetRecordsStatus(q.id, status, base);
      }
      match result
      case Err(error) => return Failed(error);
      case Ok(number) =>
        claims := I.AfterClaim(claims, q.key, CanonicalOf(q), q.now);
        claims := I.AfterComplete(claims, q.key, Reference(q.id, number));
        return Done(Reference(q.id, number));
    }

    method CreateIncident(id: Uuid, content: Snapshot) returns (reply: Result<nat, Error>)
      modifies this`incidents
      ensures incidents == Next(old(incidents), id, Create(content))
      ensures reply == if Refusal(old(incidents), id, Create(content)).Some? then Err(NumberTaken) else Ok(1)
    {
      if Taken(incidents, id, content.number) {
        return Err(NumberTaken);
      }
      var incident := Incident(InProgress, 1, content, []);
      incident := incident.(log := [Revision(1, content, Saved)]);
      incidents := incidents[id := incident];
      return Ok(1);
    }

    method SaveIncidentRecord(id: Uuid, content: Snapshot, base: int) returns (reply: Result<nat, Error>)
      modifies this`incidents
      ensures reply == ReplyTo(old(incidents), id, Save(content, base))
      ensures incidents == Next(old(incidents), id, Save(content, base))
    {
      if id !in incidents {
        return Err(NotFound);
      }
      var incident := incidents[id];
      if incident.current != base {
        return Err(Conflict(incident.current));
      }
      var payload := CarryForwardIdentity(incident.row, content);
      if Taken(incidents, id, payload.number) {
        return Err(NumberTaken);
      }
      var next := incident.current + 1;
      incident := incident.(log := incident.log + [Revision(next, payload, Saved)]);
      incident := incident.(row := payload, current := next);
      incidents := incidents[id := incident];
      return Ok(next);
    }

    /** The worker's save of an analysis result. */
    method SaveIncident(id: Uuid, content: Snapshot, base: int) returns (reply: Result<nat, Error>)
      modifies this`incidents
      ensures reply == ReplyTo(old(incidents), id, Apply(content, base))
      ensures incidents == Next(old(incidents), id, Apply(content, base))
    {
      if base < 0 {
        return Err(InvalidRequest);
      }
      if id !in incidents {
        return Err(NotFound);
      }
      var incident := incidents[id];
      if incident.current != base {
        return Err(Conflict(incident.current));
      }
      var payload := CarryForwardIdentity(incident.row, content);
      if Taken(incidents, id, payload.number) {
        return Err(NumberTaken);
      }
      var revision := Revision(Highest(incident.log) + 1, payload, Saved);
      incident := incident.(log := incident.log + [revision]);
      incident := incident.(row := payload, current := revision.number);
      incidents := incidents[id := incident];
      return Ok(revision.number);
    }

    method CarryForwardIdentity(row: Snapshot, content: Snapshot) returns (payload: Snapshot)
      ensures payload == CarryForward(row, content)
    {
      payload := content;
      if payload.number == None && row.number != None {
        payload := payload.(number := row.number);
      }
      if payload.name == None && row.name != None {
        payload := payload.(name := row.name);
      }
    }

    method RestoreIncidentRecord(id: Uuid, source: int) returns (reply: Result<nat, Error>)
      modifies this`incidents
      ensures reply == ReplyTo(old(incidents), id, Restore(source))
      ensures incidents == Next(old(incidents), id, Restore(source))
    {
      if source < 1 {
        return Err(InvalidRequest);
      }
      if id !in incidents {
        return Err(NotFound);
      }
      var incident := incidents[id];
      var found := Find(incident.log, source);
      if found == None {
        return Err(NotFound);
      }
      var payload := found.value.snapshot;
      if Taken(incidents, id, payload.number) {
        return Err(NumberTaken);
      }
      var next := incident.current + 1;
      incident := incident.(log := incident.log + [Revision(next, payload, Restored)]);
      incident := incident.(row := payload, current := next);
      incidents := incidents[id := incident];
      return Ok(next);
    }

    /** An administrator's records status: a revision that copies the current snapshot. */
    method SetRecordsStatus(id: Uuid, status: Status, base: int) returns (reply: Result<nat, Error>)
      modifies this`incidents
      ensures reply == ReplyTo(old(incidents), id, SetStatus(status, base))
      ensures incidents == Next(old(incidents), id, SetStatus(status, base))
    {
      if base < 1 {
        return Err(InvalidRequest);
      }
      if id !in incidents {
        return Err(NotFound);
      }
      var incident := incidents[id];
      if incident.current != base {
        return Err(Conflict(incident.current));
      }
      if incident.status == status {
        return Err(NothingToChange);
      }
      var source := Find(incident.log, incident.current);
      if source == None {
        return Err(NotFound);
      }
      var next := incident.current + 1;
      incident := incident.(log := incident.log + [Revision(next, source.value.snapshot, StatusChange)]);
      incident := incident.(status := status, current := next);
      incidents := incidents[id := incident];
      return Ok(next);
    }
  }

  function ReplyTo(db: Incidents, id: Uuid, op: Op): Result<nat, Error>
    requires !op.Create?
  {
    if Refusal(db, id, op).Some? then Err(Refusal(db, id, op).value) else Ok(NextNumber(db[id], op))
  }

  // ----- Invariants over every run -----

  ghost predicate Numbered(log: seq<Revision>) {
    forall i :: 0 <= i < |log| ==> log[i].number == i + 1
  }

  /** Numbers are 1..n, the row's current number is n, and the row is its snapshot. */
  ghost predicate IncidentOk(i: Incident) {
    i.log != [] && Numbered(i.log) && i.current == |i.log| && i.row == i.log[|i.log| - 1].snapshot
  }

  ghost predicate NumbersUnique(db: Incidents) {
    forall a, b :: a in db && b in db && a != b && db[a].row.number.Some? ==> db[a].row.number != db[b].row.number
  }

  ghost predicate Inv(db: Incidents) {
    (forall id :: id in db ==> IncidentOk(db[id])) && NumbersUnique(db)
  }

  lemma {:induction false} HighestIsLength(log: seq<Revision>)
    requires Numbered(log)
    ensures Highest(log) == |log|
  {
    if log != [] {
      HighestIsLength(log[..|log| - 1]);
    }
  }

  lemma {:induction false} FindsByNumber(log: seq<Revision>, number: int)
    requires Numbered(log)
    ensures Find(log, number) == if 1 <= number <= |log| then Some(log[number - 1]) else None
  {
    if log != [] {
      FindsByNumber(log[..|log| - 1], number);
    }
  }

  /** Counting from the row and counting from the log give the same next number. */
  lemma NumberingRulesAgree(i: Incident, officer: Op, worker: Op)
    requires IncidentOk(i) && !officer.Apply? && worker.Apply?
    ensures NextNumber(i, officer) == NextNumber(i, worker) == |i.log| + 1
  {
    HighestIsLength(i.log);
  }

  lemma OpKeeps(i: Incident, op: Op)
    requires IncidentOk(i) && !op.Create? && Proposed(i, op).Some?
    ensures IncidentOk(AfterOp(i, op)) && i.log <= AfterOp(i, op).log && |AfterOp(i, op).log| == |i.log| + 1
    ensures op.SetStatus? ==> AfterOp(i, op).row == i.row
  {
    HighestIsLength(i.log);
    if op.SetStatus? {
      FindsByNumber(i.log, i.current);
    }
  }

  function AfterAll(db: Incidents, run: seq<(Uuid, Op)>): Incidents
    decreases |run|
  {
    if run == [] then db else AfterAll(Next(db, run[0].0, run[0].1), run[1..])
  }

  /** Creations use fresh identifiers. */
  ghost predicate Fresh(db: Incidents, run: seq<(Uuid, Op)>)
    decreases |run|
  {
    run != [] ==> (run[0].1.Create? ==> run[0].0 !in db) && Fresh(Next(db, run[0].0, run[0].1), run[1..])
  }

  lemma NextInv(db: Incidents, id: Uuid, op: Op)
    requires Inv(db) && (op.Create? ==> id !in db)
    ensures Inv(Next(db, id, op))
    ensures forall x :: x in db ==> x in Next(db, id, op) && db[x].log <= Next(db, id, op)[x].log
  {
    if Refusal(db, id, op) == None && !op.Create? {
      OpKeeps(db[id], op);
    }
  }

  /** In every run every incident keeps a contiguous log whose last entry is the row,
      past revisions never change, and no two incidents share a number. */
  lemma {:induction false} RunInv(db: Incidents, run: seq<(Uuid, Op)>)
    requires Inv(db) && Fresh(db, run)
    ensures Inv(AfterAll(db, run))
    ensures forall x :: x in db ==> x in AfterAll(db, run) && db[x].log <= AfterAll(db, run)[x].log
    decreases |run|
  {
    if run != [] {
      NextInv(db, run[0].0, run[0].1);
      RunInv(Next(db, run[0].0, run[0].1), run[1..]);
    }
  }

  // ----- What is submitted is kept -----

  /** What a save leaves on the row: the submitted content, with the row's own number and
      label where the save gives none. */
  predicate IsSaved(before: Snapshot, content: Snapshot, after: Snapshot) {
    && after.body == content.body
    && (content.number.Some? ==> after.number == content.number) && (content.number.None? ==> after.number == before.number)
    && (content.name.Some? ==> after.name == content.name) && (content.name.None? ==> after.name == before.name)
  }

  /** An accepted save of an officer or a worker is on the row and in the log, and stays in
      the log through any further run. */
  lemma SavedContentIsKept(db: Incidents, id: Uuid, op: Op, run: seq<(Uuid, Op)>)
    requires Inv(db) && (op.Save? || op.Apply?) && Refusal(db, id, op) == None && Fresh(Next(db, id, op), run)
    ensures var after, n := Next(db, id, op), |db[id].log|;
            && IsSaved(db[id].row, op.content, after[id].row) && after[id].current == n + 1 && after[id].status == db[id].status
            && id in AfterAll(after, run)
            && |AfterAll(after, run)[id].log| > n && AfterAll(after, run)[id].log[n].snapshot == after[id].row
  {
    NextInv(db, id, op);
    OpKeeps(db[id], op);
    RunInv(Next(db, id, op), run);
  }

  /** A new incident is accepted exactly with a number that no other incident has, is in
      progress, and holds what was submitted as its first revision. */
  lemma CreatedContentIsKept(db: Incidents, id: Uuid, content: Snapshot)
    requires Inv(db) && id !in db
    ensures id in Next(db, id, Create(content)) <==>
              (content.number.Some? ==> forall other :: other in db ==> db[other].row.number != content.number)
    ensures id in Next(db, id, Create(content)) ==>
              Next(db, id, Create(content)) == db[id := Incident(InProgress, 1, content, [Revision(1, content, Saved)])]
  {
  }

  /** A save is accepted exactly on the current revision of a known incident and with a
      number that no other incident has. */
  lemma SaveAcceptedIff(db: Incidents, id: Uuid, content: Snapshot, base: int)
    requires Inv(db)
    ensures Refusal(db, id, Save(content, base)) == None <==>
              && id in db && base == |db[id].log|
              && (var number := if content.number.Some? then content.number else db[id].row.number;
                  number.Some? ==> forall other :: other in db && other != id ==> db[other].row.number != number)
  {
  }

  /** A restore of a known incident is invalid below one, finds nothing past the log, and is
      accepted otherwise unless another incident has the snapshot's number by now. */
  lemma RestoreAcceptedIff(db: Incidents, id: Uuid, source: int)
    requires Inv(db) && id in db
    ensures Refusal(db, id, Restore(source)) == Some(InvalidRequest) <==> source < 1
    ensures Refusal(db, id, Restore(source)) == Some(NotFound) <==> source > |db[id].log|
    ensures Refusal(db, id, Restore(source)) == None <==>
              && 1 <= source <= |db[id].log|
              && (db[id].log[source - 1].snapshot.number.Some? ==>
                    forall other :: other in db && other != id ==> db[other].row.number != db[id].log[source - 1].snapshot.number)
  {
    FindsByNumber(db[id].log, source);
  }

  /** An accepted restore puts exactly the named snapshot on the row; an accepted status
      change sets the status and keeps the row. */
  lemma RestoredOrSet(db: Incidents, id: Uuid, op: Op)
    requires Inv(db) && (op.Restore? || op.SetStatus?) && Refusal(db, id, op) == None
    ensures var after := Next(db, id, op)[id];
            && after.log[..|db[id].log|] == db[id].log && |after.log| == |db[id].log| + 1
            && (op.Restore? ==> 1 <= op.source <= |db[id].log| && after.row == db[id].log[op.source - 1].snapshot
                                && after.status == db[id].status)
            && (op.SetStatus? ==> after.row == db[id].row && after.status == op.status != db[id].status)
  {
    FindsByNumber(db[id].log, if op.Restore? then op.source else db[id].current);
    assert Next(db, id, op)[id] == AfterOp(db[id], op);
  }

  // ----- Identity -----

  ghost predicate NumberedFrom(i: Incident, from: nat) {
    i.row.number.Some? && forall k :: from <= k < |i.log| ==> i.log[k].snapshot.number.Some?
  }

  lemma NextKeepsTheNumber(db: Incidents, x: Uuid, op: Op, id: Uuid, from: nat)
    requires Inv(db) && id in db && NumberedFrom(db[id], from)
    requires x == id ==> !op.Restore?
    requires op.Create? ==> x !in db
    ensures id in Next(db, x, op) && NumberedFrom(Next(db, x, op)[id], from)
  {
    if x == id && Refusal(db, id, op) == None {
      OpKeeps(db[id], op);
    }
  }

  /** As long as nobody restores, a number once assigned stays on the row and in every
      later revision, whatever saves and analysis results omit. */
  lemma {:induction false} NumberIsNeverCleared(db: Incidents, run: seq<(Uuid, Op)>, id: Uuid, from: nat)
    requires Inv(db) && Fresh(db, run) && id in db && NumberedFrom(db[id], from)
    requires forall k :: 0 <= k < |run| && run[k].0 == id ==> !run[k].1.Restore?
    ensures id in AfterAll(db, run) && NumberedFrom(AfterAll(db, run)[id], from)
    decreases |run|
  {
    if run != [] {
      var (x, op) := run[0];
      NextInv(db, x, op);
      NextKeepsTheNumber(db, x, op, id, from);
      NumberIsNeverCleared(Next(db, x, op), run[1..], id, from);
    }
  }

  /** A restore does clear it exactly when the restored revision had none: identity is
      not carried forward there. */
  lemma RestoreClearsTheNumberIff(db: Incidents, id: Uuid, source: int)
    requires Inv(db) && id in db && db[id].row.number.Some?
    ensures Next(db, id, Restore(source))[id].row.number == None <==>
            1 <= source <= |db[id].log| && db[id].log[source - 1].snapshot.number == None
  {
    FindsByNumber(db[id].log, source);
    NextInv(db, id, Restore(source));
  }

  /** For instance when an incident is numbered by its second revision and its first
      revision is then restored. */
  lemma RestoreCanClearTheNumber(id: Uuid, content: Snapshot, number: string)
    requires content.number == None
    ensures var numbered := content.(number := Some(number));
            var run := [(id, Create(content)), (id, Save(numbered, 1)), (id, Restore(1))];
            && Fresh(map[], run)
            && id in AfterAll(map[], run[..2]) && AfterAll(map[], run[..2])[id].row.number == Some(number)
            && id in AfterAll(map[], run) && AfterAll(map[], run)[id].row.number == None
  {
    var numbered := content.(number := Some(number));
    var run: seq<(Uuid, Op)> := [(id, Create(content)), (id, Save(numbered, 1)), (id, Restore(1))];
    var rest, last := run[1..], run[2..];
    assert rest[1..] == last && last[1..] == run[3..];
    var created := map[id := Incident(InProgress, 1, content, [Revision(1, content, Saved)])];
    assert Next(map[], id, Create(content)) == created;
    assert CarryForward(content, numbered) == numbered;
    assert !Taken(created, id, numbered.number);
    assert Proposed(created[id], Save(numbered, 1)) == Some(numbered);
    assert Refusal(created, id, Save(numbered, 1)) == None;
    var twice := AfterOp(created[id], Save(numbered, 1));
    assert twice.log == [Revision(1, content, Saved), Revision(2, numbered, Saved)];
    assert twice == Incident(InProgress, 2, numbered, twice.log);
    var saved := Next(created, id, Save(numbered, 1));
    assert saved == map[id := Incident(InProgress, 2, numbered, [Revision(1, content, Saved), Revision(2, numbered, Saved)])];
    assert AfterAll(map[], run) == AfterAll(created, rest) == AfterAll(saved, last) == Next(saved, id, Restore(1));
    assert Fresh(saved, last) && Fresh(created, rest);
    var two, one := run[..2], run[1..2];
    assert two[1..] == one && one[1..] == run[2..2];
    assert AfterAll(map[], two) == AfterAll(created, one) == saved;
    NextInv(map[], id, Create(content));
    NextInv(created, id, Save(numbered, 1));
    RestoreClearsTheNumberIff(saved, id, 1);
  }

  // ----- Idempotent requests -----

  /** A request, or a save by a worker inside its own job transaction. */
  datatype Event = Asked(q: Request) | Worker(id: Uuid, content: Snapshot, base: int)

  function AfterEvent(s: State, e: Event): State {
    match e
    case Asked(q) => Committed(s, q)
    case Worker(id, content, base) => s.(db := Next(s.db, id, Apply(content, base)))
  }

  function AfterEvents(s: State, run: seq<Event>): State
    decreases |run|
  {
    if run == [] then s else AfterEvents(AfterEvent(s, run[0]), run[1..])
  }

  predicate WithinADay(e: Event, key: I.Key, executed: Instant) {
    e.Asked? ==> I.WithinADay(e.q.key, e.q.now, key, executed)
  }

  lemma {:induction false} ClaimStands(s: State, run: seq<Event>, key: I.Key, c: Canonical, r: Reference, executed: Instant)
    requires I.ValidKey(key.key) && key in s.claims && s.claims[key] == I.Stored(c, r, executed)
    requires forall i :: 0 <= i < |run| ==> WithinADay(run[i], key, executed)
    ensures key in AfterEvents(s, run).claims && AfterEvents(s, run).claims[key] == s.claims[key]
    decreases |run|
  {
    if run != [] {
      assert WithinADay(run[0], key, executed);
      ClaimStands(AfterEvent(s, run[0]), run[1..], key, c, r, executed);
    }
  }

  /** Two requests ask for the same: the same new content, or the same operation on one
      incident.  New incidents have no identifier yet. */
  predicate SameAsk(a: Request, b: Request) {
    if a.op.Create? && b.op.Create? then a.op.content == b.op.content
    else !a.op.Create? && !b.op.Create? && a.id == b.id && a.op == b.op
  }

  /** With an unused key a request is carried out exactly when the actor may see the
      incident, or creates one, and the incident accepts it. */
  lemma FirstUseExecutesIff(s: State, q: Request)
    requires I.ValidKey(q.key.key) && q.key !in s.claims && !q.op.Apply?
    ensures Answer(s, q).Done? <==> (q.op.Create? || q.visible) && Refusal(s.db, q.id, q.op) == None && !Malformed(q.op)
    ensures Answer(s, q).Done? ==> Committed(s, q).db == Next(s.db, q.id, q.op) && Answer(s, q).r.id == q.id
    ensures !Answer(s, q).Done? ==> Committed(s, q) == s
  {
  }

  /** Once a create, save, restore or status request was carried out, repeating it for a
      day, whatever officers and workers do, answers with the same incident and revision and
      creates neither; another request on the key is refused. */
  lemma RetryCreatesNothing(s: State, first: Request, run: seq<Event>, again: Request)
    requires Answer(s, first).Done?
    requires again.key == first.key && again.now < first.now + I.LIFETIME && !Malformed(again.op)
    requires forall i :: 0 <= i < |run| ==> WithinADay(run[i], first.key, first.now)
    ensures var t := AfterEvents(Committed(s, first), run);
            && Committed(t, again) == t
            && Answer(t, again) == (if SameAsk(again, first) then Replayed(Answer(s, first).r)
                                    else Refused(I.Conflict))
  {
    ClaimStands(Committed(s, first), run, first.key, CanonicalOf(first), Answer(s, first).r, first.now);
  }
}
