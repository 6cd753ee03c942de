/** Operational paperwork: records with immutable revisions.  A save checks its base
    revision before it claims its idempotency key, a create only claims. */
module Paperwork {
  import opened Base
  import I = Idempotency

  datatype Kind =
    | CountSheet | AssignmentRoster | UniformInspection | MetalDetectorTest
    | PerimeterCheck | RandomSearchLog | DetectorSignOut

  /** What a revision stores: the kind and the date, shift and payload. */
  datatype Snapshot = Snapshot(kind: Kind, body: string)

  datatype Revision = Revision(number: nat, snapshot: Snapshot, restored: bool)

  datatype Record = Record(creator: Uuid, live: Snapshot, current: nat, log: seq<Revision>)

  datatype Actor = Actor(staff: Uuid, admin: bool)

  datatype Canonical =
    | NewRecord(content: Snapshot)
    | SaveOn(id: Uuid, content: Snapshot, base: int)
    | RestoreOn(id: Uuid, source: int)

  datatype Reference = Reference(id: Uuid, number: nat)

  datatype Error = InvalidRequest | NotFound | RevisionNotFound | Conflict(current: nat) | Refused(why: I.Refusal)

  datatype Reply = Failed(error: Error) | Replayed(r: Reference) | Done(r: Reference)

  type Claims = I.Records<Canonical, Reference>

  datatype State = State(db: map<Uuid, Record>, claims: Claims)

  datatype Request =
    | Create(key: I.Key, now: Instant, actor: Actor, id: Uuid, content: Snapshot)
    | Save(key: I.Key, now: Instant, actor: Actor, id: Uuid, content: Snapshot, base: int)
    | Restore(key: I.Key, now: Instant, actor: Actor, id: Uuid, source: int, expected: Option<Kind>)

  function Find(log: seq<Revision>, number: int): Option<Revision> {
    if log == [] then None
    else if log[|log| - 1].number == number then Some(log[|log| - 1])
    else Find(log[..|log| - 1], number)
  }

  predicate CanEdit(actor: Actor, r: Record) {
    actor.admin || r.creator == actor.staff
  }

  function CanonicalOf(q: Request): Canonical {
    match q
    case Create(_, _, _, _, content) => NewRecord(content)
    case Save(_, _, _, id, content, base) => SaveOn(id, content, base)
    case Restore(_, _, _, id, source, _) => RestoreOn(id, source)
  }

  /** What is checked before the key is claimed. */
  function Precheck(s: State, q: Request): Option<Error> {
    match q
    case Create(_, _, _, _, _) => None
    case Save(_, _, actor, id, content, base) =>
      if id !in s.db || s.db[id].live.kind != content.kind || !CanEdit(actor, s.db[id]) then Some(NotFound)
      else if s.db[id].current != base then Some(Conflict(s.db[id].current))
      else None
    case Restore(_, _, actor, id, source, expected) =>
      if source < 1 then Some(InvalidRequest)
      else if id !in s.db || (expected.Some? && s.db[id].live.kind != expected.value) || !CanEdit(actor, s.db[id])
      then Some(NotFound)
      else if Find(s.db[id].log, source) == None then Some(RevisionNotFound)
      else None
  }

  /** The record an accepted request leaves. */
  function Written(s: State, q: Request): Record
    requires Precheck(s, q) == None
  {
    match q
    case Create(_, _, actor, _, content) => Record(actor.staff, content, 1, [Revision(1, content, false)])
    case Save(_, _, _, id, content, _) => Appended(s.db[id], content, false)
    case Restore(_, _, _, id, source, _) => Appended(s.db[id], Find(s.db[id].log, source).value.snapshot, true)
  }

  function Appended(r: Record, content: Snapshot, restored: bool): Record {
    r.(live := content, current := r.current + 1, log := r.log + [Revision(r.current + 1, content, restored)])
  }

  function Answer(s: State, q: Request): Reply {
    if Precheck(s, q).Some? then Failed(Precheck(s, q).value)
    else
      match I.ClaimReply(s.claims, q.key, CanonicalOf(q), q.now)
      case Err(why) => Failed(Refused(why))
      case Ok(Replayed(r)) => Replayed(r)
      case Ok(Granted) =>
        if q.Restore? && q.expected.Some? && Written(s, q).live.kind != q.expected.value then Failed(NotFound)
        else Done(Reference(q.id, Written(s, q).current))
  }

  function Committed(s: State, q: Request): State {
    if Answer(s, q).Done? then
      State(s.db[q.id := Written(s, q)],
            I.AfterComplete(I.AfterClaim(s.claims, q.key, CanonicalOf(q), q.now), q.key, Answer(s, q).r))
    else s
  }

  class PaperworkService {
    var records: map<Uuid, Record>
    var claims: Claims

    ghost function View(): State
      reads this
    {
      State(records, claims)
    }

    constructor ()
      ensures View() == State(map[], map[])
    {
      records, claims := map[], map[];
    }

    /** Create a record (`target` is none) or append a revision to an existing one. */
    method SaveRecord(key: I.Key, now: Instant, actor: Actor, target: Option<Uuid>, fresh_: Uuid, content: Snapshot, base: Option<int>)
      returns (reply: Reply)
      modifies this
      ensures target.Some? != base.Some? ==> reply == Failed(InvalidRequest) && View() == old(View())
      ensures target.Some? == base.Some? ==>
                var q := if target.Some? then Save(key, now, actor, target.value, content, base.value)
                         else Create(key, now, actor, fresh_, content);
                reply == Answer(old(View()), q) && View() == Committed(old(View()), q)
    {
      var record: Option<Record> := None;
      if target == None {
        if base.Some? {
          return Failed(InvalidRequest);
        }
      } else {
        if base == None {
          return Failed(InvalidRequest);
        }
        if target.value !in records || records[target.value].live.kind != content.kind || !CanEdit(actor, records[target.value]) {
          return Failed(NotFound);
        }
        record := Some(records[target.value]);
        if record.value.current != base.value {
          return Failed(Conflict(record.value.current));
        }
      }
      var canonical := if target == None then NewRecord(content) else SaveOn(target.value, content, base.value);
      match I.ClaimReply(claims, key, canonical, now) {
        case Err(why) => return Failed(Refused(why));
        case Ok(Replayed(r)) => return Replayed(r);
        case Ok(Granted) =>
      }
      var id, row;
      if record == None {
        id := fresh_;
        row := Record(actor.staff, content, 1, []);
      } else {
        id := target.value;
        row := record.value.(current := record.value.current + 1, live := content);
      }
      row := row.(log := row.log + [Revision(row.current, content, false)]);
      assert record == None ==> row.log == [Revision(1, content, false)];
      records := records[id := row];
      claims := I.AfterClaim(claims, key, canonical, now);
      claims := I.AfterComplete(claims, key, Reference(id, row.current));
      return Done(Reference(id, row.current));
    }

    method RestoreRecord(key: I.Key, now: Instant, actor: Actor, id: Uuid, source: int, expected: Option<Kind>)
      returns (reply: Reply)
      modifies this
      ensures var q := Restore(key, now, actor, id, source, expected);
              reply == Answer(old(View()), q) && View() == Committed(old(View()), q)
    {
      if source < 1 {
        return Failed(InvalidRequest);
      }
      if id !in records || (expected.Some? && records[id].live.kind != expected.value) || !CanEdit(actor, records[id]) {
        return Failed(NotFound);
      }
      var record := records[id];
      var found := Find(record.log, source);
      if found == None {
        return Failed(RevisionNotFound);
      }
      match I.ClaimReply(claims, key, RestoreOn(id, source), now) {
        case Err(why) => return Failed(Refused(why));
        case Ok(Replayed(r)) => return Replayed(r);
        case Ok(Granted) =>
      }
      var snapshot := found.value.snapshot;
      if expected.Some? && snapshot.kind != expected.value {
        return Failed(NotFound);
      }
      var number := record.current + 1;
      record := record.(live := snapshot, current := number);
      record := record.(log := record.log + [Revision(number, snapshot, true)]);
      records := records[id := record];
      claims := I.AfterClaim(claims, key, RestoreOn(id, source), now);
      claims := I.AfterComplete(claims, key, Reference(id, number));
      return Done(Reference(id, number));
    }
  }

  // ----- Invariants over every run -----

  /** Numbers are 1..n, the live record is its newest snapshot, every revision has the
      record's kind. */
  ghost predicate RecordOk(r: Record) {
    && r.log != [] && r.current == |r.log| && r.live == r.log[|r.log| - 1].snapshot
    && forall i :: 0 <= i < |r.log| ==> r.log[i].number == i + 1 && r.log[i].snapshot.kind == r.live.kind
  }

  /** A completed save was overtaken by its own revision. */
  ghost predicate ClaimOk(s: State, key: I.Key) {
    key in s.claims ==>
      var c := s.claims[key];
      && c.status == I.Completed && c.reference.Some?
      && (c.digest.SaveOn? ==> c.digest.id in s.db && s.db[c.digest.id].current > c.digest.base)
  }

  ghost predicate Inv(s: State) {
    && (forall id :: id in s.db ==> RecordOk(s.db[id]))
    && (forall key :: ClaimOk(s, key))
  }

  ghost predicate Fresh(s: State, run: seq<Request>)
    decreases |run|
  {
    run != [] ==> (run[0].Create? ==> run[0].id !in s.db) && Fresh(Committed(s, run[0]), run[1..])
  }

  function AfterAll(s: State, run: seq<Request>): State
    decreases |run|
  {
    if run == [] then s else AfterAll(Committed(s, run[0]), run[1..])
  }

  lemma {:induction false} FindsByNumber(log: seq<Revision>, number: int)
    requires forall i :: 0 <= i < |log| ==> log[i].number == i + 1
    ensures Find(log, number) == if 1 <= number <= |log| then Some(log[number - 1]) else None
  {
    if log != [] {
      FindsByNumber(log[..|log| - 1], number);
    }
  }

  /** A record as it was before and after a request. */
  ghost predicate Continues(r: Record, later: Record) {
    r.log <= later.log && later.live.kind == r.live.kind && later.creator == r.creator && r.current <= later.current
  }

  lemma StepInv(s: State, q: Request)
    requires Inv(s) && (q.Create? ==> q.id !in s.db)
    ensures Inv(Committed(s, q))
    ensures forall id :: id in s.db ==> id in Committed(s, q).db && Continues(s.db[id], Committed(s, q).db[id])
  {
    var t := Committed(s, q);
    if Answer(s, q).Done? {
      WrittenRecord(s, q);
      forall key ensures ClaimOk(t, key) {
        assert ClaimOk(s, key);
      }
    }
  }

  lemma WrittenRecord(s: State, q: Request)
    requires Inv(s) && (q.Create? ==> q.id !in s.db) && Answer(s, q).Done?
    ensures RecordOk(Written(s, q))
    ensures q.id in s.db ==> Continues(s.db[q.id], Written(s, q))
    ensures !q.Create? ==> q.id in s.db && Written(s, q).current == s.db[q.id].current + 1
  {
    if q.Restore? {
      FindsByNumber(s.db[q.id].log, q.source);
    }
  }

  /** In every run logs stay contiguous and append-only, the live record equals its
      newest snapshot, and no request, restores included, changes a record's kind. */
  lemma {:induction false} RunInv(s: State, run: seq<Request>)
    requires Inv(s) && Fresh(s, run)
    ensures Inv(AfterAll(s, run))
    ensures forall id :: id in s.db ==> id in AfterAll(s, run).db && Continues(s.db[id], AfterAll(s, run).db[id])
    decreases |run|
  {
    if run != [] {
      StepInv(s, run[0]);
      RunInv(Committed(s, run[0]), run[1..]);
    }
  }

  // ----- What is submitted is kept -----

  /** An accepted save is the live record and the newest revision, an accepted restore
      brings back exactly the named snapshot, and both stay in the log through any run. */
  lemma SubmittedContentIsKept(s: State, q: Request, run: seq<Request>)
    requires Inv(s) && (q.Save? || q.Restore?) && Answer(s, q).Done? && Fresh(Committed(s, q), run)
    ensures q.id in s.db
    ensures var n := |s.db[q.id].log|;
            var live := Committed(s, q).db[q.id].live;
            && (q.Save? ==> live == q.content)
            && (q.Restore? ==> 1 <= q.source <= n && live == s.db[q.id].log[q.source - 1].snapshot)
            && Answer(s, q).r == Reference(q.id, n + 1)
            && q.id in AfterAll(Committed(s, q), run).db
            && var later := AfterAll(Committed(s, q), run).db[q.id].log;
            && |later| > n && later[n] == Revision(n + 1, live, q.Restore?)
  {
    AppendedContent(s, q);
    StepInv(s, q);
    RunInv(Committed(s, q), run);
    assert Continues(Committed(s, q).db[q.id], AfterAll(Committed(s, q), run).db[q.id]);
  }

  lemma AppendedContent(s: State, q: Request)
    requires Inv(s) && (q.Save? || q.Restore?) && Answer(s, q).Done?
    ensures q.id in s.db && q.id in Committed(s, q).db
    ensures var was, now := s.db[q.id], Committed(s, q).db[q.id];
            && (q.Save? ==> now.live == q.content)
            && (q.Restore? ==> 1 <= q.source <= |was.log| && now.live == was.log[q.source - 1].snapshot)
            && now.log == was.log + [Revision(|was.log| + 1, now.live, q.Restore?)]
            && Answer(s, q).r == Reference(q.id, |was.log| + 1)
  {
    if q.Restore? {
      FindsByNumber(s.db[q.id].log, q.source);
    }
  }

  /** A new record holds what was submitted and belongs to its creator. */
  lemma CreatedRecord(s: State, q: Request)
    requires q.Create? && Answer(s, q).Done?
    ensures Committed(s, q).db[q.id] == Record(q.actor.staff, q.content, 1, [Revision(1, q.content, false)])
    ensures Answer(s, q).r == Reference(q.id, 1)
  {
  }

  /** With an unused key a save is carried out exactly by the creator or an administrator,
      on the current revision and with the record's own kind. */
  lemma SaveAcceptedIff(s: State, q: Request)
    requires Inv(s) && q.Save? && I.ValidKey(q.key.key) && q.key !in s.claims
    ensures Answer(s, q).Done? <==>
              && q.id in s.db && (q.actor.admin || q.actor.staff == s.db[q.id].creator)
              && q.content.kind == s.db[q.id].live.kind && q.base == |s.db[q.id].log|
    ensures !Answer(s, q).Done? ==> Committed(s, q) == s
  {
  }

  /** And a restore likewise, of exactly the logged revisions and the expected kind, if any. */
  lemma RestoreAcceptedIff(s: State, q: Request)
    requires Inv(s) && q.Restore? && I.ValidKey(q.key.key) && q.key !in s.claims
    ensures Answer(s, q).Done? <==>
              && q.id in s.db && (q.actor.admin || q.actor.staff == s.db[q.id].creator)
              && (q.expected.Some? ==> q.expected.value == s.db[q.id].live.kind) && 1 <= q.source <= |s.db[q.id].log|
    ensures !Answer(s, q).Done? ==> Committed(s, q) == s
  {
    if q.id in s.db {
      FindsByNumber(s.db[q.id].log, q.source);
    }
  }

  /** A save or restore by someone who may not edit the record is answered like one of a
      record that does not exist, whatever else is wrong with it; so is one of another kind. */
  lemma StrangersLearnNothing(s: State, q: Request)
    requires q.Save? || (q.Restore? && q.source >= 1)
    requires q.id in s.db ==>
               || !(q.actor.admin || q.actor.staff == s.db[q.id].creator)
               || (q.Save? && q.content.kind != s.db[q.id].live.kind)
               || (q.Restore? && q.expected.Some? && q.expected.value != s.db[q.id].live.kind)
    ensures Answer(s, q) == Failed(NotFound) && Committed(s, q) == s
  {
  }

  // ----- Retries -----

  predicate WithinADay(q: Request, key: I.Key, executed: Instant) {
    I.WithinADay(q.key, q.now, key, executed)
  }

  lemma {:induction false} ClaimStands(s: State, run: seq<Request>, key: I.Key, c: Canonical, r: Reference, executed: Instant)
    requires I.ValidKey(key.key) && key in s.claims
    requires s.claims[key] == I.Stored(c, r, executed)
    requires forall i :: 0 <= i < |run| ==> WithinADay(run[i], key, executed)
    ensures key in AfterAll(s, run).claims && AfterAll(s, run).claims[key] == s.claims[key]
    decreases |run|
  {
    if run != [] {
      assert WithinADay(run[0], key, executed);
      ClaimStands(Committed(s, run[0]), run[1..], key, c, r, executed);
    }
  }

  /** What two requests ask for is the same: the same new record, the same content on the
      same base of one record, or the same revision of one record. */
  predicate SameAsk(a: Request, b: Request) {
    match (a, b)
    case (Create(_, _, _, _, c), Create(_, _, _, _, d)) => c == d
    case (Save(_, _, _, id, c, base), Save(_, _, _, i, d, e)) => id == i && c == d && base == e
    case (Restore(_, _, _, id, source, _), Restore(_, _, _, i, n, _)) => id == i && source == n
    case _ => false
  }

  lemma DigestsAgreeIff(a: Request, b: Request)
    ensures CanonicalOf(a) == CanonicalOf(b) <==> SameAsk(a, b)
  {
  }

  /** A repeated create or restore appends nothing for a day: it is answered with the
      first reference unless a check before the claim refuses it. */
  lemma RetryAppendsNothing(s: State, first: Request, run: seq<Request>, again: Request)
    requires Answer(s, first).Done? && SameAsk(again, first)
    requires again.key == first.key && WithinADay(again, first.key, first.now)
    requires forall i :: 0 <= i < |run| ==> WithinADay(run[i], first.key, first.now)
    ensures var t := AfterAll(Committed(s, first), run);
            && Committed(t, again) == t
            && Answer(t, again) == if Precheck(t, again).Some? then Failed(Precheck(t, again).value)
                                   else Replayed(Answer(s, first).r)
  {
    DigestsAgreeIff(again, first);
    ClaimStands(Committed(s, first), run, first.key, CanonicalOf(first), Answer(s, first).r, first.now);
    AnsweredFromClaim(AfterAll(Committed(s, first), run), again, Answer(s, first).r, first.now);
  }

  lemma AnsweredFromClaim(t: State, q: Request, r: Reference, executed: Instant)
    requires I.ValidKey(q.key.key) && WithinADay(q, q.key, executed) && q.key in t.claims
    requires t.claims[q.key] == I.Stored(CanonicalOf(q), r, executed)
    ensures Committed(t, q) == t
    ensures Answer(t, q) == if Precheck(t, q).Some? then Failed(Precheck(t, q).value) else Replayed(r)
  {
  }

  /** A save is never answered with a stored reference: in every reachable state the base
      check, which comes first, refuses the repetition of any save that was carried out. */
  lemma SavesAreNeverReplayed(run: seq<Request>, q: Request)
    requires Fresh(State(map[], map[]), run) && q.Save?
    ensures !Answer(AfterAll(State(map[], map[]), run), q).Replayed?
  {
    var s := AfterAll(State(map[], map[]), run);
    RunInv(State(map[], map[]), run);
    assert ClaimOk(s, q.key);
  }

  /** Precisely, after a save the same save by the same actor conflicts forever. */
  lemma RepeatedSaveConflicts(s: State, first: Request, run: seq<Request>, again: Request)
    requires Inv(s) && first.Save? && Answer(s, first).Done? && Fresh(Committed(s, first), run)
    requires again.Save? && again.id == first.id && again.content.kind == first.content.kind && again.base == first.base && again.actor == first.actor
    ensures var t := AfterAll(Committed(s, first), run);
            && first.id in t.db && t.db[first.id].current > first.base
            && Answer(t, again) == Failed(Conflict(t.db[first.id].current)) && Committed(t, again) == t
  {
    StepInv(s, first);
    var u := Committed(s, first);
    assert u.db[first.id] == Appended(s.db[first.id], first.content, false);
    RunInv(u, run);
    assert Continues(u.db[first.id], AfterAll(u, run).db[first.id]);
    OvertakenSave(AfterAll(u, run), again);
  }

  lemma OvertakenSave(t: State, q: Request)
    requires q.Save? && q.id in t.db && t.db[q.id].live.kind == q.content.kind && CanEdit(q.actor, t.db[q.id])
    requires t.db[q.id].current != q.base
    ensures Answer(t, q) == Failed(Conflict(t.db[q.id].current)) && Committed(t, q) == t
  {
  }
}
