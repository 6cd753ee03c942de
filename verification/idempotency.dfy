/** Idempotency records: one claim per actor, action and key, good for a day.

    A claim, the guarded work and the completion share one transaction, so a
    guarded request either commits all three or leaves no trace. */
module Idempotency {
  import opened Base

  const LIFETIME: int := 24 * HOUR

  datatype Key = Key(actor: Uuid, action: string, key: string)

  datatype Status = InProgress | Completed

  datatype Record<D, R> = Record(
    digest: D, status: Status, reference: Option<R>, createdAt: Instant, expiresAt: Instant)

  type Records<D, R> = map<Key, Record<D, R>>

  datatype Claim<+R> = Granted | Replayed(reference: R)

  datatype Refusal = InvalidKey | Conflict | RequestInProgress

  predicate KeyChar(c: char) {
    'A' <= c <= 'Z' || 'a' <= c <= 'z' || '0' <= c <= '9' || c in "._:-"
  }

  predicate ValidKey(key: string) {
    8 <= |key| <= 128 && forall i :: 0 <= i < |key| ==> KeyChar(key[i])
  }

  /** A use of the key `k` that comes within a day of an execution of `key`. */
  predicate WithinADay(k: Key, now: Instant, key: Key, executed: Instant) {
    k == key ==> now < executed + LIFETIME
  }

  /** The record that an execution of a request leaves. */
  function Stored<D, R>(digest: D, reference: R, now: Instant): Record<D, R> {
    Record(digest, Completed, Some(reference), now, now + LIFETIME)
  }

  function Opened<D, R>(digest: D, now: Instant): Record<D, R> {
    Record(digest, InProgress, None, now, now + LIFETIME)
  }

  /** The answer to a claim. */
  function ClaimReply<D(==), R>(db: Records<D, R>, k: Key, digest: D, now: Instant): Result<Claim<R>, Refusal> {
    if !ValidKey(k.key) then Err(InvalidKey)
    else if k !in db || db[k].expiresAt <= now then Ok(Granted)
    else if db[k].digest != digest then Err(Conflict)
    else if db[k].status == Completed && db[k].reference.Some? then Ok(Replayed(db[k].reference.value))
    else Err(RequestInProgress)
  }

  /** The records after a claim. */
  function AfterClaim<D(==), R>(db: Records<D, R>, k: Key, digest: D, now: Instant): Records<D, R> {
    if ClaimReply(db, k, digest, now) == Ok(Granted) then db[k := Opened(digest, now)] else db
  }

  function AfterComplete<D, R>(db: Records<D, R>, k: Key, reference: R): Records<D, R>
    requires k in db
  {
    db[k := db[k].(status := Completed, reference := Some(reference))]
  }

  class Store<D(==), R> {
    var records: Records<D, R>

    constructor ()
      ensures records == map[]
    {
      records := map[];
    }

    /** Insert unless the key exists; otherwise decide on the locked record. */
    method ClaimKey(k: Key, digest: D, now: Instant) returns (reply: Result<Claim<R>, Refusal>)
      modifies this
      ensures reply == ClaimReply(old(records), k, digest, now)
      ensures records == AfterClaim(old(records), k, digest, now)
    {
      if !ValidKey(k.key) {
        return Err(InvalidKey);
      }
      if k !in records {
        records := records[k := Record(digest, InProgress, None, now, now + LIFETIME)];
        return Ok(Granted);
      }
      var record := records[k];
      if record.expiresAt <= now {
        record := record.(digest := digest, status := InProgress, reference := None);
        record := record.(createdAt := now, expiresAt := now + LIFETIME);
        records := records[k := record];
        return Ok(Granted);
      }
      if record.digest != digest {
        return Err(Conflict);
      }
      match record
      case Record(_, Completed, Some(reference), _, _) => return Ok(Replayed(reference));
      case _ => return Err(RequestInProgress);
    }

    /** Store the response reference of the claim that was granted. */
    method Complete(k: Key, reference: R) returns (ok: bool)
      modifies this
      ensures ok == (k in old(records) && old(records)[k].status == InProgress)
      ensures records == if ok then AfterComplete(old(records), k, reference) else old(records)
    {
      if k !in records || records[k].status != InProgress {
        return false;
      }
      records := records[k := records[k].(status := Completed, reference := Some(reference))];
      return true;
    }
  }

  // ----- Guarded transactions and their runs -----

  /** One request: `outcome` is what its work would return if it ran, or nothing
      when the work raises and the transaction rolls back. */
  datatype Request<D, R> = Request(k: Key, digest: D, now: Instant, outcome: Option<R>)

  datatype Answer<R> = Executed(reference: R) | Replay(reference: R) | Refused(why: Refusal) | RolledBack

  function AnswerTo<D(==), R>(db: Records<D, R>, r: Request<D, R>): Answer<R> {
    match ClaimReply(db, r.k, r.digest, r.now)
    case Err(why) => Refused(why)
    case Ok(Replayed(reference)) => Replay(reference)
    case Ok(Granted) => if r.outcome.Some? then Executed(r.outcome.value) else RolledBack
  }

  /** Committed records after one request. */
  function Commit<D(==), R>(db: Records<D, R>, r: Request<D, R>): Records<D, R> {
    if AnswerTo(db, r).Executed?
    then AfterComplete(AfterClaim(db, r.k, r.digest, r.now), r.k, r.outcome.value)
    else db
  }

  function After<D(==), R>(db: Records<D, R>, run: seq<Request<D, R>>): Records<D, R> {
    if run == [] then db else Commit(After(db, run[..|run| - 1]), run[|run| - 1])
  }

  /** The answer to the `i`-th request of a run. */
  function AnswerAt<D(==), R>(db: Records<D, R>, run: seq<Request<D, R>>, i: nat): Answer<R>
    requires i < |run|
  {
    AnswerTo(After(db, run[..i]), run[i])
  }

  /** Records written by committed transactions: complete, with a day to live. */
  ghost predicate Settled<D(!new), R(!new)>(db: Records<D, R>) {
    forall k :: k in db ==>
      db[k].status == Completed && db[k].reference.Some? && db[k].expiresAt == db[k].createdAt + LIFETIME
  }

  lemma {:induction false} RunsStaySettled<D(!new), R(!new)>(db: Records<D, R>, run: seq<Request<D, R>>)
    requires Settled(db)
    ensures Settled(After(db, run))
  {
    if run != [] {
      RunsStaySettled(db, run[..|run| - 1]);
    }
  }

  /** No request ever sees another one in progress. */
  lemma NeverInProgress<D(!new), R(!new)>(db: Records<D, R>, run: seq<Request<D, R>>, i: nat)
    requires Settled(db) && i < |run|
    ensures AnswerAt(db, run, i) != Refused(RequestInProgress)
  {
    RunsStaySettled(db, run[..i]);
  }

  /** The record of the last execution of a key stands until the key is executed again. */
  lemma {:induction false} RecordStands<D(!new), R(!new)>(db: Records<D, R>, run: seq<Request<D, R>>, i: nat, j: nat)
    requires i < j <= |run| && AnswerAt(db, run, i).Executed?
    requires forall m :: i < m < j && AnswerAt(db, run, m).Executed? ==> run[m].k != run[i].k
    ensures var r, now := run[i], After(db, run[..j]);
            && r.k in now && r.outcome.Some?
            && now[r.k] == Record(r.digest, Completed, r.outcome, r.now, r.now + LIFETIME)
    decreases j
  {
    assert run[..j][..j - 1] == run[..j - 1];
    if i < j - 1 {
      RecordStands(db, run, i, j - 1);
      assert AnswerAt(db, run, j - 1).Executed? ==> run[j - 1].k != run[i].k;
    }
  }

  /** Between two executions of one key at least a day passes by claim time,
      whatever the clock readings in between. */
  lemma {:induction false} ExecutionsAreADayApart<D(!new), R(!new)>(db: Records<D, R>, run: seq<Request<D, R>>, i: nat, j: nat)
    requires i < j < |run| && run[i].k == run[j].k
    requires AnswerAt(db, run, i).Executed? && AnswerAt(db, run, j).Executed?
    ensures run[j].now >= run[i].now + LIFETIME
    decreases j - i
  {
    if m :| i < m < j && AnswerAt(db, run, m).Executed? && run[m].k == run[i].k {
      ExecutionsAreADayApart(db, run, i, m);
      ExecutionsAreADayApart(db, run, m, j);
    } else {
      RecordStands(db, run, i, j);
    }
  }

  /** Within the day, under a clock that does not go backwards past the retry, a
      retry of the same request gets the stored reference, any other request on the
      key is refused, and neither executes. */
  lemma RetryReplays<D(!new), R(!new)>(db: Records<D, R>, run: seq<Request<D, R>>, i: nat, j: nat)
    requires i < j < |run| && run[i].k == run[j].k && AnswerAt(db, run, i).Executed?
    requires run[j].now < run[i].now + LIFETIME
    requires forall m :: i < m < j ==> run[m].now <= run[j].now
    ensures AnswerAt(db, run, j) ==
            if run[j].digest == run[i].digest then Replay(AnswerAt(db, run, i).reference) else Refused(Conflict)
  {
    forall m | i < m < j && AnswerAt(db, run, m).Executed?
      ensures run[m].k != run[i].k
    {
      if run[m].k == run[i].k {
        ExecutionsAreADayApart(db, run, i, m);
      }
    }
    RecordStands(db, run, i, j);
  }

  /** After an execution its key is free for anything again exactly 24 hours later. */
  lemma FreeAgainIff<D(!new), R(!new)>(db: Records<D, R>, run: seq<Request<D, R>>, i: nat, j: nat)
    requires i < j < |run| && run[i].k == run[j].k && AnswerAt(db, run, i).Executed?
    requires forall m :: i < m < j && AnswerAt(db, run, m).Executed? ==> run[m].k != run[i].k
    ensures AnswerAt(db, run, j) == (if run[j].outcome.Some? then Executed(run[j].outcome.value) else RolledBack)
            <==> run[j].now >= run[i].now + 86_400_000_000
  {
    RecordStands(db, run, i, j);
  }

  /** A key nobody used is free for anything. */
  lemma UnusedIsFree<D(!new), R(!new)>(db: Records<D, R>, q: Request<D, R>)
    requires ValidKey(q.k.key) && q.k !in db
    ensures AnswerTo(db, q) == if q.outcome.Some? then Executed(q.outcome.value) else RolledBack
  {
  }

  /** A key has 8 to 128 letters, digits, dots, underscores, colons and hyphens. */
  lemma KeyRules(key: string)
    ensures ValidKey(key) <==> |key| >= 8 && |key| <= 128 && forall i :: 0 <= i < |key| ==> IsKeyChar(key[i])
  {
    assert forall c :: KeyChar(c) <==> IsKeyChar(c);
  }

  predicate IsKeyChar(c: char) {
    65 <= c as int <= 90 || 97 <= c as int <= 122 || 48 <= c as int <= 57 || c in {'.', '_', ':', '-'}
  }
}
