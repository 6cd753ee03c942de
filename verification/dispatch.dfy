/** Delivery of outbox rows to the task queue by overlapping dispatchers that may
    crash between creating a task and recording it.

    A task is named after its job, and the queue never accepts a name twice, whatever the
    task is for.  A call that reports a transient error may or may not have created the task. */
module Dispatch {
  import opened Base
  import opened Jobs
  import opened Hexadecimal

  const ATTEMPTS: nat := 3

  datatype Pending = Pending(row: Uuid, job: Uuid)

  datatype Reply = Created | AlreadyExists | Transient | Rejected

  datatype Verdict = Delivered | Retryable | Permanent

  datatype Summary = Summary(dispatched: nat, failed: nat, pending: nat)

  const UNAVAILABLE := "task_service_unavailable"
  const REJECTED := "task_request_rejected"

  function Min(a: int, b: int): int {
    if a < b then a else b
  }

  /** Seconds until a row that failed `attempts` times is available again. */
  function RetryDelay(attempts: nat): int {
    Min(300, Power2(Min(attempts, 8)))
  }

  /** Every retry delay lies in 2..256 seconds, doubles until the eighth failure,
      and never reaches the cap of 300. */
  lemma {:induction false} DelayDoublesTo256(attempts: nat)
    requires attempts >= 1
    ensures 2 <= RetryDelay(attempts) <= 256
    ensures attempts < 8 ==> RetryDelay(attempts + 1) == 2 * RetryDelay(attempts)
    ensures attempts >= 8 ==> RetryDelay(attempts) == 256
  {
    assert Power2(4) == 16;
    assert Power2(8) == 256;
    if attempts < 8 {
      PowersGrow(attempts, 8);
      PowersGrow(attempts + 1, 8);
      PowersGrow(1, attempts);
    }
  }

  lemma {:induction false} PowersGrow(a: nat, b: nat)
    requires a <= b
    ensures Power2(a) <= Power2(b)
  {
    if a < b {
      PowersGrow(a, b - 1);
    }
  }

  function DispatchedRow(row: OutboxRow): OutboxRow {
    if row.state != Jobs.Pending then row
    else row.(state := Dispatched, attempts := row.attempts + 1, lastError := None)
  }

  function FailedRow(row: OutboxRow, code: string, retryable: bool, now: Instant): OutboxRow {
    if row.state != Jobs.Pending then row
    else if retryable then
      row.(attempts := row.attempts + 1, lastError := Some(code),
           availableAt := now + RetryDelay(row.attempts + 1) * SECOND)
    else row.(attempts := row.attempts + 1, lastError := Some(code), state := Undeliverable)
  }

  function MarkedRow(row: OutboxRow, v: Verdict, now: Instant): OutboxRow {
    match v
    case Delivered => DispatchedRow(row)
    case Retryable => FailedRow(row, UNAVAILABLE, true, now)
    case Permanent => FailedRow(row, REJECTED, false, now)
  }

  function Marked(rows: map<Uuid, OutboxRow>, id: Uuid, v: Verdict, now: Instant): map<Uuid, OutboxRow> {
    if id in rows then rows[id := MarkedRow(rows[id], v, now)] else rows
  }

  function Count(s: Summary, v: Verdict): Summary {
    match v
    case Delivered => s.(dispatched := s.dispatched + 1)
    case Retryable => s.(pending := s.pending + 1)
    case Permanent => s.(failed := s.failed + 1)
  }

  /** What a row's calls amount to: the first reply that is not transient decides, and
      three transient replies leave the row to a later run. */
  function VerdictOf(replies: seq<Reply>): Verdict {
    if replies == [] then Retryable
    else if replies[0] == Transient then VerdictOf(replies[1..])
    else ReplyVerdict(replies[0])
  }

  function ReplyVerdict(reply: Reply): Verdict {
    match reply
    case Created => Delivered
    case AlreadyExists => Delivered
    case Rejected => Permanent
    case Transient => Retryable
  }

  // ----- One dispatcher -----

  class Outbox {
    var rows: map<Uuid, OutboxRow>

    constructor (rows: map<Uuid, OutboxRow>)
      ensures this.rows == rows
    {
      this.rows := rows;
    }

    method MarkDispatched(id: Uuid)
      modifies this
      ensures rows == if id in old(rows) then old(rows)[id := DispatchedRow(old(rows)[id])] else old(rows)
    {
      if id !in rows || rows[id].state != Jobs.Pending {
        assert id in rows ==> rows == rows[id := rows[id]];
        return;
      }
      var row := rows[id];
      rows := rows[id := row.(state := Dispatched, attempts := row.attempts + 1, lastError := None)];
    }

    method MarkFailure(id: Uuid, code: string, retryable: bool, now: Instant)
      modifies this
      ensures rows == if id in old(rows) then old(rows)[id := FailedRow(old(rows)[id], code, retryable, now)] else old(rows)
    {
      if id !in rows || rows[id].state != Jobs.Pending {
        assert id in rows ==> rows == rows[id := rows[id]];
        return;
      }
      var row := rows[id].(attempts := rows[id].attempts + 1, lastError := Some(code));
      if retryable {
        var delay := Min(300, Power2(Min(row.attempts, 8)));
        row := row.(availableAt := now + delay * SECOND);
      } else {
        row := row.(state := Undeliverable);
      }
      rows := rows[id := row];
    }

    /** Up to three calls; a transient reply is retried, any other one is final. */
    method CreateWithRetries(replies: seq<Reply>) returns (v: Verdict, calls: nat)
      requires |replies| == ATTEMPTS
      ensures v == VerdictOf(replies)
      ensures 1 <= calls <= 3 && forall i :: 0 <= i < calls - 1 ==> replies[i] == Transient
      ensures replies[calls - 1] == Transient ==> calls == 3
    {
      v, calls := Retryable, 0;
      while calls < ATTEMPTS
        invariant calls <= ATTEMPTS
        invariant forall i :: 0 <= i < calls ==> replies[i] == Transient
        invariant VerdictOf(replies[calls..]) == VerdictOf(replies)
      {
        var reply := replies[calls];
        assert replies[calls..][1..] == replies[calls + 1..];
        calls := calls + 1;
        if reply != Transient {
          return ReplyVerdict(reply), calls;
        }
      }
    }

    /** One pass over the fetched rows; `replies` are the queue's answers per row. */
    method DispatchPending(fetched: seq<Pending>, replies: seq<seq<Reply>>, now: Instant) returns (s: Summary)
      requires |replies| == |fetched| && forall i :: 0 <= i < |replies| ==> |replies[i]| == ATTEMPTS
      modifies this
      ensures s.dispatched + s.failed + s.pending == |fetched|
      ensures (rows, s) == Pass(old(rows), fetched, replies, now)
    {
      s := Summary(0, 0, 0);
      for i := 0 to |fetched|
        invariant s.dispatched + s.failed + s.pending == i
        invariant (rows, s) == Pass(old(rows), fetched[..i], replies[..i], now)
      {
        assert fetched[..i + 1][..i] == fetched[..i] && replies[..i + 1][..i] == replies[..i];
        var v, calls := CreateWithRetries(replies[i]);
        match v {
          case Delivered =>
            MarkDispatched(fetched[i].row);
            s := s.(dispatched := s.dispatched + 1);
          case Retryable =>
            MarkFailure(fetched[i].row, UNAVAILABLE, true, now);
            s := s.(pending := s.pending + 1);
          case Permanent =>
            MarkFailure(fetched[i].row, REJECTED, false, now);
            s := s.(failed := s.failed + 1);
        }
      }
      assert fetched[..|fetched|] == fetched && replies[..|replies|] == replies;
    }
  }

  /** Rows and summary after a pass that nothing else interrupts. */
  function Pass(rows: map<Uuid, OutboxRow>, fetched: seq<Pending>, replies: seq<seq<Reply>>, now: Instant): (map<Uuid, OutboxRow>, Summary)
    requires |replies| == |fetched|
  {
    if fetched == [] then (rows, Summary(0, 0, 0))
    else
      var n := |fetched| - 1;
      var (before, s) := Pass(rows, fetched[..n], replies[..n], now);
      var v := VerdictOf(replies[n]);
      (Marked(before, fetched[n].row, v, now), Count(s, v))
  }

  // ----- What the queue's replies do to a row -----

  /** The queue took the task, or had it already, before any other definite reply. */
  predicate Accepts(replies: seq<Reply>) {
    exists k :: 0 <= k < |replies| && Settles(replies, k) && (replies[k] == Created || replies[k] == AlreadyExists)
  }

  predicate Rejects(replies: seq<Reply>) {
    exists k :: 0 <= k < |replies| && Settles(replies, k) && replies[k] == Rejected
  }

  predicate AllTransient(replies: seq<Reply>) {
    forall k :: 0 <= k < |replies| ==> replies[k] == Transient
  }

  /** The `k`-th reply is the first definite one. */
  predicate Settles(replies: seq<Reply>, k: nat)
    requires k < |replies|
  {
    replies[k] != Transient && forall j :: 0 <= j < k ==> replies[j] == Transient
  }

  lemma {:induction false} VerdictsFollowTheReplies(replies: seq<Reply>)
    ensures VerdictOf(replies) == Delivered <==> Accepts(replies)
    ensures VerdictOf(replies) == Permanent <==> Rejects(replies)
    ensures VerdictOf(replies) == Retryable <==> AllTransient(replies)
  {
    if replies != [] {
      var rest := replies[1..];
      if replies[0] == Transient {
        VerdictsFollowTheReplies(rest);
        assert forall k :: 0 <= k < |rest| ==> (Settles(rest, k) <==> Settles(replies, k + 1));
        assert forall k :: 0 < k < |replies| ==> replies[k] == rest[k - 1];
        forall k | 0 <= k < |replies| && Settles(replies, k) ensures k > 0 && Settles(rest, k - 1) {
        }
        if Accepts(rest) {
          var k :| 0 <= k < |rest| && Settles(rest, k) && (rest[k] == Created || rest[k] == AlreadyExists);
          assert Settles(replies, k + 1);
        }
        if Rejects(rest) {
          var k :| 0 <= k < |rest| && Settles(rest, k) && rest[k] == Rejected;
          assert Settles(replies, k + 1);
        }
      } else {
        assert Settles(replies, 0);
        assert forall k :: 0 <= k < |replies| && Settles(replies, k) ==> k == 0;
      }
    }
  }

  /** What a pass makes of a pending row: dispatched if the queue took the task or had it,
      failed if it rejected it, and otherwise pending again after 2 to 256 seconds. */
  predicate EndsBy(replies: seq<Reply>, before: OutboxRow, after: OutboxRow, now: Instant) {
    && (Accepts(replies) ==> after == before.(state := Dispatched, attempts := before.attempts + 1, lastError := None))
    && (Rejects(replies) ==>
          after == before.(state := Undeliverable, attempts := before.attempts + 1, lastError := Some("task_request_rejected")))
    && (AllTransient(replies) ==>
          && after == before.(attempts := before.attempts + 1, lastError := Some("task_service_unavailable"),
                              availableAt := now + RetryDelay(before.attempts + 1) * SECOND)
          && now + 2_000_000 <= after.availableAt <= now + 256_000_000)
  }

  lemma MarkedByTheReplies(replies: seq<Reply>, row: OutboxRow, now: Instant)
    requires row.state == Jobs.Pending
    ensures EndsBy(replies, row, MarkedRow(row, VerdictOf(replies), now), now)
  {
    VerdictsFollowTheReplies(replies);
    DelayDoublesTo256(row.attempts + 1);
  }

  /** After a pass each fetched pending row is what its own replies make of it, and no other
      row has changed. */
  lemma {:induction false} RowsEndByTheirReplies(
      rows: map<Uuid, OutboxRow>, fetched: seq<Pending>, replies: seq<seq<Reply>>, now: Instant, row: Uuid)
    requires |replies| == |fetched| && row in rows && rows[row].state == Jobs.Pending
    requires forall i, j :: 0 <= i < j < |fetched| ==> fetched[i].row != fetched[j].row
    ensures row in Pass(rows, fetched, replies, now).0
    ensures forall i :: 0 <= i < |fetched| && fetched[i].row == row ==>
              EndsBy(replies[i], rows[row], Pass(rows, fetched, replies, now).0[row], now)
    ensures (forall i :: 0 <= i < |fetched| ==> fetched[i].row != row) ==> Pass(rows, fetched, replies, now).0[row] == rows[row]
  {
    if fetched != [] {
      var n := |fetched| - 1;
      var before := Pass(rows, fetched[..n], replies[..n], now).0;
      RowsEndByTheirReplies(rows, fetched[..n], replies[..n], now, row);
      MarksItsRow(before, fetched[n].row, row, replies[n], now);
    }
  }

  lemma MarksItsRow(rows: map<Uuid, OutboxRow>, marked: Uuid, row: Uuid, replies: seq<Reply>, now: Instant)
    requires row in rows
    ensures var after := Marked(rows, marked, VerdictOf(replies), now);
            && row in after && (marked != row ==> after[row] == rows[row])
            && (marked == row && rows[row].state == Jobs.Pending ==> EndsBy(replies, rows[row], after[row], now))
  {
    if marked == row && rows[row].state == Jobs.Pending {
      MarkedByTheReplies(replies, rows[row], now);
    }
  }

  /** The rows counted dispatched, failed and pending are those whose tasks the queue took
      or had, those it rejected and those it never answered definitely. */
  lemma CountsFollowTheReplies(rows: map<Uuid, OutboxRow>, fetched: seq<Pending>, replies: seq<seq<Reply>>, now: Instant)
    requires |replies| == |fetched|
    ensures Pass(rows, fetched, replies, now).1 ==
            Summary(|set i | 0 <= i < |replies| && Accepts(replies[i])|,
                    |set i | 0 <= i < |replies| && Rejects(replies[i])|,
                    |set i | 0 <= i < |replies| && AllTransient(replies[i])|)
  {
    PassCountsEveryRow(rows, fetched, replies, now);
    HowManyRows(replies, Delivered);
    HowManyRows(replies, Permanent);
    HowManyRows(replies, Retryable);
    forall i | 0 <= i < |replies|
      ensures VerdictOf(replies[i]) == Delivered <==> Accepts(replies[i])
      ensures VerdictOf(replies[i]) == Permanent <==> Rejects(replies[i])
      ensures VerdictOf(replies[i]) == Retryable <==> AllTransient(replies[i])
    {
      VerdictsFollowTheReplies(replies[i]);
    }
    assert RowsWith(replies, Delivered) == (set i | 0 <= i < |replies| && Accepts(replies[i]));
    assert RowsWith(replies, Permanent) == (set i | 0 <= i < |replies| && Rejects(replies[i]));
    assert RowsWith(replies, Retryable) == (set i | 0 <= i < |replies| && AllTransient(replies[i]));
  }

  ghost function RowsWith(replies: seq<seq<Reply>>, v: Verdict): set<int> {
    set i | 0 <= i < |replies| && VerdictOf(replies[i]) == v
  }

  lemma {:induction false} HowManyRows(replies: seq<seq<Reply>>, v: Verdict)
    ensures HowMany(replies, v) == |RowsWith(replies, v)|
  {
    if replies != [] {
      var n := |replies| - 1;
      HowManyRows(replies[..n], v);
      assert RowsWith(replies, v) == RowsWith(replies[..n], v) + if VerdictOf(replies[n]) == v then {n} else {};
    }
  }

  // ----- Overlapping dispatchers -----

  datatype Process =
    | Idle
    | Calling(todo: seq<Pending>, calls: nat, fixed: Instant)
    | Decided(item: Pending, todo: seq<Pending>, verdict: Verdict, fixed: Instant)

  datatype Event =
    | Enqueue(row: Uuid, job: Uuid, now: Instant)
    | Fetch(p: nat, found: seq<Pending>, now: Instant)
    | Call(p: nat, reply: Reply, landed: bool)
    | Mark(p: nat)
    | Crash(p: nat)

  /** A queued task: its name and the job that its request runs. */
  datatype Task = Task(name: string, job: Uuid)

  /** `accepted` lists the tasks that the queue `parent` ever created. */
  datatype World = World(parent: string, rows: map<Uuid, OutboxRow>, accepted: seq<Task>, procs: map<nat, Process>)

  function TaskFor(parent: string, job: Uuid): Task {
    Task(parent + "/tasks/ai-job-" + UuidText(job), job)
  }

  /** Different jobs get different names. */
  lemma NamesAreInjective(parent: string, a: Uuid, b: Uuid)
    requires IsUuid(a) && IsUuid(b) && TaskFor(parent, a).name == TaskFor(parent, b).name
    ensures a == b
  {
    var prefix := parent + "/tasks/ai-job-";
    assert UuidText(a) == (prefix + UuidText(a))[|prefix|..] == (prefix + UuidText(b))[|prefix|..] == UuidText(b);
    UuidTextIsInjective(a, b);
  }

  function ProcessOf(w: World, p: nat): Process {
    if p in w.procs then w.procs[p] else Idle
  }

  predicate NameTaken(accepted: seq<Task>, name: string) {
    exists i :: 0 <= i < |accepted| && accepted[i].name == name
  }

  /** The queue looks at names only: it creates a task exactly when its name is new, and
      only a transient reply leaves open whether it did. */
  predicate QueueAllows(accepted: seq<Task>, name: string, reply: Reply, landed: bool) {
    match reply
    case Created => !NameTaken(accepted, name) && landed
    case AlreadyExists => NameTaken(accepted, name) && !landed
    case Transient => landed ==> !NameTaken(accepted, name)
    case Rejected => !landed
  }

  /** What the queue and the rows allow. */
  ghost predicate Enabled(w: World, e: Event) {
    match e
    case Enqueue(row, job, _) => IsUuid(job) && row !in w.rows && forall r :: r in w.rows ==> w.rows[r].job != job
    case Fetch(p, found, now) =>
      && ProcessOf(w, p).Idle?
      && forall i :: 0 <= i < |found| ==>
           var f := found[i];
           f.row in w.rows && w.rows[f.row].job == f.job && w.rows[f.row].state == Jobs.Pending && w.rows[f.row].availableAt <= now
    case Call(p, reply, landed) =>
      && ProcessOf(w, p).Calling? && ProcessOf(w, p).todo != []
      && QueueAllows(w.accepted, TaskFor(w.parent, ProcessOf(w, p).todo[0].job).name, reply, landed)
    case Mark(p) => ProcessOf(w, p).Decided?
    case Crash(p) => true
  }

  function AfterReply(pr: Process, reply: Reply): Process
    requires pr.Calling? && pr.todo != []
  {
    if reply == Transient && pr.calls + 1 < ATTEMPTS then pr.(calls := pr.calls + 1)
    else Decided(pr.todo[0], pr.todo[1..], ReplyVerdict(reply), pr.fixed)
  }

  ghost function Step(w: World, e: Event): World
    requires Enabled(w, e)
  {
    match e
    case Enqueue(row, job, now) => w.(rows := w.rows[row := NewRow(job, now)])
    case Fetch(p, found, now) => w.(procs := w.procs[p := Calling(found, 0, now)])
    case Call(p, reply, landed) =>
      w.(accepted := if landed then w.accepted + [TaskFor(w.parent, w.procs[p].todo[0].job)] else w.accepted,
         procs := w.procs[p := AfterReply(w.procs[p], reply)])
    case Mark(p) =>
      var pr := w.procs[p];
      w.(rows := Marked(w.rows, pr.item.row, pr.verdict, pr.fixed), procs := w.procs[p := Calling(pr.todo, 0, pr.fixed)])
    case Crash(p) => w.(procs := w.procs[p := Idle])
  }

  ghost predicate ValidRun(w: World, run: seq<Event>)
    decreases |run|
  {
    run != [] ==> Enabled(w, run[0]) && ValidRun(Step(w, run[0]), run[1..])
  }

  ghost function After(w: World, run: seq<Event>): World
    requires ValidRun(w, run)
    decreases |run|
  {
    if run == [] then w else After(Step(w, run[0]), run[1..])
  }

  predicate Knows(w: World, f: Pending) {
    f.row in w.rows && w.rows[f.row].job == f.job
  }

  predicate HasTask(w: World, job: Uuid) {
    exists i :: 0 <= i < |w.accepted| && w.accepted[i].job == job
  }

  ghost predicate ProcessOk(w: World, pr: Process) {
    match pr
    case Idle => true
    case Calling(todo, calls, _) => calls < ATTEMPTS && forall i :: 0 <= i < |todo| ==> Knows(w, todo[i])
    case Decided(item, todo, v, _) =>
      && Knows(w, item) && (v == Delivered ==> HasTask(w, item.job))
      && forall i :: 0 <= i < |todo| ==> Knows(w, todo[i])
  }

  predicate RowOk(w: World, row: OutboxRow) {
    IsUuid(row.job) && (row.state == Dispatched ==> HasTask(w, row.job))
  }

  ghost predicate OneTaskPerJob(w: World) {
    forall i, j :: 0 <= i < j < |w.accepted| ==> w.accepted[i].job != w.accepted[j].job
  }

  ghost predicate Inv(w: World) {
    && OneTaskPerJob(w)
    && (forall i :: 0 <= i < |w.accepted| ==> IsUuid(w.accepted[i].job) && w.accepted[i] == TaskFor(w.parent, w.accepted[i].job))
    && (forall r :: r in w.rows ==> RowOk(w, w.rows[r]))
    && (forall p :: p in w.procs ==> ProcessOk(w, w.procs[p]))
  }

  /** A taken name means that the job's own task exists. */
  lemma TakenMeansOwnTask(w: World, job: Uuid)
    requires Inv(w) && IsUuid(job)
    ensures NameTaken(w.accepted, TaskFor(w.parent, job).name) <==> HasTask(w, job)
  {
    if NameTaken(w.accepted, TaskFor(w.parent, job).name) {
      var i :| 0 <= i < |w.accepted| && w.accepted[i].name == TaskFor(w.parent, job).name;
      NamesAreInjective(w.parent, w.accepted[i].job, job);
    }
  }

  lemma TasksGrow(w: World, v: World)
    requires w.accepted <= v.accepted
    ensures forall job :: HasTask(w, job) ==> HasTask(v, job)
  {
    forall job | HasTask(w, job) ensures HasTask(v, job) {
      var i :| 0 <= i < |w.accepted| && w.accepted[i].job == job;
      assert v.accepted[i] == w.accepted[i];
    }
  }

  lemma CallInv(w: World, e: Event)
    requires Inv(w) && Enabled(w, e) && e.Call?
    ensures Inv(Step(w, e))
  {
    var v, pr := Step(w, e), w.procs[e.p];
    var job := pr.todo[0].job;
    assert ProcessOk(w, pr) && Knows(w, pr.todo[0]);
    assert RowOk(w, w.rows[pr.todo[0].row]);
    TakenMeansOwnTask(w, job);
    TasksGrow(w, v);
    if e.landed {
      assert v.accepted[|w.accepted|] == TaskFor(w.parent, job);
      assert HasTask(v, job);
    }
    forall p | p in v.procs ensures ProcessOk(v, v.procs[p]) {
      assert p in w.procs && ProcessOk(w, w.procs[p]);
    }
    forall r | r in v.rows ensures RowOk(v, v.rows[r]) {
      assert RowOk(w, w.rows[r]);
    }
  }

  lemma StepInv(w: World, e: Event)
    requires Inv(w) && Enabled(w, e)
    ensures Inv(Step(w, e))
  {
    if e.Call? {
      CallInv(w, e);
    } else {
      var v := Step(w, e);
      TasksGrow(w, v);
      forall p | p in v.procs ensures ProcessOk(v, v.procs[p]) {
        if p in w.procs {
          assert ProcessOk(w, w.procs[p]);
        }
        StepProcess(w, e, p);
      }
      forall r | r in v.rows ensures RowOk(v, v.rows[r]) {
        if r in w.rows {
          assert RowOk(w, w.rows[r]);
        }
        if e.Mark? {
          assert ProcessOk(w, w.procs[e.p]);
        }
        StepRow(w, e, r);
      }
    }
  }

  lemma StepProcess(w: World, e: Event, p: nat)
    requires Enabled(w, e) && !e.Call? && p in Step(w, e).procs
    requires p in w.procs ==> ProcessOk(w, w.procs[p])
    ensures ProcessOk(Step(w, e), Step(w, e).procs[p])
  {
    var v := Step(w, e);
    assert v.accepted == w.accepted;
    assert forall job :: HasTask(v, job) <==> HasTask(w, job);
    assert forall f :: Knows(w, f) ==> Knows(v, f);
  }

  lemma StepRow(w: World, e: Event, r: Uuid)
    requires Enabled(w, e) && !e.Call? && r in Step(w, e).rows
    requires r in w.rows ==> RowOk(w, w.rows[r])
    requires e.Mark? ==> ProcessOk(w, w.procs[e.p])
    ensures RowOk(Step(w, e), Step(w, e).rows[r])
  {
    SameTasks(w, Step(w, e));
    if e.Mark? {
      MarkRow(w, e, r);
    }
  }

  lemma MarkRow(w: World, e: Event, r: Uuid)
    requires Enabled(w, e) && e.Mark? && r in w.rows && RowOk(w, w.rows[r]) && ProcessOk(w, w.procs[e.p])
    ensures r in Step(w, e).rows && IsUuid(Step(w, e).rows[r].job)
    ensures Step(w, e).rows[r].state == Dispatched ==> HasTask(w, Step(w, e).rows[r].job)
  {
    var pr := w.procs[e.p];
    if pr.item.row == r {
      assert Step(w, e).rows[r] == MarkedRow(w.rows[r], pr.verdict, pr.fixed);
    }
  }

  lemma SameTasks(w: World, v: World)
    requires v.accepted == w.accepted
    ensures forall job :: HasTask(v, job) <==> HasTask(w, job)
  {
  }

  /** In every run of overlapping, crashing dispatchers a job gets at most one task, and
      a row is recorded as dispatched only if the task of its own job was created. */
  lemma {:induction false} DispatchedMeansCreatedOnce(w: World, run: seq<Event>)
    requires Inv(w) && ValidRun(w, run)
    ensures Inv(After(w, run)) && OneTaskPerJob(After(w, run))
    ensures forall r :: r in After(w, run).rows && After(w, run).rows[r].state == Dispatched ==>
              HasTask(After(w, run), After(w, run).rows[r].job)
    decreases |run|
  {
    if run != [] {
      StepInv(w, run[0]);
      DispatchedMeansCreatedOnce(Step(w, run[0]), run[1..]);
    } else {
      assert forall r :: r in w.rows ==> RowOk(w, w.rows[r]);
    }
  }

  /** Dispatched and failed rows never change again. */
  lemma {:induction false} SettledRowsStay(w: World, run: seq<Event>, row: Uuid)
    requires ValidRun(w, run) && row in w.rows && w.rows[row].state != Jobs.Pending
    ensures row in After(w, run).rows && After(w, run).rows[row] == w.rows[row]
    decreases |run|
  {
    if run != [] {
      SettledRowsStay(Step(w, run[0]), run[1..], row);
    }
  }

  /** Whatever happened before: once a dispatcher's call for a pending row is decided, it
      marks the row dispatched exactly when the queue took the task or had it, and then the
      task exists; failed exactly when the queue rejected it; and otherwise leaves it pending. */
  lemma DecisionsMarkTheRow(w: World, call: Event, mark: Event)
    requires Inv(w) && Enabled(w, call) && call.Call? && mark == Mark(call.p) && Enabled(Step(w, call), mark)
    requires Knows(w, w.procs[call.p].todo[0]) && w.rows[w.procs[call.p].todo[0].row].state == Jobs.Pending
    ensures var v := Step(Step(w, call), mark);
            var item := w.procs[call.p].todo[0];
            var state := v.rows[item.row].state;
            && (state == Dispatched <==> call.reply == Created || call.reply == AlreadyExists)
            && (state == Dispatched ==> HasTask(v, item.job))
            && (state == Undeliverable <==> call.reply == Rejected)
            && (state == Jobs.Pending <==> call.reply == Transient)
  {
    var item := w.procs[call.p].todo[0];
    assert RowOk(w, w.rows[item.row]);
    TakenMeansOwnTask(w, item.job);
    var u := Step(w, call);
    if call.landed {
      assert u.accepted[|w.accepted|].job == item.job;
    }
  }

  /** A dispatcher that works on a pending row whose task exists, because an earlier reply
      was lost, creates no second one.  It marks the row dispatched exactly when the queue
      says that the name exists, failed exactly when the queue rejects the request, and
      otherwise leaves it pending. */
  lemma LostReplyIsRecovered(w: World, call: Event, mark: Event)
    requires Inv(w) && Enabled(w, call) && call.Call? && mark == Mark(call.p)
    requires Knows(w, w.procs[call.p].todo[0]) && w.rows[w.procs[call.p].todo[0].row].state == Jobs.Pending
    requires HasTask(w, w.procs[call.p].todo[0].job)
    ensures call.reply != Created && !call.landed
    ensures Enabled(Step(w, call), mark) <==> call.reply != Transient || w.procs[call.p].calls + 1 >= 3
    ensures Enabled(Step(w, call), mark) ==>
              var v := Step(Step(w, call), mark);
              var state := v.rows[w.procs[call.p].todo[0].row].state;
              && v.accepted == w.accepted
              && (state == Dispatched <==> call.reply == AlreadyExists)
              && (state == Undeliverable <==> call.reply == Rejected)
              && (state == Jobs.Pending <==> call.reply == Transient)
  {
    var item := w.procs[call.p].todo[0];
    assert RowOk(w, w.rows[item.row]);
    TakenMeansOwnTask(w, item.job);
  }

  function HowMany(replies: seq<seq<Reply>>, v: Verdict): nat {
    if replies == [] then 0
    else HowMany(replies[..|replies| - 1], v) + if VerdictOf(replies[|replies| - 1]) == v then 1 else 0
  }

  /** The summary of a pass counts every fetched row once, by the queue's verdict on it. */
  lemma {:induction false} PassCountsEveryRow(rows: map<Uuid, OutboxRow>, fetched: seq<Pending>, replies: seq<seq<Reply>>, now: Instant)
    requires |replies| == |fetched|
    ensures Pass(rows, fetched, replies, now).1 ==
            Summary(HowMany(replies, Delivered), HowMany(replies, Permanent), HowMany(replies, Retryable))
    ensures HowMany(replies, Delivered) + HowMany(replies, Permanent) + HowMany(replies, Retryable) == |fetched|
  {
    if fetched != [] {
      PassCountsEveryRow(rows, fetched[..|fetched| - 1], replies[..|fetched| - 1], now);
    }
  }
}
