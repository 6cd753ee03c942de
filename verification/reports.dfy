/** One report row with its append-only revision log and its access rows. */
module Reports {
  import opened Base

  type Content = string

  datatype Status = InProgress | Completed | Archived

  datatype Reason = Autosave | ManualSave | AiResult | AdminEdit | StatusChange | Restored | Recovery | OwnershipChange

  datatype Relationship = Owner | Preparer

  datatype Actor = Actor(account: Uuid, staff: Uuid, admin: bool)

  datatype Access = Access(relationship: Relationship, grantedBy: Uuid, revokedAt: Option<Instant>)

  datatype Revision = Revision(number: nat, editor: Uuid, snapshot: Content, reason: Reason, source: Option<nat>)

  datatype Report = Report(
    status: Status, archivedAt: Option<Instant>, current: nat, content: Content,
    owner: Uuid, preparer: Uuid, access: map<Uuid, Access>, log: seq<Revision>)

  datatype Error = InvalidRequest | Conflict(current: nat) | TargetMissing | InactiveStaff

  /** The highest number in the log, or 0. */
  function Highest(log: seq<Revision>): nat {
    if log == [] then 0
    else
      var h, last := Highest(log[..|log| - 1]), log[|log| - 1].number;
      if last > h then last else h
  }

  function NextNumber(log: seq<Revision>): nat {
    Highest(log) + 1
  }

  /** The revision with a given number. */
  function Find(log: seq<Revision>, number: int): Option<Revision> {
    if log == [] then None
    else if log[|log| - 1].number == number then Some(log[|log| - 1])
    else Find(log[..|log| - 1], number)
  }

  predicate SaveReason(r: Reason) {
    r == Autosave || r == ManualSave || r == AiResult || r == AdminEdit
  }

  // ----- What each operation does -----

  datatype Op =
    | Save(actor: Actor, content: Content, base: int, reason: Reason)
    | SetStatus(actor: Actor, status: Status, base: int, now: Instant)
    | Restore(actor: Actor, number: int)
    | Recover(actor: Actor, content: Content, base: int)
    | Transfer(actor: Actor, owner: Uuid, preparer: Option<Uuid>, active: set<Uuid>, now: Instant)

  function NewPreparer(r: Report, op: Op): Uuid
    requires op.Transfer?
  {
    if op.preparer.Some? then op.preparer.value else r.preparer
  }

  function Refusal(r: Report, op: Op): Option<Error> {
    match op
    case Save(_, _, base, reason) =>
      if base < 0 || !SaveReason(reason) then Some(InvalidRequest)
      else if r.current != base then Some(Conflict(r.current))
      else None
    case SetStatus(_, _, base, _) =>
      if base < 0 then Some(InvalidRequest)
      else if r.current != base then Some(Conflict(r.current))
      else None
    case Restore(_, number) =>
      if number < 0 then Some(InvalidRequest)
      else if Find(r.log, number) == None then Some(TargetMissing)
      else None
    case Recover(_, _, base) =>
      if base < 0 then Some(InvalidRequest)
      else if base > r.current || Find(r.log, base) == None then Some(TargetMissing)
      else None
    case Transfer(_, owner, _, active, _) =>
      if {owner, NewPreparer(r, op)} <= active then None else Some(InactiveStaff)
  }

  /** The revision an accepted operation appends. */
  function NewRevision(r: Report, op: Op): Revision
    requires Refusal(r, op) == None
  {
    var n := NextNumber(r.log);
    match op
    case Save(actor, content, _, reason) => Revision(n, actor.staff, content, reason, None)
    case SetStatus(actor, _, _, _) => Revision(n, actor.staff, r.content, StatusChange, None)
    case Restore(actor, number) => Revision(n, actor.staff, Find(r.log, number).value.snapshot, Restored, Some(number))
    case Recover(actor, content, base) => Revision(n, actor.staff, content, Recovery, Some(base))
    case Transfer(actor, _, _, _, _) => Revision(n, actor.staff, r.content, OwnershipChange, None)
  }

  function AccessAfter(access: map<Uuid, Access>, owner: Uuid, preparer: Uuid, grantedBy: Uuid, now: Instant): map<Uuid, Access> {
    map staff | staff in access.Keys + {owner, preparer} ::
      if staff == owner then Access(Owner, grantedBy, None)
      else if staff == preparer then Access(Preparer, grantedBy, None)
      else if access[staff].revokedAt == None then access[staff].(revokedAt := Some(now))
      else access[staff]
  }

  function After(r: Report, op: Op): Report {
    if Refusal(r, op).Some? then r
    else
      var v := NewRevision(r, op);
      var logged := r.(log := r.log + [v]);
      match op
      case Save(_, content, _, _) => logged.(content := content, current := v.number)
      case SetStatus(_, status, _, now) =>
        logged.(status := status, current := v.number, archivedAt := if status == Archived then Some(now) else None)
      case Restore(_, _) => logged.(content := v.snapshot, current := v.number)
      case Recover(_, _, _) => logged
      case Transfer(actor, owner, _, _, now) =>
        logged.(owner := owner, preparer := NewPreparer(r, op), current := v.number,
                access := AccessAfter(r.access, owner, NewPreparer(r, op), actor.account, now))
  }

  function Reply(r: Report, op: Op): Result<Revision, Error> {
    if Refusal(r, op).Some? then Err(Refusal(r, op).value) else Ok(NewRevision(r, op))
  }

  // ----- The service -----

  class ReportRow {
    var status: Status
    var archivedAt: Option<Instant>
    var current: nat
    var content: Content
    var owner: Uuid
    var preparer: Uuid
    var access: map<Uuid, Access>
    var log: seq<Revision>

    ghost function View(): Report
      reads this
    {
      Report(status, archivedAt, current, content, owner, preparer, access, log)
    }

    /** A report shell: no revision yet, access for its owner and its preparer. */
    constructor (actor: Actor, owner: Uuid)
      ensures View() == Shell(actor, owner)
    {
      status, archivedAt, current, content, log := InProgress, None, 0, "", [];
      this.owner, preparer := owner, actor.staff;
      access := if actor.staff != owner
                then map[owner := Access(Owner, actor.account, None), actor.staff := Access(Preparer, actor.account, None)]
                else map[owner := Access(Owner, actor.account, None)];
    }

    method CheckBase(base: int) returns (error: Option<Error>)
      ensures error == if current != base then Some(Conflict(current)) else None
    {
      error := if current != base then Some(Conflict(current)) else None;
    }

    method SaveReport(actor: Actor, text: Content, base: int, reason: Reason) returns (reply: Result<Revision, Error>)
      modifies this
      ensures var op := Save(actor, text, base, reason);
              reply == Reply(old(View()), op) && View() == After(old(View()), op)
    {
      if base < 0 || !(reason in {Autosave, ManualSave, AiResult, AdminEdit}) {
        return Err(InvalidRequest);
      }
      var error := CheckBase(base);
      if error.Some? {
        return Err(error.value);
      }
      var revision := Revision(NextNumber(log), actor.staff, text, reason, None);
      log := log + [revision];
      content := text;
      current := revision.number;
      return Ok(revision);
    }

    method SaveReportStatus(actor: Actor, newStatus: Status, base: int, now: Instant) returns (reply: Result<Revision, Error>)
      modifies this
      ensures var op := SetStatus(actor, newStatus, base, now);
              reply == Reply(old(View()), op) && View() == After(old(View()), op)
    {
      if base < 0 {
        return Err(InvalidRequest);
      }
      var error := CheckBase(base);
      if error.Some? {
        return Err(error.value);
      }
      var revision := Revision(NextNumber(log), actor.staff, content, StatusChange, None);
      log := log + [revision];
      status := newStatus;
      current := revision.number;
      archivedAt := if newStatus == Archived then Some(now) else None;
      return Ok(revision);
    }

    method RestoreReport(actor: Actor, number: int) returns (reply: Result<Revision, Error>)
      modifies this
      ensures var op := Restore(actor, number);
              reply == Reply(old(View()), op) && View() == After(old(View()), op)
    {
      if number < 0 {
        return Err(InvalidRequest);
      }
      var source := Find(log, number);
      if source == None {
        return Err(TargetMissing);
      }
      var restored := Revision(NextNumber(log), actor.staff, source.value.snapshot, Restored, Some(number));
      log := log + [restored];
      content := source.value.snapshot;
      current := restored.number;
      return Ok(restored);
    }

    method CreateRecoveryRevision(actor: Actor, text: Content, base: int) returns (reply: Result<Revision, Error>)
      modifies this
      ensures var op := Recover(actor, text, base);
              reply == Reply(old(View()), op) && View() == After(old(View()), op)
    {
      if base < 0 {
        return Err(InvalidRequest);
      }
      if base > current {
        return Err(TargetMissing);
      }
      var source := Find(log, base);
      if source == None {
        return Err(TargetMissing);
      }
      var recovery := Revision(NextNumber(log), actor.staff, text, Recovery, Some(base));
      log := log + [recovery];
      return Ok(recovery);
    }

    method TransferOwnership(actor: Actor, newOwner: Uuid, newPreparer: Option<Uuid>, active: set<Uuid>, now: Instant)
      returns (reply: Result<Revision, Error>)
      modifies this
      ensures var op := Transfer(actor, newOwner, newPreparer, active, now);
              reply == Reply(old(View()), op) && View() == After(old(View()), op)
    {
      var resolved := if newPreparer.Some? then newPreparer.value else preparer;
      if !({newOwner, resolved} <= active) {
        return Err(InactiveStaff);
      }
      ReplaceAccess(newOwner, resolved, actor.account, now);
      owner, preparer := newOwner, resolved;
      var revision := Revision(NextNumber(log), actor.staff, content, OwnershipChange, None);
      log := log + [revision];
      current := revision.number;
      return Ok(revision);
    }

    /** Revoke every live row outside the resolved pair, then grant or reactivate the pair. */
    method ReplaceAccess(newOwner: Uuid, resolved: Uuid, grantedBy: Uuid, now: Instant)
      modifies this`access
      ensures access == AccessAfter(old(access), newOwner, resolved, grantedBy, now)
    {
      var relationships := [(newOwner, Owner)];
      if resolved != newOwner {
        relationships := relationships + [(resolved, Preparer)];
      }
      RevokeOthers({newOwner, resolved}, now);
      ghost var revoked := access;
      for i := 0 to |relationships|
        invariant access == Granted(revoked, relationships[..i], grantedBy)
      {
        assert relationships[..i + 1][..i] == relationships[..i];
        Grant(relationships[i].0, relationships[i].1, grantedBy);
      }
      assert relationships[..|relationships|] == relationships;
      GrantedPair(revoked, newOwner, resolved, grantedBy);
    }

    method RevokeOthers(kept: set<Uuid>, now: Instant)
      modifies this`access
      ensures access == RevokedOthers(old(access), kept, now)
    {
      var rest := access.Keys;
      while rest != {}
        invariant rest <= access.Keys == old(access).Keys
        invariant forall s :: s in rest ==> access[s] == old(access)[s]
        invariant forall s :: s in access && s !in rest ==> access[s] == RevokedOthers(old(access), kept, now)[s]
      {
        var staff :| staff in rest;
        if staff !in kept && access[staff].revokedAt == None {
          access := access[staff := access[staff].(revokedAt := Some(now))];
        }
        rest := rest - {staff};
      }
    }

    method Grant(staff: Uuid, relationship: Relationship, grantedBy: Uuid)
      modifies this`access
      ensures access == old(access)[staff := Access(relationship, grantedBy, None)]
    {
      if staff in access {
        access := access[staff := access[staff].(relationship := relationship, revokedAt := None, grantedBy := grantedBy)];
      } else {
        access := access[staff := Access(relationship, grantedBy, None)];
      }
    }
  }

  function RevokedOthers(access: map<Uuid, Access>, kept: set<Uuid>, now: Instant): map<Uuid, Access> {
    map s | s in access ::
      if s !in kept && access[s].revokedAt == None then access[s].(revokedAt := Some(now)) else access[s]
  }

  function Granted(access: map<Uuid, Access>, grants: seq<(Uuid, Relationship)>, grantedBy: Uuid): map<Uuid, Access> {
    if grants == [] then access
    else
      var (staff, relationship) := grants[|grants| - 1];
      Granted(access, grants[..|grants| - 1], grantedBy)[staff := Access(relationship, grantedBy, None)]
  }

  lemma GrantedPair(access: map<Uuid, Access>, owner: Uuid, preparer: Uuid, grantedBy: Uuid)
    ensures Granted(access, [(owner, Owner)], grantedBy) == access[owner := Access(Owner, grantedBy, None)]
    ensures Granted(access, [(owner, Owner), (preparer, Preparer)], grantedBy) ==
            access[owner := Access(Owner, grantedBy, None)][preparer := Access(Preparer, grantedBy, None)]
  {
    assert [(owner, Owner)][..0] == [];
    assert [(owner, Owner), (preparer, Preparer)][..1] == [(owner, Owner)];
  }

  function Shell(actor: Actor, owner: Uuid): Report {
    var owned := map[owner := Access(Owner, actor.account, None)];
    Report(InProgress, None, 0, "", owner, actor.staff,
      if actor.staff == owner then owned else owned[actor.staff := Access(Preparer, actor.account, None)], [])
  }

  // ----- Invariants over every run -----

  /** The number of the newest revision that is not a recovery, or 0. */
  function Promoted(log: seq<Revision>): nat {
    if log == [] then 0
    else if log[|log| - 1].reason == Recovery then Promoted(log[..|log| - 1])
    else log[|log| - 1].number
  }

  predicate LiveAccess(r: Report, staff: Uuid) {
    staff in r.access && r.access[staff].revokedAt == None
  }

  ghost predicate Numbered(log: seq<Revision>) {
    forall i :: 0 <= i < |log| ==> log[i].number == i + 1
  }

  ghost predicate LogOk(r: Report) {
    && Numbered(r.log)
    && r.current == Promoted(r.log) <= |r.log|
    && (r.current > 0 ==> r.content == r.log[r.current - 1].snapshot)
  }

  /** The live rows are those of the owner and the preparer, with their relationship. */
  ghost predicate AccessOk(r: Report) {
    && (forall s :: LiveAccess(r, s) <==> s == r.owner || s == r.preparer)
    && r.owner in r.access && r.access[r.owner].relationship == Owner
    && r.preparer in r.access && (r.preparer != r.owner ==> r.access[r.preparer].relationship == Preparer)
  }

  ghost predicate Inv(r: Report) {
    LogOk(r) && AccessOk(r)
  }

  function AfterAll(r: Report, run: seq<Op>): Report
    decreases |run|
  {
    if run == [] then r else AfterAll(After(r, run[0]), run[1..])
  }

  lemma {:induction false} HighestIsLength(log: seq<Revision>)
    requires Numbered(log)
    ensures Highest(log) == |log|
  {
    if log != [] {
      HighestIsLength(log[..|log| - 1]);
    }
  }

  lemma {:induction false} FindsByNumber(log: seq<Revision>, number: int)
    requires Numbered(log)
    ensures Find(log, number) == if 1 <= number <= |log| then Some(log[number - 1]) else None
  {
    if log != [] {
      FindsByNumber(log[..|log| - 1], number);
    }
  }

  lemma TransferAccess(r: Report, op: Op)
    requires op.Transfer? && Refusal(r, op) == None
    ensures AccessOk(After(r, op))
    ensures After(r, op).access.Keys == r.access.Keys + {op.owner, NewPreparer(r, op)}
  {
    var v := After(r, op);
    assert v.access == AccessAfter(r.access, op.owner, NewPreparer(r, op), op.actor.account, op.now);
    forall s ensures LiveAccess(v, s) <==> s == v.owner || s == v.preparer {
    }
  }

  /** What an accepted operation does to the log, the current number and the content. */
  lemma Accepted(r: Report, op: Op)
    requires Inv(r) && Refusal(r, op) == None
    ensures var v, after := NewRevision(r, op), After(r, op);
            && v.number == |r.log| + 1 && (v.reason == Recovery <==> op.Recover?)
            && after.log == r.log + [v]
            && after.current == (if op.Recover? then r.current else v.number)
            && after.content == (if op.Recover? then r.content else v.snapshot)
    ensures !op.Transfer? ==> var after := After(r, op);
            after.access == r.access && after.owner == r.owner && after.preparer == r.preparer
  {
    HighestIsLength(r.log);
  }

  lemma SameAccess(r: Report, after: Report)
    requires AccessOk(r) && after.access == r.access && after.owner == r.owner && after.preparer == r.preparer
    ensures AccessOk(after)
  {
    assert forall s :: LiveAccess(after, s) <==> LiveAccess(r, s);
  }

  lemma LogGrows(r: Report, v: Revision, after: Report)
    requires LogOk(r) && v.number == |r.log| + 1 && after.log == r.log + [v]
    requires after.current == if v.reason == Recovery then r.current else v.number
    requires after.content == if v.reason == Recovery then r.content else v.snapshot
    ensures LogOk(after)
  {
    assert after.log[..|r.log|] == r.log;
  }

  lemma StepInv(r: Report, op: Op)
    requires Inv(r)
    ensures Inv(After(r, op))
    ensures r.log <= After(r, op).log && r.current <= After(r, op).current
    ensures r.access.Keys <= After(r, op).access.Keys
    ensures Refusal(r, op) == None && !op.Recover? ==> After(r, op).current > r.current
  {
    if Refusal(r, op) == None {
      Accepted(r, op);
      LogGrows(r, NewRevision(r, op), After(r, op));
      if op.Transfer? {
        TransferAccess(r, op);
      } else {
        SameAccess(r, After(r, op));
      }
    }
  }

  /** In every run: revisions are numbered 1..n, the current number names the newest
      revision that is not a recovery, and its snapshot is the current content; the old
      log is a prefix of the new one; no access row is ever deleted. */
  lemma {:induction false} RunInv(r: Report, run: seq<Op>)
    requires Inv(r)
    ensures Inv(AfterAll(r, run))
    ensures r.log <= AfterAll(r, run).log && r.current <= AfterAll(r, run).current
    ensures r.access.Keys <= AfterAll(r, run).access.Keys
    decreases |run|
  {
    if run != [] {
      StepInv(r, run[0]);
      RunInv(After(r, run[0]), run[1..]);
    }
  }

  lemma ShellInv(actor: Actor, owner: Uuid)
    ensures Inv(Shell(actor, owner))
  {
  }

  // ----- Concurrency of saves -----

  predicate ChecksBase(op: Op, base: int) {
    (op.Save? || op.SetStatus?) && op.base == base
  }

  /** In every run a save or status change is accepted on exactly one base: the number of
      the newest revision that is not a recovery, or zero before the first. */
  lemma OnlyTheNewestBaseIsAccepted(creator: Actor, owner: Uuid, run: seq<Op>, op: Op, base: int)
    requires ChecksBase(op, base) && (op.Save? ==> SaveReason(op.reason))
    ensures var r := AfterAll(Shell(creator, owner), run);
            && (Refusal(r, op) == None <==> base == Promoted(r.log))
            && (Refusal(r, op).Some? && base >= 0 ==> Refusal(r, op) == Some(Conflict(Promoted(r.log))))
  {
    ShellInv(creator, owner);
    RunInv(Shell(creator, owner), run);
  }

  /** Of two saves or status changes on one base, once the first is accepted the second
      is refused, whatever happens in between. */
  lemma OneSavePerBase(r: Report, first: Op, between: seq<Op>, second: Op, base: int)
    requires Inv(r) && ChecksBase(first, base) && ChecksBase(second, base) && Refusal(r, first) == None
    ensures var later := AfterAll(After(r, first), between);
            && later.current > base
            && ((second.Save? ==> SaveReason(second.reason)) ==> Reply(later, second) == Err(Conflict(later.current)))
    ensures var later := AfterAll(After(r, first), between); After(later, second) == later
  {
    StepInv(r, first);
    RunInv(After(r, first), between);
  }

  /** Recoveries, however many, change nothing but the log: a save that was about to
      succeed still succeeds, with the same new content. */
  lemma RecoveriesAreHarmless(r: Report, recoveries: seq<Op>, pending: Op)
    requires Inv(r) && forall i :: 0 <= i < |recoveries| ==> recoveries[i].Recover?
    requires ChecksBase(pending, r.current)
    ensures var later := AfterAll(r, recoveries);
            && later.(log := r.log) == r
            && Refusal(later, pending) == Refusal(r, pending)
            && After(later, pending).content == After(r, pending).content
  {
    RecoveriesOnlyLog(r, recoveries);
    PendingGoesThrough(r, AfterAll(r, recoveries), pending);
  }

  lemma {:induction false} RecoveriesOnlyLog(r: Report, recoveries: seq<Op>)
    requires Inv(r) && forall i :: 0 <= i < |recoveries| ==> recoveries[i].Recover?
    ensures AfterAll(r, recoveries).(log := r.log) == r
    decreases |recoveries|
  {
    if recoveries != [] {
      RecoveryOnlyLogs(r, recoveries[0]);
      StepInv(r, recoveries[0]);
      RecoveriesOnlyLog(After(r, recoveries[0]), recoveries[1..]);
    }
  }

  lemma RecoveryOnlyLogs(r: Report, op: Op)
    requires op.Recover?
    ensures After(r, op).(log := r.log) == r
  {
  }

  lemma PendingGoesThrough(r: Report, later: Report, pending: Op)
    requires later.(log := r.log) == r && (pending.Save? || pending.SetStatus?)
    ensures Refusal(later, pending) == Refusal(r, pending) && After(later, pending).content == After(r, pending).content
  {
  }

  /** Restoring works for exactly the logged numbers, recoveries included, and brings
      back that revision's content even after any further run. */
  lemma RestoreBringsBack(r: Report, run: seq<Op>, actor: Actor, number: nat)
    requires Inv(r) && 1 <= number <= |r.log|
    ensures var later := After(AfterAll(r, run), Restore(actor, number));
            && later.content == r.log[number - 1].snapshot
            && later.log != [] && later.log[|later.log| - 1].source == Some(number)
    ensures forall n :: Refusal(r, Restore(actor, n)) == None <==> 1 <= n <= |r.log|
  {
    RunInv(r, run);
    FindsByNumber(AfterAll(r, run).log, number);
    forall n ensures Refusal(r, Restore(actor, n)) == None <==> 1 <= n <= |r.log| {
      FindsByNumber(r.log, n);
    }
  }

  // ----- What officers submit is kept -----

  /** A logged revision can be restored after any further run, and is then the content. */
  predicate Restores(r: Report, actor: Actor, number: nat, content: Content) {
    var after := After(r, Restore(actor, number));
    Refusal(r, Restore(actor, number)) == None && after.content == content && after.current > r.current
  }

  /** An accepted save makes the submitted text the content and logs it under the officer's
      name; restoring it brings it back after any further run. */
  lemma SavedTextIsKept(r: Report, actor: Actor, content: Content, base: int, reason: Reason, run: seq<Op>, officer: Actor)
    requires Inv(r) && Refusal(r, Save(actor, content, base, reason)) == None
    ensures var after := After(r, Save(actor, content, base, reason));
            && after.content == content && after.current == |r.log| + 1
            && after.log == r.log + [Revision(|r.log| + 1, actor.staff, content, reason, None)]
            && Restores(AfterAll(after, run), officer, |r.log| + 1, content)
  {
    var op := Save(actor, content, base, reason);
    HighestIsLength(r.log);
    StepInv(r, op);
    StaysRestorable(After(r, op), run, officer, |r.log| + 1);
  }

  /** An accepted recovery logs the recovered text and its base, changes nothing else, and
      restoring it brings the text back after any further run. */
  lemma RecoveredTextIsKept(r: Report, actor: Actor, content: Content, base: int, run: seq<Op>, officer: Actor)
    requires Inv(r) && Refusal(r, Recover(actor, content, base)) == None
    ensures var after := After(r, Recover(actor, content, base));
            && after == r.(log := r.log + [Revision(|r.log| + 1, actor.staff, content, Recovery, Some(base))])
            && Restores(AfterAll(after, run), officer, |r.log| + 1, content)
  {
    var op := Recover(actor, content, base);
    HighestIsLength(r.log);
    StepInv(r, op);
    StaysRestorable(After(r, op), run, officer, |r.log| + 1);
  }

  lemma StaysRestorable(r: Report, run: seq<Op>, officer: Actor, number: nat)
    requires Inv(r) && 1 <= number <= |r.log|
    ensures Restores(AfterAll(r, run), officer, number, r.log[number - 1].snapshot)
  {
    var later := AfterAll(r, run);
    RunInv(r, run);
    FindsByNumber(later.log, number);
    HighestIsLength(later.log);
  }

  /** A save is accepted exactly on the current number and for one of the four reasons of
      saves; a status change exactly on the current number. */
  lemma SaveAcceptedIff(r: Report, actor: Actor, content: Content, base: int, reason: Reason, status: Status, now: Instant)
    ensures Refusal(r, Save(actor, content, base, reason)) == None <==>
              base == r.current && reason in {Autosave, ManualSave, AiResult, AdminEdit}
    ensures Refusal(r, SetStatus(actor, status, base, now)) == None <==> base == r.current
  {
  }

  /** A recovery is accepted for exactly the revisions up to the current one. */
  lemma RecoveryAcceptedIff(r: Report, actor: Actor, content: Content, base: int)
    requires Inv(r)
    ensures Refusal(r, Recover(actor, content, base)) == None <==> 1 <= base <= r.current
  {
    FindsByNumber(r.log, base);
  }

  /** An accepted restore logs which revision it brought back and by whom. */
  lemma RestoreIsRecorded(r: Report, actor: Actor, number: int)
    requires Inv(r) && Refusal(r, Restore(actor, number)) == None
    ensures var after := After(r, Restore(actor, number));
            && 1 <= number <= |r.log|
            && after.log == r.log + [Revision(|r.log| + 1, actor.staff, r.log[number - 1].snapshot, Restored, Some(number))]
            && after.status == r.status
  {
    FindsByNumber(r.log, number);
    HighestIsLength(r.log);
  }

  /** The status is what the newest accepted status change set, with an archive time exactly
      while archived; nothing else touches it. */
  lemma {:induction false} StatusIsTheLastSet(r: Report, run: seq<Op>)
    requires Inv(r) && (r.status == Archived <==> r.archivedAt.Some?)
    ensures var later := AfterAll(r, run);
            && (later.status == Archived <==> later.archivedAt.Some?)
            && ((forall i :: 0 <= i < |run| ==> !run[i].SetStatus?) ==> later.status == r.status && later.archivedAt == r.archivedAt)
    decreases |run|
  {
    if run != [] {
      StepStatus(r, run[0]);
      StepInv(r, run[0]);
      StatusIsTheLastSet(After(r, run[0]), run[1..]);
    }
  }

  lemma StepStatus(r: Report, op: Op)
    requires r.status == Archived <==> r.archivedAt.Some?
    ensures After(r, op).status == Archived <==> After(r, op).archivedAt.Some?
    ensures !op.SetStatus? ==> After(r, op).status == r.status && After(r, op).archivedAt == r.archivedAt
  {
  }

  lemma StatusIsSet(r: Report, actor: Actor, status: Status, base: int, now: Instant)
    requires Inv(r) && Refusal(r, SetStatus(actor, status, base, now)) == None
    ensures var after := After(r, SetStatus(actor, status, base, now));
            && after.status == status && after.content == r.content
            && (status == Archived ==> after.archivedAt == Some(now))
            && after.log == r.log + [Revision(|r.log| + 1, actor.staff, r.content, StatusChange, None)]
  {
    HighestIsLength(r.log);
  }

  // ----- Access -----

  function HasReportAccess(actor: Actor, r: Report): bool {
    actor.admin || actor.staff in {r.owner, r.preparer}
  }

  /** After any run the access rows decide like the ownership fields for every actor
      who is not an administrator. */
  lemma RowsAgreeWithPolicy(creator: Actor, owner: Uuid, run: seq<Op>, actor: Actor)
    requires !actor.admin
    ensures var r := AfterAll(Shell(creator, owner), run);
            LiveAccess(r, actor.staff) <==> HasReportAccess(actor, r)
  {
    ShellInv(creator, owner);
    RunInv(Shell(creator, owner), run);
  }

  /** A transfer is accepted exactly for active staff.  The named owner owns the report, the
      named preparer prepares it or the old one stays; everyone else who had access has it
      revoked now; the text stays as it was. */
  lemma TransferTakesEffect(r: Report, actor: Actor, owner: Uuid, preparer: Option<Uuid>, active: set<Uuid>, now: Instant)
    requires Inv(r)
    ensures var op := Transfer(actor, owner, preparer, active, now);
            var resolved := if preparer.Some? then preparer.value else r.preparer;
            && (Refusal(r, op) == None <==> owner in active && resolved in active)
            && (Refusal(r, op) == None ==>
                  var after := After(r, op);
                  && after.owner == owner && after.preparer == resolved && after.content == r.content
                  && after.access[owner] == Access(Owner, actor.account, None)
                  && (resolved != owner ==> after.access[resolved] == Access(Preparer, actor.account, None))
                  && (forall s :: LiveAccess(r, s) && s != owner && s != resolved ==> after.access[s].revokedAt == Some(now))
                  && after.log == r.log + [Revision(|r.log| + 1, actor.staff, r.content, OwnershipChange, None)])
  {
    HighestIsLength(r.log);
  }

  /** A transfer takes effect at once and can be undone: transferring back restores the
      old pair's live rows without adding rows for them. */
  lemma TransferBack(r: Report, away: Op, back: Op)
    requires Inv(r) && away.Transfer? && Refusal(r, away) == None
    requires back.Transfer? && back.owner == r.owner && back.preparer == Some(r.preparer) && {r.owner, r.preparer} <= back.active
    ensures var there := After(r, away); var again := After(there, back);
            && LiveAccess(there, away.owner)
            && (r.owner != away.owner && r.owner != there.preparer ==> !LiveAccess(there, r.owner))
            && (forall s :: LiveAccess(again, s) <==> LiveAccess(r, s))
            && again.access.Keys == r.access.Keys + {away.owner, there.preparer}
            && again.content == r.content
  {
    var there := After(r, away);
    TransferAccess(r, away);
    StepInv(r, away);
    TransferTakesEffect(r, away.actor, away.owner, away.preparer, away.active, away.now);
    TransferAccess(there, back);
    TransferTakesEffect(there, back.actor, back.owner, back.preparer, back.active, back.now);
    SamePairSameAccess(r, After(there, back));
  }

  lemma SamePairSameAccess(r: Report, again: Report)
    requires AccessOk(r) && AccessOk(again) && again.owner == r.owner && again.preparer == r.preparer
    ensures forall s :: LiveAccess(again, s) <==> LiveAccess(r, s)
  {
  }
}
