/** Login sessions: rotating renewal tokens with reuse detection, and the account
    version that invalidates them.  Tokens are fresh values given to each step. */
module Sessions {
  import opened Base

  type Token = nat

  datatype Status = Active | Locked | Deactivated

  datatype Account = Account(version: nat, status: Status, staffActive: bool, admin: bool)

  datatype Session = Session(
    account: Uuid, version: nat, access: Token, accessExpiresAt: Instant,
    renewal: Token, renewalExpiresAt: Instant, family: Uuid, device: Uuid,
    persistent: bool, createdAt: Instant, revokedAt: Option<Instant>)

  /** A renewal token that was rotated away. */
  datatype Used = Used(session: Uuid, family: Uuid, reuseDetectedAt: Option<Instant>)

  datatype Settings = Settings(access: int, renewal: int, persistentRenewal: int)

  datatype Db = Db(accounts: map<Uuid, Account>, sessions: map<Uuid, Session>, history: map<Token, Used>)

  datatype Pair = Pair(access: Token, renewal: Token)

  datatype Op =
    | Create(id: Uuid, account: Uuid, family: Uuid, device: Uuid, persistent: bool, fresh_: Pair, now: Instant)
    | Renew(presented: Token, device: Uuid, fresh_: Pair, now: Instant)
    | Revoke(account: Uuid, id: Uuid, now: Instant)
    | LogoutAll(account: Uuid, now: Instant)
    | ChangePin(account: Uuid, id: Uuid, pinsOk: bool, device: Uuid, fresh_: Pair, now: Instant)
    | SetRoleOrStatus(account: Uuid, admin: bool, status: Status, now: Instant)
    | ResetPin(account: Uuid, now: Instant)
    | Unlock(account: Uuid, now: Instant)
    | LockByAttempts(account: Uuid)
    /** A login after the lock has run out; the version stays. */
    | LiftExpiredLock(account: Uuid)
    | SetStaffActive(account: Uuid, active: bool)

  // ----- What each operation does -----

  predicate MayLogIn(a: Account) {
    a.status == Active && a.staffActive
  }

  function Lifetime(persistent: bool, settings: Settings): int {
    if persistent then settings.persistentRenewal else settings.renewal
  }

  /** The session whose current renewal token is `t`. */
  ghost function Holder(sessions: map<Uuid, Session>, t: Token): Option<Uuid> {
    if s :| s in sessions && sessions[s].renewal == t then Some(s) else None
  }

  ghost function AccessHolder(sessions: map<Uuid, Session>, t: Token): Option<Uuid> {
    if s :| s in sessions && sessions[s].access == t then Some(s) else None
  }

  function RevokedSession(s: Session, now: Instant): Session {
    if s.revokedAt == None then s.(revokedAt := Some(now)) else s
  }

  function RevokedAll(sessions: map<Uuid, Session>, ids: set<Uuid>, now: Instant): map<Uuid, Session> {
    map s | s in sessions :: if s in ids then RevokedSession(sessions[s], now) else sessions[s]
  }

  function FamilyOf(sessions: map<Uuid, Session>, family: Uuid): set<Uuid> {
    set s | s in sessions && sessions[s].family == family
  }

  function SessionsOf(sessions: map<Uuid, Session>, account: Uuid): set<Uuid> {
    set s | s in sessions && sessions[s].account == account
  }

  function Rotated(s: Session, fresh_: Pair, now: Instant, settings: Settings): Session {
    s.(access := fresh_.access, renewal := fresh_.renewal, accessExpiresAt := now + settings.access,
       renewalExpiresAt := if s.persistent then now + settings.persistentRenewal else s.renewalExpiresAt)
  }

  /** A session that its device may still renew or change the PIN with. */
  predicate Renewable(db: Db, id: Uuid, device: Uuid, now: Instant) {
    && id in db.sessions && db.sessions[id].account in db.accounts
    && var s := db.sessions[id];
    && s.revokedAt == None && s.renewalExpiresAt > now && s.device == device
    && s.version == db.accounts[s.account].version && MayLogIn(db.accounts[s.account])
  }

  predicate Usable(db: Db, id: Uuid, now: Instant) {
    && id in db.sessions && db.sessions[id].account in db.accounts
    && var s := db.sessions[id];
    && s.revokedAt == None && s.accessExpiresAt > now
    && s.version == db.accounts[s.account].version && MayLogIn(db.accounts[s.account])
  }

  /** The session an access token authenticates. */
  ghost function Resolve(db: Db, t: Token, now: Instant): Option<Uuid> {
    var h := AccessHolder(db.sessions, t);
    if h.Some? && Usable(db, h.value, now) then h else None
  }

  predicate LastActiveAdmin(db: Db, account: Uuid)
    requires account in db.accounts
  {
    && db.accounts[account].admin && db.accounts[account].status == Active
    && forall a :: a in db.accounts && a != account ==> !(db.accounts[a].admin && db.accounts[a].status == Active)
  }

  /** Whether the operation goes through. */
  ghost predicate Accepted(db: Db, op: Op) {
    match op
    case Create(_, account, _, _, _, _, _) => account in db.accounts && MayLogIn(db.accounts[account])
    case Renew(presented, device, _, now) =>
      Holder(db.sessions, presented).Some? && Renewable(db, Holder(db.sessions, presented).value, device, now)
    case Revoke(account, id, _) => id in db.sessions && db.sessions[id].account == account && account in db.accounts
    case LogoutAll(account, _) => account in db.accounts
    case ChangePin(account, id, pinsOk, device, _, now) =>
      id in db.sessions && db.sessions[id].account == account && Renewable(db, id, device, now) && pinsOk
    case SetRoleOrStatus(account, admin, status, _) =>
      && status != Locked && account in db.accounts
      && (LastActiveAdmin(db, account) ==> admin && status == Active)
      && !(db.accounts[account].status == Locked && status == Active)
      && !(db.accounts[account].admin == admin && db.accounts[account].status == status)
    case ResetPin(account, _) => account in db.accounts
    case Unlock(account, _) => account in db.accounts && db.accounts[account].status == Locked
    case LockByAttempts(account) => account in db.accounts && db.accounts[account].status == Active
    case LiftExpiredLock(account) => account in db.accounts && db.accounts[account].status == Locked
    case SetStaffActive(account, _) => account in db.accounts
  }

  function Bumped(db: Db, account: Uuid, status: Status, admin: bool): Db
    requires account in db.accounts
  {
    var a := db.accounts[account];
    db.(accounts := db.accounts[account := a.(version := a.version + 1, status := status, admin := admin)])
  }

  /** A presented token that was rotated away revokes its whole family. */
  ghost function AfterReuse(db: Db, t: Token, now: Instant): Db {
    if t in db.history && db.history[t].session in db.sessions then
      var u := db.history[t];
      db.(history := db.history[t := if u.reuseDetectedAt == None then u.(reuseDetectedAt := Some(now)) else u],
          sessions := RevokedAll(db.sessions, FamilyOf(db.sessions, db.sessions[u.session].family) + {u.session}, now))
    else db
  }

  ghost function After(db: Db, op: Op, settings: Settings): Db {
    if !Accepted(db, op) then
      if op.Renew? && Holder(db.sessions, op.presented) == None then AfterReuse(db, op.presented, op.now) else db
    else
      match op
      case Create(id, account, family, device, persistent, pair, now) =>
        db.(sessions := db.sessions[id := Session(
              account, db.accounts[account].version, pair.access, now + settings.access,
              pair.renewal, now + Lifetime(persistent, settings), family, device, persistent, now, None)])
      case Renew(presented, _, pair, now) =>
        var id := Holder(db.sessions, presented).value;
        var s := db.sessions[id];
        db.(history := db.history[s.renewal := Used(id, s.family, None)],
            sessions := db.sessions[id := Rotated(s, pair, now, settings)])
      case Revoke(_, id, now) =>
        db.(sessions := RevokedAll(db.sessions, FamilyOf(db.sessions, db.sessions[id].family) + {id}, now))
      case LogoutAll(account, now) =>
        Bumped(db, account, db.accounts[account].status, db.accounts[account].admin)
          .(sessions := RevokedAll(db.sessions, SessionsOf(db.sessions, account), now))
      case ChangePin(account, id, _, _, pair, now) =>
        var s := db.sessions[id];
        var others := RevokedAll(db.sessions, SessionsOf(db.sessions, account) - {id}, now);
        Bumped(db, account, db.accounts[account].status, db.accounts[account].admin)
          .(history := db.history[s.renewal := Used(id, s.family, None)],
            sessions := others[id := Rotated(s, pair, now, settings).(version := db.accounts[account].version + 1)])
      case SetRoleOrStatus(account, admin, status, now) =>
        Bumped(db, account, status, admin)
          .(sessions := if db.accounts[account].admin != admin || status == Deactivated
                        then RevokedAll(db.sessions, SessionsOf(db.sessions, account), now) else db.sessions)
      case ResetPin(account, now) =>
        Bumped(db, account, if db.accounts[account].status == Locked then Active else db.accounts[account].status, db.accounts[account].admin)
          .(sessions := RevokedAll(db.sessions, SessionsOf(db.sessions, account), now))
      case Unlock(account, now) =>
        Bumped(db, account, Active, db.accounts[account].admin)
          .(sessions := RevokedAll(db.sessions, SessionsOf(db.sessions, account), now))
      case LockByAttempts(account) => db.(accounts := db.accounts[account := db.accounts[account].(status := Locked)])
      case LiftExpiredLock(account) => db.(accounts := db.accounts[account := db.accounts[account].(status := Active)])
      case SetStaffActive(account, active) => db.(accounts := db.accounts[account := db.accounts[account].(staffActive := active)])
  }

  /** No two sessions share a token: the unique indexes. */
  ghost predicate UniqueTokens(sessions: map<Uuid, Session>) {
    forall a, b :: a in sessions && b in sessions && a != b ==>
      sessions[a].renewal != sessions[b].renewal && sessions[a].access != sessions[b].access
  }

  // ----- The service -----

  class SessionService {
    var accounts: map<Uuid, Account>
    var sessions: map<Uuid, Session>
    var history: map<Token, Used>
    const settings: Settings

    ghost function View(): Db
      reads this
    {
      Db(accounts, sessions, history)
    }

    constructor (accounts: map<Uuid, Account>, settings: Settings)
      ensures View() == Db(accounts, map[], map[]) && this.settings == settings
    {
      this.accounts, this.settings := accounts, settings;
      sessions, history := map[], map[];
    }

    method RevokeRows(ids: set<Uuid>, now: Instant)
      modifies this`sessions
      ensures sessions == RevokedAll(old(sessions), ids, now)
    {
      var rest := sessions.Keys;
      while rest != {}
        invariant rest <= sessions.Keys == old(sessions).Keys
        invariant forall s :: s in rest ==> sessions[s] == old(sessions)[s]
        invariant forall s :: s in sessions && s !in rest ==> sessions[s] == RevokedAll(old(sessions), ids, now)[s]
      {
        var s :| s in rest;
        if s in ids && sessions[s].revokedAt == None {
          sessions := sessions[s := sessions[s].(revokedAt := Some(now))];
        }
        rest := rest - {s};
      }
    }

    method CreateSession(id: Uuid, account: Uuid, family: Uuid, device: Uuid, persistent: bool, pair: Pair, now: Instant)
      returns (ok: bool)
      modifies this`sessions
      ensures var op := Create(id, account, family, device, persistent, pair, now);
              ok == Accepted(old(View()), op) && View() == After(old(View()), op, settings)
    {
      if account !in accounts || accounts[account].status != Active || !accounts[account].staffActive {
        return false;
      }
      var renewalSeconds := if persistent then settings.persistentRenewal else settings.renewal;
      var stored := Session(
        account, accounts[account].version, pair.access, now + settings.access,
        pair.renewal, now + renewalSeconds, family, device, persistent, now, None);
      sessions := sessions[id := stored];
      return true;
    }

    /** Rotate the presented token, or detect its reuse. */
    method RenewSession(presented: Token, device: Uuid, pair: Pair, now: Instant) returns (ok: bool)
      requires UniqueTokens(sessions)
      modifies this
      ensures var op := Renew(presented, device, pair, now);
              ok == Accepted(old(View()), op) && View() == After(old(View()), op, settings)
    {
      var found := set s | s in sessions && sessions[s].renewal == presented;
      if found == {} {
        assert forall s :: s in sessions && sessions[s].renewal == presented ==> s in found;
        if presented in history && history[presented].session in sessions {
          var used := history[presented];
          if used.reuseDetectedAt == None {
            used := used.(reuseDetectedAt := Some(now));
          }
          history := history[presented := used];
          var family := sessions[used.session].family;
          RevokeRows((set s | s in sessions && sessions[s].family == family) + {used.session}, now);
        }
        return false;
      }
      var id :| id in found;
      assert Holder(sessions, presented) == Some(id);
      var current := sessions[id];
      if current.account !in accounts {
        return false;
      }
      var account := accounts[current.account];
      if current.revokedAt != None || current.renewalExpiresAt <= now || current.device != device || current.version != account.version {
        return false;
      }
      if account.status != Active || !account.staffActive {
        return false;
      }
      history := history[current.renewal := Used(id, current.family, None)];
      current := current.(access := pair.access, renewal := pair.renewal);
      current := current.(accessExpiresAt := now + settings.access);
      if current.persistent {
        current := current.(renewalExpiresAt := now + settings.persistentRenewal);
      }
      sessions := sessions[id := current];
      return true;
    }

    method RevokeSession(account: Uuid, id: Uuid, now: Instant) returns (ok: bool)
      modifies this`sessions
      ensures var op := Revoke(account, id, now);
              ok == Accepted(old(View()), op) && View() == After(old(View()), op, settings)
    {
      if id !in sessions || sessions[id].account != account || account !in accounts {
        return false;
      }
      RevokeRows((set s | s in sessions && sessions[s].family == sessions[id].family) + {id}, now);
      return true;
    }

    method Logout(account: Uuid, now: Instant) returns (ok: bool)
      modifies this
      ensures var op := LogoutAll(account, now);
              ok == Accepted(old(View()), op) && View() == After(old(View()), op, settings)
    {
      if account !in accounts {
        return false;
      }
      accounts := accounts[account := accounts[account].(version := accounts[account].version + 1)];
      RevokeRows((set s | s in sessions && sessions[s].account == account), now);
      return true;
    }

    /** `pinsOk`: the current PIN verifies and the new one passes the policy. */
    method ChangeOwnPin(account: Uuid, id: Uuid, pinsOk: bool, device: Uuid, pair: Pair, now: Instant) returns (ok: bool)
      modifies this
      ensures var op := ChangePin(account, id, pinsOk, device, pair, now);
              ok == Accepted(old(View()), op) && View() == After(old(View()), op, settings)
    {
      if account !in accounts || id !in sessions || sessions[id].account != account {
        return false;
      }
      var current, row := sessions[id], accounts[account];
      if current.revokedAt != None || current.renewalExpiresAt <= now || current.version != row.version || current.device != device {
        return false;
      }
      if row.status != Active || !row.staffActive || !pinsOk {
        return false;
      }
      row := row.(version := row.version + 1);
      accounts := accounts[account := row];
      RevokeRows((set s | s in sessions && sessions[s].account == account) - {id}, now);
      history := history[current.renewal := Used(id, current.family, None)];
      current := current.(version := row.version, access := pair.access, renewal := pair.renewal);
      current := current.(accessExpiresAt := now + settings.access);
      if current.persistent {
        current := current.(renewalExpiresAt := now + settings.persistentRenewal);
      }
      sessions := sessions[id := current];
      return true;
    }

    method ChangeRoleOrStatus(account: Uuid, admin: bool, status: Status, now: Instant) returns (ok: bool)
      modifies this
      ensures var op := SetRoleOrStatus(account, admin, status, now);
              ok == Accepted(old(View()), op) && View() == After(old(View()), op, settings)
    {
      if status == Locked || account !in accounts {
        return false;
      }
      var target := accounts[account];
      if target.admin && target.status == Active && (!admin || status != Active) {
        var rivals := set a | a in accounts && a != account && accounts[a].admin && accounts[a].status == Active;
        assert forall a :: a in rivals <==> a in accounts && a != account && accounts[a].admin && accounts[a].status == Active;
        if rivals == {} {
          return false;
        }
        assert !LastActiveAdmin(View(), account) by {
          var a :| a in rivals;
        }
      }
      if (target.status == Locked && status == Active) || (target.admin == admin && target.status == status) {
        return false;
      }
      accounts := accounts[account := target.(admin := admin, status := status, version := target.version + 1)];
      if target.admin != admin || status == Deactivated {
        RevokeRows((set s | s in sessions && sessions[s].account == account), now);
      }
      return true;
    }

    method ResetAccountPin(account: Uuid, now: Instant) returns (ok: bool)
      modifies this
      ensures var op := ResetPin(account, now);
              ok == Accepted(old(View()), op) && View() == After(old(View()), op, settings)
    {
      if account !in accounts {
        return false;
      }
      var row := accounts[account].(version := accounts[account].version + 1);
      if row.status == Locked {
        row := row.(status := Active);
      }
      accounts := accounts[account := row];
      RevokeRows((set s | s in sessions && sessions[s].account == account), now);
      return true;
    }

    method UnlockAccount(account: Uuid, now: Instant) returns (ok: bool)
      modifies this
      ensures var op := Unlock(account, now);
              ok == Accepted(old(View()), op) && View() == After(old(View()), op, settings)
    {
      if account !in accounts || accounts[account].status != Locked {
        return false;
      }
      accounts := accounts[account := accounts[account].(version := accounts[account].version + 1, status := Active)];
      RevokeRows((set s | s in sessions && sessions[s].account == account), now);
      return true;
    }

    method ResolveAccess(t: Token, now: Instant) returns (who: Option<Uuid>)
      requires UniqueTokens(sessions)
      ensures who == Resolve(View(), t, now)
    {
      var found := set s | s in sessions && sessions[s].access == t;
      if found == {} {
        assert forall s :: s in sessions && sessions[s].access == t ==> s in found;
        return None;
      }
      var id :| id in found;
      assert AccessHolder(sessions, t) == Some(id);
      var stored := sessions[id];
      if stored.account !in accounts || stored.revokedAt != None || stored.accessExpiresAt <= now
         || stored.version != accounts[stored.account].version {
        return None;
      }
      if accounts[stored.account].status != Active || !accounts[stored.account].staffActive {
        return None;
      }
      return Some(id);
    }
  }
}
