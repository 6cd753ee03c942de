/** What logging in, renewing, revoking and administering accounts achieve. */
module SessionEffects {
  import opened Base
  import opened Sessions
  import opened SessionRuns

  /** No operation of a session succeeds any more: neither its tokens nor a PIN change. */
  ghost predicate Dead(db: Db, id: Uuid) {
    && (forall t, now :: Resolve(db, t, now) != Some(id))
    && (forall op :: Accepted(db, op) && op.Renew? ==> Holder(db.sessions, op.presented) != Some(id))
    && (forall op :: Accepted(db, op) && op.ChangePin? ==> op.id != id)
  }

  // ----- Who gets in -----

  /** The account may log in and the session is its own, unrevoked and of its version. */
  predicate InForce(db: Db, id: Uuid) {
    && id in db.sessions && db.sessions[id].account in db.accounts
    && var s, a := db.sessions[id], db.accounts[db.sessions[id].account];
    s.revokedAt == None && s.version == a.version && a.status == Active && a.staffActive
  }

  /** An access token authenticates a session exactly when it is that session's current one,
      the session is in force and the token has not run out. */
  lemma AuthenticatesIff(w: World, t: Token, now: Instant, id: Uuid)
    requires Inv(w)
    ensures Resolve(w.db, t, now) == Some(id) <==>
              InForce(w.db, id) && w.db.sessions[id].access == t && now < w.db.sessions[id].accessExpiresAt
  {
    if id in w.db.sessions && w.db.sessions[id].access == t {
      UniqueAccess(w.db, t, id);
    }
  }

  lemma UniqueAccess(db: Db, t: Token, id: Uuid)
    requires UniqueTokens(db.sessions) && id in db.sessions && db.sessions[id].access == t
    ensures AccessHolder(db.sessions, t) == Some(id)
  {
  }

  /** A renewal token yields credentials exactly when it is the current one of a session in
      force, presented by that session's device before it runs out. */
  lemma RenewsIff(w: World, op: Op, id: Uuid)
    requires Inv(w) && op.Renew? && id in w.db.sessions && w.db.sessions[id].renewal == op.presented
    ensures Accepted(w.db, op) <==>
              InForce(w.db, id) && op.device == w.db.sessions[id].device && op.now < w.db.sessions[id].renewalExpiresAt
    ensures Holder(w.db.sessions, op.presented) == Some(id)
  {
  }

  /** A PIN is changed exactly by such a session's own account and device with a right PIN. */
  lemma ChangesPinIff(w: World, op: Op)
    requires op.ChangePin?
    ensures Accepted(w.db, op) <==>
              && InForce(w.db, op.id) && w.db.sessions[op.id].account == op.account && op.pinsOk
              && op.device == w.db.sessions[op.id].device && op.now < w.db.sessions[op.id].renewalExpiresAt
  {
  }

  // ----- What a login and a renewal give -----

  /** An accepted login gives a session whose access token authenticates for one access
      lifetime and whose renewal token renews, from its device, for the lifetime of its kind. */
  lemma LoginGivesASession(w: World, op: Op)
    requires Inv(w) && Enabled(w, op) && op.Create? && Accepted(w.db, op)
    ensures var v := Step(w, op);
            && (forall t :: Resolve(v.db, op.fresh_.access, t) == Some(op.id) <==> t < op.now + w.settings.access)
            && (forall renew: Op :: renew.Renew? && renew.presented == op.fresh_.renewal && renew.device == op.device ==>
                  (Accepted(v.db, renew) <==>
                     renew.now < op.now + if op.persistent then w.settings.persistentRenewal else w.settings.renewal))
            && v.db.sessions[op.id].account == op.account && v.db.sessions[op.id].createdAt == op.now
            && (forall s :: s in w.db.sessions ==> s in v.db.sessions && v.db.sessions[s] == w.db.sessions[s])
  {
    var v := Step(w, op);
    StepInv(w, op);
    forall t ensures Resolve(v.db, op.fresh_.access, t) == Some(op.id) <==> t < op.now + w.settings.access {
      AuthenticatesIff(v, op.fresh_.access, t, op.id);
    }
    forall renew: Op | renew.Renew? && renew.presented == op.fresh_.renewal && renew.device == op.device
      ensures Accepted(v.db, renew) <==>
                renew.now < op.now + if op.persistent then w.settings.persistentRenewal else w.settings.renewal
    {
      RenewsIff(v, renew, op.id);
    }
  }

  /** Nobody logs in to an account that is not active or whose staff member is not. */
  lemma LogsInIff(w: World, op: Op)
    requires op.Create? && Enabled(w, op)
    ensures op.id in Step(w, op).db.sessions <==>
              op.account in w.db.accounts && w.db.accounts[op.account].status == Active && w.db.accounts[op.account].staffActive
  {
  }

  /** An accepted renewal replaces both tokens at once: the new access token authenticates for
      one access lifetime, the old one no more; the new renewal token renews until the old
      deadline, or for a persistent session until a new one. */
  lemma RenewalReplacesTokens(w: World, op: Op, id: Uuid)
    requires Inv(w) && Enabled(w, op) && op.Renew? && Accepted(w.db, op) && Holder(w.db.sessions, op.presented) == Some(id)
    ensures var v, s := Step(w, op), w.db.sessions[id];
            && (forall t :: Resolve(v.db, op.fresh_.access, t) == Some(id) <==> t < op.now + w.settings.access)
            && (forall t :: Resolve(v.db, s.access, t) != Some(id))
            && (forall again: Op :: again.Renew? && again.presented == op.fresh_.renewal && again.device == s.device ==>
                  (Accepted(v.db, again) <==>
                     again.now < if s.persistent then op.now + w.settings.persistentRenewal else s.renewalExpiresAt))
            && (forall o :: o in w.db.sessions && o != id ==> o in v.db.sessions && v.db.sessions[o] == w.db.sessions[o])
  {
    var v, s := Step(w, op), w.db.sessions[id];
    StepInv(w, op);
    assert SessionOk(w, id);
    forall t ensures Resolve(v.db, op.fresh_.access, t) == Some(id) <==> t < op.now + w.settings.access {
      AuthenticatesIff(v, op.fresh_.access, t, id);
    }
    forall t ensures Resolve(v.db, s.access, t) != Some(id) {
      AuthenticatesIff(v, s.access, t, id);
    }
    forall again: Op | again.Renew? && again.presented == op.fresh_.renewal && again.device == s.device
      ensures Accepted(v.db, again) <==>
                again.now < if s.persistent then op.now + w.settings.persistentRenewal else s.renewalExpiresAt
    {
      RenewsIff(v, again, id);
    }
  }

  // ----- Revoking -----

  /** An account revokes its own session and the session's whole family, and nothing else; of
      another account's session it can revoke nothing. */
  lemma RevokesItsFamily(w: World, op: Op, id: Uuid)
    requires op.Revoke? && id in w.db.sessions
    ensures var v := Step(w, op);
            var own := op.id in w.db.sessions && w.db.sessions[op.id].account == op.account && op.account in w.db.accounts;
            && id in v.db.sessions
            && (own && (id == op.id || w.db.sessions[id].family == w.db.sessions[op.id].family) ==> v.db.sessions[id].revokedAt.Some?)
            && (own && id != op.id && w.db.sessions[id].family != w.db.sessions[op.id].family ==> v.db.sessions[id] == w.db.sessions[id])
            && (!own ==> v == w)
  {
  }

  /** After an accepted revocation no session of the family ever does anything again. */
  lemma RevokedFamilyIsDead(w: World, op: Op, run: seq<Op>, id: Uuid)
    requires Inv(w) && op.Revoke? && Accepted(w.db, op) && Enabled(w, op) && ValidRun(Step(w, op), run)
    requires id in w.db.sessions && (id == op.id || w.db.sessions[id].family == w.db.sessions[op.id].family)
    ensures Dead(AfterAll(Step(w, op), run).db, id)
  {
    RevokesItsFamily(w, op, id);
    StepInv(w, op);
    RevokedForever(Step(w, op), run, id);
  }

  /** A presented token that was rotated away does the same to the family it came from, and
      records when it was first seen again. */
  lemma ReusedFamilyIsDead(w: World, op: Op, run: seq<Op>, id: Uuid)
    requires Inv(w) && op.Renew? && op.presented in w.db.history && Enabled(w, op) && ValidRun(Step(w, op), run)
    requires id in w.db.sessions
    requires var from := w.db.history[op.presented].session;
             id == from || (from in w.db.sessions && w.db.sessions[id].family == w.db.sessions[from].family)
    ensures Dead(AfterAll(Step(w, op), run).db, id)
    ensures op.presented in Step(w, op).db.history && Step(w, op).db.history[op.presented].reuseDetectedAt.Some?
  {
    UsedTokenRevokes(w, op);
    NotCurrent(w, op.presented);
    assert UsedOk(w, op.presented);
    StepInv(w, op);
    RevokedForever(Step(w, op), run, id);
  }

  lemma NotCurrent(w: World, t: Token)
    requires Inv(w) && t in w.db.history
    ensures Holder(w.db.sessions, t) == None
  {
    assert forall s :: s in w.db.sessions ==> SessionOk(w, s);
  }

  /** A renewal that is refused for any other reason changes nothing. */
  lemma RefusedRenewalsChangeNothing(w: World, op: Op)
    requires op.Renew? && !Accepted(w.db, op) && op.presented !in w.db.history
    ensures Step(w, op) == w
  {
  }

  // ----- Administering accounts -----

  /** Logging out everywhere revokes every session of the account and none of another. */
  lemma LogoutRevokesAll(w: World, op: Op, id: Uuid)
    requires op.LogoutAll? && Accepted(w.db, op) && id in w.db.sessions
    ensures var v := Step(w, op);
            && id in v.db.sessions
            && (w.db.sessions[id].account == op.account ==> v.db.sessions[id].revokedAt.Some?)
            && (w.db.sessions[id].account != op.account ==> v.db.sessions[id] == w.db.sessions[id])
            && v.db.accounts[op.account].status == w.db.accounts[op.account].status
            && v.db.accounts[op.account].admin == w.db.accounts[op.account].admin
  {
  }

  /** An accepted change gives the account its new role and status and leaves every other
      account as it was; a new role or a deactivation revokes the account's sessions. */
  lemma RoleAndStatusAreSet(w: World, op: Op)
    requires op.SetRoleOrStatus? && Accepted(w.db, op)
    ensures var v, was := Step(w, op), w.db.accounts[op.account];
            && v.db.accounts[op.account].admin == op.admin && v.db.accounts[op.account].status == op.status
            && (forall a :: a in w.db.accounts && a != op.account ==> a in v.db.accounts && v.db.accounts[a] == w.db.accounts[a])
            && (was.admin != op.admin || op.status == Deactivated ==>
                  forall id :: id in v.db.sessions && v.db.sessions[id].account == op.account ==> v.db.sessions[id].revokedAt.Some?)
  {
  }

  predicate HasActiveAdmin(db: Db) {
    exists a :: a in db.accounts && db.accounts[a].admin && db.accounts[a].status == Active
  }

  /** Role and status changes never take away the last active administrator. */
  lemma AnActiveAdminRemains(w: World, op: Op)
    requires op.SetRoleOrStatus? && HasActiveAdmin(w.db)
    ensures HasActiveAdmin(Step(w, op).db)
  {
    if Accepted(w.db, op) {
      var a :| a in w.db.accounts && w.db.accounts[a].admin && w.db.accounts[a].status == Active;
      var v := Step(w, op).db;
      if a == op.account && !LastActiveAdmin(w.db, a) {
        var b :| b in w.db.accounts && b != a && w.db.accounts[b].admin && w.db.accounts[b].status == Active;
        assert b in v.accounts && v.accounts[b] == w.db.accounts[b];
      } else {
        assert a in v.accounts && v.accounts[a].admin && v.accounts[a].status == Active;
      }
    }
  }

  /** Locking, the end of a lock and the standing of the staff member change only whether the
      account may log in: no version, role or session. */
  lemma StandingOnly(w: World, op: Op)
    requires (op.LockByAttempts? || op.LiftExpiredLock? || op.SetStaffActive?) && Accepted(w.db, op)
    ensures var v, was := Step(w, op), w.db.accounts[op.account];
            && v.db.sessions == w.db.sessions && v.db.history == w.db.history
            && v.db.accounts.Keys == w.db.accounts.Keys
            && v.db.accounts[op.account] == Account(
                 was.version,
                 if op.LockByAttempts? then Locked else if op.LiftExpiredLock? then Active else was.status,
                 if op.SetStaffActive? then op.active else was.staffActive, was.admin)
            && (forall a :: a in w.db.accounts && a != op.account ==> v.db.accounts[a] == w.db.accounts[a])
  {
  }

  /** A reset PIN and an unlock lift a lock and revoke every session of the account. */
  lemma ResetAndUnlockFree(w: World, op: Op)
    requires (op.ResetPin? || op.Unlock?) && Accepted(w.db, op)
    ensures var v := Step(w, op);
            && v.db.accounts[op.account].status != Locked
            && (w.db.accounts[op.account].status == Deactivated ==> v.db.accounts[op.account].status == Deactivated)
            && v.db.accounts[op.account].admin == w.db.accounts[op.account].admin
            && forall id :: id in v.db.sessions && v.db.sessions[id].account == op.account ==> v.db.sessions[id].revokedAt.Some?
  {
  }
}
