/** Runs of the session service: any interleaving of logins, renewals by honest and
    dishonest holders, PIN changes and administrative actions. */
module SessionRuns {
  import opened Base
  import opened Sessions

  datatype World = World(db: Db, settings: Settings, issued: set<Token>, renewals: set<Token>)

  predicate Issues(op: Op) {
    op.Create? || op.Renew? || op.ChangePin?
  }

  /** New identifiers and tokens are fresh. */
  ghost predicate Enabled(w: World, op: Op) {
    && (Issues(op) ==> op.fresh_.access !in w.issued && op.fresh_.renewal !in w.issued && op.fresh_.access != op.fresh_.renewal)
    && (op.Create? ==> op.id !in w.db.sessions && forall s :: s in w.db.sessions ==> w.db.sessions[s].family != op.family)
  }

  ghost function Step(w: World, op: Op): World {
    var issues := Issues(op) && Accepted(w.db, op);
    World(After(w.db, op, w.settings), w.settings,
          if issues then w.issued + {op.fresh_.access, op.fresh_.renewal} else w.issued,
          if issues then w.renewals + {op.fresh_.renewal} else w.renewals)
  }

  ghost predicate ValidRun(w: World, run: seq<Op>)
    decreases |run|
  {
    run != [] ==> Enabled(w, run[0]) && ValidRun(Step(w, run[0]), run[1..])
  }

  ghost function AfterAll(w: World, run: seq<Op>): World
    decreases |run|
  {
    if run == [] then w else AfterAll(Step(w, run[0]), run[1..])
  }

  function Start(accounts: map<Uuid, Account>, settings: Settings): World {
    World(Db(accounts, map[], map[]), settings, {}, {})
  }

  // ----- The invariant -----

  predicate SessionOk(w: World, id: Uuid)
    requires id in w.db.sessions
  {
    var s := w.db.sessions[id];
    && s.renewal in w.renewals && s.access in w.issued && s.renewal !in w.db.history
    && s.account in w.db.accounts && s.version <= w.db.accounts[s.account].version
    && (!s.persistent ==>
          && s.renewalExpiresAt == s.createdAt + w.settings.renewal
          && s.accessExpiresAt <= s.createdAt + w.settings.renewal + w.settings.access)
  }

  predicate UsedOk(w: World, t: Token)
    requires t in w.db.history
  {
    t in w.renewals && w.db.history[t].session in w.db.sessions
  }

  ghost predicate UniqueFamilies(db: Db) {
    forall a, b :: a in db.sessions && b in db.sessions && a != b ==> db.sessions[a].family != db.sessions[b].family
  }

  ghost predicate CurrentOrUsed(w: World, t: Token) {
    t in w.db.history || exists s :: s in w.db.sessions && w.db.sessions[s].renewal == t
  }

  ghost predicate Inv(w: World) {
    && w.settings.renewal > 0 && w.settings.access > 0
    && w.renewals <= w.issued
    && (forall s :: s in w.db.sessions ==> SessionOk(w, s))
    && (forall t :: t in w.db.history ==> UsedOk(w, t))
    && (forall t :: t in w.renewals ==> CurrentOrUsed(w, t))
    && UniqueTokens(w.db.sessions)
    && UniqueFamilies(w.db)
  }

  /** What no step changes about a session, and what revocation freezes. */
  predicate Evolves(s: Session, later: Session) {
    && later.account == s.account && later.family == s.family && later.device == s.device
    && later.persistent == s.persistent && later.createdAt == s.createdAt && later.version >= s.version
    && (s.revokedAt.Some? ==> later == s)
  }

  /** The session whose tokens an accepted operation rotates. */
  ghost function Target(db: Db, op: Op): Option<Uuid> {
    if !Accepted(db, op) then None
    else if op.Renew? then Holder(db.sessions, op.presented)
    else if op.ChangePin? then Some(op.id)
    else None
  }

  lemma SessionEvolves(w: World, op: Op, id: Uuid)
    requires id in w.db.sessions && SessionOk(w, id) && Enabled(w, op)
    ensures var v := Step(w, op);
            && id in v.db.sessions && Evolves(w.db.sessions[id], v.db.sessions[id])
            && v.db.sessions[id].account in v.db.accounts
            && v.db.sessions[id].version <= v.db.accounts[v.db.sessions[id].account].version
  {
    if op.Renew? || op.ChangePin? {
      RotationEvolves(w, op, id);
    }
  }

  lemma RotationEvolves(w: World, op: Op, id: Uuid)
    requires id in w.db.sessions && SessionOk(w, id) && Enabled(w, op) && (op.Renew? || op.ChangePin?)
    ensures var v := Step(w, op);
            && id in v.db.sessions && Evolves(w.db.sessions[id], v.db.sessions[id])
            && v.db.sessions[id].account in v.db.accounts
            && v.db.sessions[id].version <= v.db.accounts[v.db.sessions[id].account].version
  {
  }

  lemma SessionTimes(w: World, op: Op, id: Uuid)
    requires id in w.db.sessions && SessionOk(w, id) && Enabled(w, op)
    requires w.settings.renewal > 0 && w.settings.access > 0
    ensures var v := Step(w, op);
            && id in v.db.sessions
            && (!v.db.sessions[id].persistent ==>
                  && v.db.sessions[id].renewalExpiresAt == v.db.sessions[id].createdAt + w.settings.renewal
                  && v.db.sessions[id].accessExpiresAt <= v.db.sessions[id].createdAt + w.settings.renewal + w.settings.access)
  {
  }

  lemma StepSession(w: World, op: Op, id: Uuid)
    requires id in w.db.sessions && SessionOk(w, id) && Enabled(w, op)
    requires w.settings.renewal > 0 && w.settings.access > 0
    ensures var v := Step(w, op);
            && id in v.db.sessions && Evolves(w.db.sessions[id], v.db.sessions[id])
            && v.db.sessions[id].account in v.db.accounts
            && v.db.sessions[id].version <= v.db.accounts[v.db.sessions[id].account].version
            && (if Target(w.db, op) == Some(id)
                then v.db.sessions[id].renewal == op.fresh_.renewal && v.db.sessions[id].access == op.fresh_.access
                     && w.db.sessions[id].renewal in v.db.history && v.db.history[w.db.sessions[id].renewal].session == id
                else v.db.sessions[id].renewal == w.db.sessions[id].renewal && v.db.sessions[id].access == w.db.sessions[id].access
                     && v.db.sessions[id].version == w.db.sessions[id].version)
            && (!v.db.sessions[id].persistent ==>
                  && v.db.sessions[id].renewalExpiresAt == v.db.sessions[id].createdAt + w.settings.renewal
                  && v.db.sessions[id].accessExpiresAt <= v.db.sessions[id].createdAt + w.settings.renewal + w.settings.access)
  {
    SessionEvolves(w, op, id);
    SessionTimes(w, op, id);
  }

  /** A step adds to the history exactly the renewal token it rotates away. */
  lemma StepHistory(w: World, op: Op)
    requires forall s :: s in w.db.sessions ==> w.db.sessions[s].renewal !in w.db.history
    ensures var v := Step(w, op);
            && (forall t :: t in w.db.history ==> t in v.db.history && v.db.history[t].session == w.db.history[t].session)
            && (forall t :: t in v.db.history && t !in w.db.history ==>
                  && Target(w.db, op).Some? && Target(w.db, op).value in w.db.sessions
                  && t == w.db.sessions[Target(w.db, op).value].renewal
                  && v.db.history[t].session == Target(w.db, op).value)
            && (forall s :: s in v.db.sessions && s !in w.db.sessions ==> op.Create? && s == op.id && Accepted(w.db, op))
            && (forall a :: a in w.db.accounts ==> a in v.db.accounts && w.db.accounts[a].version <= v.db.accounts[a].version)
  {
  }

  lemma StepInv(w: World, op: Op)
    requires Inv(w) && Enabled(w, op)
    ensures Inv(Step(w, op))
  {
    var v := Step(w, op);
    StepHistory(w, op);
    forall s | s in w.db.sessions
      ensures s in v.db.sessions && Evolves(w.db.sessions[s], v.db.sessions[s])
    {
      StepSession(w, op, s);
    }
    forall s | s in v.db.sessions ensures SessionOk(v, s) {
      if s in w.db.sessions {
        StepSession(w, op, s);
        TokenNotUsed(w, op, s);
      }
    }
    forall t | t in v.db.history ensures UsedOk(v, t) {
      if t in w.db.history {
        assert UsedOk(w, t);
      }
    }
    StepTokens(w, op);
    StepUnique(w, op);
  }

  lemma TokenNotUsed(w: World, op: Op, s: Uuid)
    requires Inv(w) && Enabled(w, op) && s in w.db.sessions
    ensures Step(w, op).db.sessions[s].renewal !in Step(w, op).db.history
  {
    StepHistory(w, op);
    StepSession(w, op, s);
    assert SessionOk(w, s);
    if Target(w.db, op).Some? {
      assert SessionOk(w, Target(w.db, op).value);
    }
  }

  lemma StepTokens(w: World, op: Op)
    requires Inv(w) && Enabled(w, op)
    ensures forall t :: t in Step(w, op).renewals ==> CurrentOrUsed(Step(w, op), t)
  {
    var v := Step(w, op);
    StepHistory(w, op);
    forall t | t in v.renewals ensures CurrentOrUsed(v, t) {
      if t in w.renewals {
        assert CurrentOrUsed(w, t);
        if t !in w.db.history {
          var s :| s in w.db.sessions && w.db.sessions[s].renewal == t;
          StepSession(w, op, s);
          assert v.db.sessions[s].renewal == t || t in v.db.history;
        }
      } else {
        var s := if op.Create? then op.id else Target(w.db, op).value;
        if !op.Create? {
          StepSession(w, op, s);
        }
        assert v.db.sessions[s].renewal == t;
      }
    }
  }

  lemma StepUnique(w: World, op: Op)
    requires Inv(w) && Enabled(w, op)
    ensures UniqueTokens(Step(w, op).db.sessions) && UniqueFamilies(Step(w, op).db)
  {
    var v := Step(w, op);
    StepHistory(w, op);
    forall a, b | a in v.db.sessions && b in v.db.sessions && a != b
      ensures v.db.sessions[a].renewal != v.db.sessions[b].renewal && v.db.sessions[a].access != v.db.sessions[b].access
      ensures v.db.sessions[a].family != v.db.sessions[b].family
    {
      if a in w.db.sessions {
        StepSession(w, op, a);
        assert SessionOk(w, a);
      }
      if b in w.db.sessions {
        StepSession(w, op, b);
        assert SessionOk(w, b);
      }
    }
  }

  lemma {:induction false} RunInv(w: World, run: seq<Op>)
    requires Inv(w) && ValidRun(w, run)
    ensures Inv(AfterAll(w, run))
    decreases |run|
  {
    if run != [] {
      StepInv(w, run[0]);
      RunInv(Step(w, run[0]), run[1..]);
    }
  }

  // ----- Renewal tokens -----

  /** In every run every renewal token ever issued is the current token of a session or
      a used one, and never both. */
  lemma EveryTokenIsCurrentOrUsed(accounts: map<Uuid, Account>, settings: Settings, run: seq<Op>, t: Token)
    requires settings.renewal > 0 && settings.access > 0 && ValidRun(Start(accounts, settings), run)
    ensures var w := AfterAll(Start(accounts, settings), run);
            t in w.renewals ==> (t in w.db.history <==> !exists s :: s in w.db.sessions && w.db.sessions[s].renewal == t)
  {
    var w := AfterAll(Start(accounts, settings), run);
    RunInv(Start(accounts, settings), run);
    if t in w.renewals {
      assert CurrentOrUsed(w, t);
      forall s | s in w.db.sessions ensures w.db.sessions[s].renewal !in w.db.history {
        assert SessionOk(w, s);
      }
    }
  }

  lemma {:induction false} HistoryOnlyGrows(w: World, run: seq<Op>, t: Token)
    requires Inv(w) && ValidRun(w, run) && t in w.db.history
    ensures t in AfterAll(w, run).db.history && AfterAll(w, run).db.history[t].session == w.db.history[t].session
    decreases |run|
  {
    if run != [] {
      StepHistory(w, run[0]);
      StepInv(w, run[0]);
      HistoryOnlyGrows(Step(w, run[0]), run[1..], t);
    }
  }

  /** A used token yields nothing, and presenting it revokes the session it came from. */
  lemma UsedTokenRevokes(w: World, op: Op)
    requires Inv(w) && op.Renew? && op.presented in w.db.history
    ensures !Accepted(w.db, op)
    ensures var id := w.db.history[op.presented].session;
            id in Step(w, op).db.sessions && Step(w, op).db.sessions[id].revokedAt.Some?
  {
    assert UsedOk(w, op.presented);
    forall s | s in w.db.sessions ensures w.db.sessions[s].renewal !in w.db.history {
      assert SessionOk(w, s);
    }
  }

  /** Each renewal token yields new credentials at most once: after a renewal, however
      the run goes on, the same token is refused and revokes the session. */
  lemma RenewsAtMostOnce(w: World, first: Op, run: seq<Op>, again: Op)
    requires Inv(w) && Enabled(w, first) && first.Renew? && Accepted(w.db, first)
    requires ValidRun(Step(w, first), run) && again.Renew? && again.presented == first.presented
    ensures var v := AfterAll(Step(w, first), run);
            var id := Holder(w.db.sessions, first.presented).value;
            && !Accepted(v.db, again)
            && id in Step(v, again).db.sessions && Step(v, again).db.sessions[id].revokedAt.Some?
  {
    var id := Holder(w.db.sessions, first.presented).value;
    StepSession(w, first, id);
    StepInv(w, first);
    RunInv(Step(w, first), run);
    HistoryOnlyGrows(Step(w, first), run, first.presented);
    UsedTokenRevokes(AfterAll(Step(w, first), run), again);
  }

  /** No operation brings a revoked session back: its row never changes, and neither its
      access token, its renewal token nor a PIN change works. */
  lemma {:induction false} RevokedForever(w: World, run: seq<Op>, id: Uuid)
    requires Inv(w) && ValidRun(w, run) && id in w.db.sessions && w.db.sessions[id].revokedAt.Some?
    ensures var v := AfterAll(w, run);
            && id in v.db.sessions && v.db.sessions[id] == w.db.sessions[id]
            && (forall t, now :: Resolve(v.db, t, now) != Some(id))
            && (forall op :: Accepted(v.db, op) && op.Renew? ==> Holder(v.db.sessions, op.presented) != Some(id))
            && (forall op :: Accepted(v.db, op) && op.ChangePin? ==> op.id != id)
    decreases |run|
  {
    if run != [] {
      StepSession(w, run[0], id);
      StepInv(w, run[0]);
      RevokedForever(Step(w, run[0]), run[1..], id);
    }
  }

  // ----- Account versions -----

  predicate Outdated(db: Db, id: Uuid) {
    id in db.sessions && db.sessions[id].account in db.accounts
    && db.sessions[id].version < db.accounts[db.sessions[id].account].version
  }

  predicate Invalidates(op: Op) {
    op.LogoutAll? || op.SetRoleOrStatus? || op.ResetPin? || op.Unlock?
  }

  /** Logging out everywhere, changing role or status, resetting the PIN and unlocking
      each outdate every session the account has. */
  lemma InvalidationOutdatesAll(w: World, op: Op, id: Uuid)
    requires Inv(w) && Enabled(w, op) && Invalidates(op) && Accepted(w.db, op)
    requires id in w.db.sessions && w.db.sessions[id].account == op.account
    ensures Outdated(Step(w, op).db, id)
  {
    assert SessionOk(w, id);
  }

  /** A changed PIN outdates and revokes every session of the account but the one used. */
  lemma PinChangeLeavesOneSession(w: World, op: Op, id: Uuid)
    requires Inv(w) && Enabled(w, op) && op.ChangePin? && Accepted(w.db, op)
    requires id in w.db.sessions && w.db.sessions[id].account == op.account && id != op.id
    ensures Outdated(Step(w, op).db, id) && Step(w, op).db.sessions[id].revokedAt.Some?
    ensures Usable(Step(w, op).db, op.id, op.now)
  {
    assert SessionOk(w, id);
  }

  /** An outdated session stays outdated, and never again authenticates, renews or
      changes a PIN. */
  lemma {:induction false} OutdatedForever(w: World, run: seq<Op>, id: Uuid)
    requires Inv(w) && ValidRun(w, run) && Outdated(w.db, id)
    ensures var v := AfterAll(w, run);
            && Outdated(v.db, id)
            && (forall t, now :: Resolve(v.db, t, now) != Some(id))
            && (forall op :: Accepted(v.db, op) && op.Renew? ==> Holder(v.db.sessions, op.presented) != Some(id))
            && (forall op :: Accepted(v.db, op) && op.ChangePin? ==> op.id != id)
    decreases |run|
  {
    if run != [] {
      OutdatedStep(w, run[0], id);
      StepInv(w, run[0]);
      OutdatedForever(Step(w, run[0]), run[1..], id);
    }
  }

  lemma OutdatedStep(w: World, op: Op, id: Uuid)
    requires Inv(w) && Enabled(w, op) && Outdated(w.db, id)
    ensures Outdated(Step(w, op).db, id)
  {
    assert SessionOk(w, id);
    StepHistory(w, op);
    StepSession(w, op, id);
  }

  // ----- Lifetimes -----

  /** Through any number of renewals and PIN changes, a session that is not persistent
      never authenticates past its creation plus one renewal and one access lifetime. */
  lemma NonpersistentSessionsEnd(accounts: map<Uuid, Account>, settings: Settings, run: seq<Op>, t: Token, now: Instant)
    requires settings.renewal > 0 && settings.access > 0 && ValidRun(Start(accounts, settings), run)
    ensures var db := AfterAll(Start(accounts, settings), run).db;
            var who := Resolve(db, t, now);
            who.Some? ==>
              && who.value in db.sessions
              && (!db.sessions[who.value].persistent ==>
                    now < db.sessions[who.value].createdAt + settings.renewal + settings.access)
  {
    var w := AfterAll(Start(accounts, settings), run);
    RunInv(Start(accounts, settings), run);
    SettingsStay(Start(accounts, settings), run);
    var who := Resolve(w.db, t, now);
    if who.Some? {
      assert SessionOk(w, who.value);
    }
  }

  lemma {:induction false} SettingsStay(w: World, run: seq<Op>)
    ensures AfterAll(w, run).settings == w.settings
    decreases |run|
  {
    if run != [] {
      SettingsStay(Step(w, run[0]), run[1..]);
    }
  }
}
