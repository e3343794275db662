/**
 What each request on accounts, sessions and tokens does, told by rows and fields
 alone: when it is accepted, with which error it is refused, and every row it
 leaves behind. Then how every live session came about over a whole run.
 */
module AccountEffects {
  import opened Wrappers
  import opened Accounts

  /* ---- rows ---- */

  lemma RevokeAllExactly(sessions: map<Id, Session>, user: Id, now: Time)
    ensures var t := RevokeAll(sessions, user, now);
      && t.Keys == sessions.Keys
      && forall k | k in sessions ::
           t[k] == Session(sessions[k].user, sessions[k].tokenHash, sessions[k].expiresAt,
                           if sessions[k].user == user && sessions[k].revokedAt.None? then Some(now) else sessions[k].revokedAt)
  {
  }

  lemma BurnAllExactly(tokens: map<string, Token>, user: Id, now: Time)
    ensures var t := BurnAll(tokens, user, now);
      && t.Keys == tokens.Keys
      && forall h | h in tokens ::
           t[h] == Token(tokens[h].user, tokens[h].expiresAt,
                         if tokens[h].user == user && tokens[h].usedAt.None? then Some(now) else tokens[h].usedAt)
  {
  }

  predicate HashTaken(s: State, hash: string) { exists k | k in s.sessions :: s.sessions[k].tokenHash == hash }

  predicate Taken(s: State, email: string, other: Id) { exists u | u in s.users :: u != other && s.users[u].email == email }

  predicate InUse(s: State, user: Id) { user in s.users && s.users[user].disabledAt.None? }

  /* ---- registering and logging in ---- */

  /** A registration adds the account, unverified, its one token, and its first session, or nothing. */
  lemma RegisterEffect(s: State, c: Crypto, user: Id, email: string, password: string, verification: string,
                       session: Id, refresh: string, verifyBy: Time, expiresAt: Time, now: Time)
    requires Inv(s)
    ensures var op := DoRegister(user, email, password, verification, session, refresh, verifyBy, expiresAt, now);
      var o, t := Attempt(s, c, op), Step(s, c, op);
      && (o.error.None? <==>
            && user !in s.users && !Taken(s, email, user) && c.hash(verification) !in s.verifications
            && session !in s.history.root && !HashTaken(s, c.hash(refresh)))
      && (o.error.Some? ==> t == s && o.error == Some(Conflict))
      && (o.error.None? ==>
            && t.users == s.users[user := User(email, false, password, Member, Active, None, None)]
            && t.sessions == s.sessions[session := Session(user, c.hash(refresh), expiresAt, None)]
            && t.verifications == s.verifications[c.hash(verification) := Token(user, verifyBy, None)]
            && t.resets == s.resets
            && t.history.issuedFor == s.history.issuedFor[c.hash(verification) := email])
  {
    if user !in s.users { BurnNobodys(s.verifications, user, now); }
  }

  lemma BurnNobodys(tokens: map<string, Token>, user: Id, now: Time)
    requires forall h | h in tokens :: tokens[h].user != user
    ensures BurnAll(tokens, user, now) == tokens
  {
  }

  /** A login needs an account in use and the right password, and adds one session. */
  lemma LoginEffect(s: State, c: Crypto, user: Id, passwordValid: bool, session: Id, refresh: string, expiresAt: Time)
    ensures var o, t := Attempt(s, c, DoLogin(user, passwordValid, session, refresh, expiresAt)),
        Step(s, c, DoLogin(user, passwordValid, session, refresh, expiresAt));
      && (o.error.None? <==>
            && user in s.users && s.users[user].disabledAt.None? && passwordValid
            && session !in s.history.root && forall k | k in s.sessions :: s.sessions[k].tokenHash != c.hash(refresh))
      && (o.error.Some? ==> t == s)
      && (o.error == Some(AuthInvalid) <==> !(user in s.users && s.users[user].disabledAt.None? && passwordValid))
      && (o.error.Some? ==> o.error == Some(AuthInvalid) || o.error == Some(Conflict))
      && (o.error.None? ==>
            && t.sessions == s.sessions[session := Session(user, c.hash(refresh), expiresAt, None)]
            && t.users == s.users && t.resets == s.resets && t.verifications == s.verifications
            && t.history.root == s.history.root[session := session] && t.history.logins == s.history.logins[session := user])
  {
  }

  /** Whether a run registers `u`, or logs `u` in with a valid password, under session `r`. */
  predicate Starts(op: Op, r: Id, u: Id) {
    (op.DoRegister? && op.session == r && op.user == u) || (op.DoLogin? && op.session == r && op.user == u && op.passwordValid)
  }

  lemma LoginsStart(s: State, c: Crypto, op: Op, r: Id)
    requires r in Step(s, c, op).history.logins
    ensures (r in s.history.logins && Step(s, c, op).history.logins[r] == s.history.logins[r])
      || Starts(op, r, Step(s, c, op).history.logins[r])
  {
    StepGrowsLogins(s, c, op);
    if op.DoLogin? { LoginEffect(s, c, op.user, op.passwordValid, op.session, op.refresh, op.expiresAt); }
  }

  lemma {:induction false} RunStarts(s: State, c: Crypto, ops: seq<Op>, r: Id)
    requires r in Run(s, c, ops).history.logins
    ensures var u := Run(s, c, ops).history.logins[r];
      (r in s.history.logins && s.history.logins[r] == u) || exists i :: 0 <= i < |ops| && Starts(ops[i], r, u)
    decreases |ops|
  {
    if ops != [] {
      var t, u := Step(s, c, ops[0]), Run(s, c, ops).history.logins[r];
      RunStarts(t, c, ops[1..], r);
      if r in t.history.logins && t.history.logins[r] == u {
        LoginsStart(s, c, ops[0], r);
      } else {
        var i :| 0 <= i < |ops| - 1 && Starts(ops[1..][i], r, u);
        assert Starts(ops[i + 1], r, u);
      }
    }
  }

  /** In every run the chain of a live session began with a registration of its user or a login with a valid password. */
  lemma LiveWasLetIn(c: Crypto, ops: seq<Op>, k: Id)
    requires Live(Run(EMPTY, c, ops), k)
    ensures var s := Run(EMPTY, c, ops);
      k in s.history.root && exists i :: 0 <= i < |ops| && Starts(ops[i], s.history.root[k], s.sessions[k].user)
  {
    EmptyInv();
    RunKeepsInv(EMPTY, c, ops);
    RunStarts(EMPTY, c, ops, Run(EMPTY, c, ops).history.root[k]);
  }

  /* ---- rotating and logging out ---- */

  /** A genuine, unexpired refresh token, and the stored row it belongs to. */
  predicate Genuine(s: State, c: Crypto, q: Rotation) {
    var d := c.read(q.token);
    && d.Some? && d.value.refresh && d.value.expires > q.now
    && d.value.session in s.sessions
    && var row := s.sessions[d.value.session];
       row.user == d.value.user && row.expiresAt > q.now && row.tokenHash == c.hash(q.token)
  }

  /** Every way a rotation can end. */
  lemma RotateEffect(s: State, c: Crypto, q: Rotation)
    ensures var o, t := Attempt(s, c, DoRotate(q)), Step(s, c, DoRotate(q));
      if !Genuine(s, c, q) then o.error == Some(AuthInvalid) && t == s
      else
        var d := c.read(q.token).value;
        var row := s.sessions[d.session];
        if row.revokedAt.Some? then
          && o.error == Some(AuthInvalid) && t == s.(sessions := t.sessions) && t.sessions.Keys == s.sessions.Keys
          && forall k | k in s.sessions ::
               t.sessions[k] == s.sessions[k].(revokedAt := if s.sessions[k].user == d.user && s.sessions[k].revokedAt.None? then Some(q.now) else s.sessions[k].revokedAt)
        else if !(q.csrfHeader != "" && q.csrfHeader == q.csrfCookie && q.csrfHeader == d.csrf) then o.error == Some(CsrfFailed) && t == s
        else if !(d.user in s.users && s.users[d.user].disabledAt.None?) then o.error == Some(AuthInvalid) && t == s
        else if q.session in s.history.root || HashTaken(s, c.hash(q.refresh)) then o.error == Some(Conflict) && t == s
        else
          && o.error.None? && t == s.(sessions := t.sessions, history := t.history)
          && t.sessions == s.sessions[d.session := Session(row.user, row.tokenHash, row.expiresAt, Some(q.now))]
                                     [q.session := Session(d.user, c.hash(q.refresh), q.expiresAt, None)]
  {
    if Genuine(s, c, q) {
      var d := c.read(q.token).value;
      var s1 := s.(sessions := s.sessions[d.session := s.sessions[d.session].(revokedAt := Some(q.now))]);
      assert forall k | k in s1.sessions :: k in s.sessions && s1.sessions[k].tokenHash == s.sessions[k].tokenHash;
      assert HashTaken(s1, c.hash(q.refresh)) <==> HashTaken(s, c.hash(q.refresh)) by {
        if k :| k in s.sessions && s.sessions[k].tokenHash == c.hash(q.refresh) { assert s1.sessions[k].tokenHash == c.hash(q.refresh); }
      }
    }
  }

  /** Logging out revokes that live session of that user, from then on, and touches nothing else. */
  lemma LogoutEffect(s: State, c: Crypto, session: Id, user: Id, now: Time, ops: seq<Op>, token: string, later: Time)
    requires Inv(s)
    ensures var t := Step(s, c, DoLogout(session, user, now));
      && t == s.(sessions := t.sessions) && t.sessions.Keys == s.sessions.Keys
      && (forall k | k in s.sessions :: t.sessions[k] ==
            if k == session && s.sessions[k].user == user && s.sessions[k].revokedAt.None?
            then Session(user, s.sessions[k].tokenHash, s.sessions[k].expiresAt, Some(now)) else s.sessions[k])
    ensures session in s.sessions && s.sessions[session].user == user ==>
      Authenticate(Run(Step(s, c, DoLogout(session, user, now)), c, ops), c, token, later) != Ok((user, session))
  {
    if session in s.sessions && s.sessions[session].user == user {
      DeadForever(Step(s, c, DoLogout(session, user, now)), c, ops, session);
    }
  }

  /* ---- passwords ---- */

  /** Asking for a reset: for an account in use the new token is the one unused one; for any other nothing happens. */
  lemma RequestResetEffect(s: State, c: Crypto, user: Id, token: string, expiresAt: Time, now: Time)
    requires Inv(s)
    ensures var o, t := Attempt(s, c, DoRequestReset(user, token, expiresAt, now)), Step(s, c, DoRequestReset(user, token, expiresAt, now));
      && (!InUse(s, user) ==> o.error.None? && t == s)
      && (InUse(s, user) && c.hash(token) in s.history.resetHashes ==> o.error == Some(Conflict) && t == s)
      && (InUse(s, user) && c.hash(token) !in s.history.resetHashes ==>
            && o.error.None? && t == s.(resets := t.resets, history := t.history)
            && t.resets.Keys == s.resets.Keys + {c.hash(token)}
            && t.resets[c.hash(token)] == Token(user, expiresAt, None)
            && forall h | h in s.resets :: t.resets[h] == Token(s.resets[h].user, s.resets[h].expiresAt,
                 if s.resets[h].user == user && s.resets[h].usedAt.None? then Some(now) else s.resets[h].usedAt))
  {
  }

  /** A reset needs an unused, unexpired token of an account in use; it stores the password, uses up the token, and revokes the sessions. */
  lemma ResetPasswordEffect(s: State, c: Crypto, token: string, password: string, now: Time)
    ensures var o, t, h := Attempt(s, c, DoResetPassword(token, password, now)), Step(s, c, DoResetPassword(token, password, now)), c.hash(token);
      && (o.error.None? <==> h in s.resets && s.resets[h].usedAt.None? && s.resets[h].expiresAt > now && InUse(s, s.resets[h].user))
      && (o.error.Some? ==> o.error == Some(AuthInvalid) && t == s)
      && (o.error.None? ==>
            var u := s.resets[h].user;
            && t == s.(users := t.users, resets := t.resets, sessions := t.sessions)
            && t.users == s.users[u := s.users[u].(password := password)]
            && t.resets == s.resets[h := Token(u, s.resets[h].expiresAt, Some(now))]
            && t.sessions.Keys == s.sessions.Keys
            && forall k | k in s.sessions :: t.sessions[k] ==
                 s.sessions[k].(revokedAt := if s.sessions[k].user == u && s.sessions[k].revokedAt.None? then Some(now) else s.sessions[k].revokedAt))
  {
  }

  /* ---- addresses ---- */

  /** Asking for another verification mail: only for an unverified account in use, and only the new token stays unused. */
  lemma ResendEffect(s: State, c: Crypto, user: Id, token: string, expiresAt: Time, now: Time)
    ensures var o, t, h := Attempt(s, c, DoResend(user, token, expiresAt, now)), Step(s, c, DoResend(user, token, expiresAt, now)), c.hash(token);
      && (!InUse(s, user) ==> o.error == Some(AuthInvalid) && t == s)
      && (InUse(s, user) && s.users[user].verified ==> o.error.None? && t == s)
      && (InUse(s, user) && !s.users[user].verified && h in s.verifications ==> o.error == Some(Conflict) && t == s)
      && (InUse(s, user) && !s.users[user].verified && h !in s.verifications ==>
            && o.error.None? && t == s.(verifications := t.verifications, history := t.history)
            && t.verifications.Keys == s.verifications.Keys + {h} && t.verifications[h] == Token(user, expiresAt, None)
            && t.history.issuedFor == s.history.issuedFor[h := s.users[user].email]
            && forall g | g in s.verifications :: t.verifications[g] == Token(s.verifications[g].user, s.verifications[g].expiresAt,
                 if s.verifications[g].user == user && s.verifications[g].usedAt.None? then Some(now) else s.verifications[g].usedAt))
  {
  }

  /** Verifying: an unused, unexpired token verifies its account once; a used one is only accepted again while its account is verified. */
  lemma VerifyEffect(s: State, c: Crypto, token: string, now: Time)
    ensures var o, t, h := Attempt(s, c, DoVerify(token, now)), Step(s, c, DoVerify(token, now)), c.hash(token);
      var known := h in s.verifications && s.verifications[h].user in s.users;
      && (o.error.None? <==>
            known && if s.verifications[h].usedAt.Some? then s.users[s.verifications[h].user].verified else s.verifications[h].expiresAt > now)
      && (o.error.Some? ==> o.error == Some(VerificationInvalid) && t == s)
      && (o.error.None? && s.verifications[h].usedAt.Some? ==> t == s)
      && (o.error.None? && s.verifications[h].usedAt.None? ==>
            var u := s.verifications[h].user;
            && t == s.(users := t.users, verifications := t.verifications, history := t.history)
            && t.users == s.users[u := s.users[u].(verified := true)]
            && t.verifications == s.verifications[h := Token(u, s.verifications[h].expiresAt, Some(now))])
  {
  }

  /** A new address is unverified, and no token from before is left unused. */
  lemma ChangeEmailEffect(s: State, c: Crypto, user: Id, email: string, now: Time)
    ensures var o, t := Attempt(s, c, DoChangeEmail(user, email, now)), Step(s, c, DoChangeEmail(user, email, now));
      && (o.error == Some(AuthInvalid) <==> !InUse(s, user))
      && (o.error == Some(Conflict) <==> InUse(s, user) && exists u | u in s.users :: u != user && s.users[u].email == email)
      && (o.error.Some? ==> t == s)
      && (o.error.None? ==>
            && t == s.(users := t.users, verifications := t.verifications)
            && t.users == s.users[user := s.users[user].(email := email, verified := false)]
            && t.verifications.Keys == s.verifications.Keys
            && forall g | g in s.verifications :: t.verifications[g] == Token(s.verifications[g].user, s.verifications[g].expiresAt,
                 if s.verifications[g].user == user && s.verifications[g].usedAt.None? then Some(now) else s.verifications[g].usedAt))
      && (o.error.Some? ==> o.error == Some(AuthInvalid) || o.error == Some(Conflict))
  {
  }

  /* ---- moderation ---- */

  /** Who may moderate whom: nobody an administrator or themselves, and a moderator only ban a plain member, with a reason. */
  predicate MayModerate(s: State, actor: Id, user: Id, ban: bool, reasoned: bool)
    requires user in s.users && actor in s.users
  {
    && user != actor && s.users[user].role != Admin
    && (s.users[actor].role == Moderator ==> ban && s.users[user].role == Member && reasoned)
  }

  lemma ModerateEffect(s: State, c: Crypto, actor: Id, user: Id, action: Action, reasoned: bool, now: Time)
    ensures var o, t := Attempt(s, c, DoModerate(actor, user, action, reasoned, now)), Step(s, c, DoModerate(actor, user, action, reasoned, now));
      var known := user in s.users && actor in s.users;
      && (o.error == Some(NotFound) <==> !known)
      && (o.error == Some(Forbidden) <==> known && !MayModerate(s, actor, user, action.Ban?, reasoned))
      && (o.error == Some(ValidationError) <==> known && MayModerate(s, actor, user, action.Ban?, reasoned) && action.Mute? && action.until <= now)
      && (o.error.Some? ==> t == s && o.error.value in {NotFound, Forbidden, ValidationError})
      && (o.error.None? ==>
            var u := s.users[user];
            && t == s.(users := t.users, sessions := t.sessions) && t.sessions.Keys == s.sessions.Keys
            && t.users == s.users[user := User(u.email, u.verified, u.password, u.role,
                 if action.Ban? then Banned else if action.Unban? then Active else u.status,
                 if action.Ban? then Some(now) else if action.Unban? then None else u.disabledAt,
                 if action.Mute? then Some(action.until) else if action.Unban? then u.mutedUntil else None)]
            && forall k | k in s.sessions :: t.sessions[k] ==
                 s.sessions[k].(revokedAt := if action.Ban? && s.sessions[k].user == user && s.sessions[k].revokedAt.None? then Some(now) else s.sessions[k].revokedAt))
  {
  }

  /** Erasing: the account is closed under the tombstone, its sessions and reset tokens go, and nobody else's. */
  lemma DeleteEffect(s: State, c: Crypto, actor: Id, user: Id, tombstone: string, now: Time)
    ensures var o, t := Attempt(s, c, DoDelete(actor, user, tombstone, now)), Step(s, c, DoDelete(actor, user, tombstone, now));
      && (o.error == Some(NotFound) <==> user !in s.users)
      && (o.error == Some(Forbidden) <==> user in s.users && (user == actor || s.users[user].role == Admin))
      && (o.error == Some(Conflict) <==> user in s.users && user != actor && s.users[user].role != Admin && Taken(s, tombstone, user))
      && (o.error.Some? ==> t == s && o.error.value in {NotFound, Forbidden, Conflict})
      && (o.error.None? ==>
            var u := s.users[user];
            && t.users == s.users[user := User(tombstone, u.verified, "deleted", u.role, Deleted, Some(now), None)]
            && t.verifications == s.verifications
            && (forall k :: k in t.sessions <==> k in s.sessions && s.sessions[k].user != user)
            && (forall k | k in t.sessions :: t.sessions[k] == s.sessions[k])
            && (forall h :: h in t.resets <==> h in s.resets && s.resets[h].user != user)
            && (forall h | h in t.resets :: t.resets[h] == s.resets[h]))
  {
  }

  lemma ChangeRoleEffect(s: State, c: Crypto, actor: Id, user: Id, role: Role)
    ensures var o, t := Attempt(s, c, DoChangeRole(actor, user, role)), Step(s, c, DoChangeRole(actor, user, role));
      && (o.error == Some(NotFound) <==> user !in s.users)
      && (o.error == Some(Forbidden) <==> user in s.users && (user == actor || s.users[user].role == Admin || role == Admin))
      && (o.error.Some? ==> t == s && o.error.value in {NotFound, Forbidden})
      && (o.error.None? ==> t == s.(users := s.users[user := s.users[user].(role := role)]))
  {
  }

  /* ---- access ---- */

  /** Which access tokens are let in, and with which error the others are refused. */
  lemma AuthenticateEffect(s: State, c: Crypto, token: string, now: Time)
    ensures var r, d := Authenticate(s, c, token, now), c.read(token);
      && (r.Ok? <==>
            && token != "" && d.Some? && !d.value.refresh && d.value.expires > now
            && d.value.user in s.users && s.users[d.value.user].disabledAt.None?
            && d.value.session in s.sessions && s.sessions[d.value.session].user == d.value.user
            && s.sessions[d.value.session].revokedAt.None? && s.sessions[d.value.session].expiresAt > now)
      && (r.Ok? ==> r.value == (d.value.user, d.value.session))
      && (r.Err? ==> r.error == if token == "" then AuthRequired else AuthInvalid)
  {
  }
}
