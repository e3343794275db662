/**
 Accounts, refresh sessions, password-reset and e-mail-verification tokens as one
 state machine. Tokens reach the tables only as hashes, so both token tables are
 keyed by hash. A step is one committed request; a request that raises changes
 nothing, except the replay of a revoked refresh token, which is committed.

 `History` is what the tables forget: which session continues which login, which
 address a verification token was issued for, which tokens were redeemed rather
 than burned, and which accounts were erased.
 */
module Accounts {
  import opened Wrappers
  import Finite

  type Id = int
  type Time = int

  datatype Role = Member | Moderator | Admin
  datatype Status = Active | Banned | Deleted
  datatype User = User(email: string, verified: bool, password: string, role: Role, status: Status,
                       disabledAt: Option<Time>, mutedUntil: Option<Time>)
  datatype Session = Session(user: Id, tokenHash: string, expiresAt: Time, revokedAt: Option<Time>)
  datatype Token = Token(user: Id, expiresAt: Time, usedAt: Option<Time>)

  datatype History = History(
    root: map<Id, Id>,            // every session ever opened, and the login its chain began with
    newest: map<Id, Id>,          // per login, the last session of its chain
    logins: map<Id, Id>,          // per login (or registration), its user
    resetHashes: set<string>,     // every reset token ever issued
    issuedFor: map<string, string>, // per verification token, the address it was mailed to
    redeemed: set<string>,        // verification tokens used by verify_email
    erased: set<Id>               // users that went through delete_user
  )

  datatype State = State(users: map<Id, User>, sessions: map<Id, Session>, resets: map<string, Token>,
                         verifications: map<string, Token>, history: History)

  datatype Error = AuthInvalid | AuthRequired | CsrfFailed | Conflict | NotFound | Forbidden | ValidationError | VerificationInvalid

  datatype Outcome = Outcome(after: State, error: Option<Error>)

  function Fail(s: State, e: Error): Outcome { Outcome(s, Some(e)) }
  function Done(s: State): Outcome { Outcome(s, None) }

  /** What a signed token says; None for a bad signature. */
  datatype Claims = Claims(refresh: bool, user: Id, session: Id, csrf: string, expires: Time)

  /** The cryptography the services call: token signatures and SHA-256. */
  datatype Crypto = Crypto(read: string -> Option<Claims>, hash: string -> string)

  function Decode(c: Crypto, token: string, refresh: bool, now: Time): Option<Claims> {
    var claims :- c.read(token);
    if claims.refresh == refresh && claims.expires > now then Some(claims) else None
  }

  /* ---- rows ---- */

  function RevokeAll(sessions: map<Id, Session>, user: Id, now: Time): map<Id, Session> {
    map k | k in sessions ::
      if sessions[k].user == user && sessions[k].revokedAt.None? then sessions[k].(revokedAt := Some(now)) else sessions[k]
  }

  function BurnAll(tokens: map<string, Token>, user: Id, now: Time): map<string, Token> {
    map k | k in tokens ::
      if tokens[k].user == user && tokens[k].usedAt.None? then tokens[k].(usedAt := Some(now)) else tokens[k]
  }

  /** create_session; `parent` is the session being rotated, if any. */
  function OpenSession(s: State, user: Id, id: Id, tokenHash: string, expiresAt: Time, parent: Option<Id>): Outcome {
    if id in s.history.root || exists k | k in s.sessions :: s.sessions[k].tokenHash == tokenHash then Fail(s, Conflict)
    else
      var h := s.history;
      var r := if parent.Some? && parent.value in h.root then h.root[parent.value] else id;
      Done(s.(sessions := s.sessions[id := Session(user, tokenHash, expiresAt, None)],
              history := h.(root := h.root[id := r], newest := h.newest[r := id],
                            logins := if parent.Some? then h.logins else h.logins[id := user])))
  }

  /** create_email_verification */
  function IssueVerification(s: State, user: Id, hash: string, expiresAt: Time, now: Time): Outcome
    requires user in s.users
  {
    if hash in s.verifications then Fail(s, Conflict)
    else Done(s.(verifications := BurnAll(s.verifications, user, now)[hash := Token(user, expiresAt, None)],
                 history := s.history.(issuedFor := s.history.issuedFor[hash := s.users[user].email])))
  }

  predicate EmailTaken(s: State, email: string, other: Id) {
    exists u | u in s.users :: u != other && s.users[u].email == email
  }

  predicate Enabled(s: State, user: Id) { user in s.users && s.users[user].disabledAt.None? }

  predicate Live(s: State, sid: Id) { sid in s.sessions && s.sessions[sid].revokedAt.None? }

  /* ---- requests ---- */

  /** POST /register: the user, a verification token and a first session, in one transaction. */
  function Register(s: State, c: Crypto, user: Id, email: string, password: string, verification: string,
                    session: Id, refresh: string, verifyBy: Time, expiresAt: Time, now: Time): Outcome
  {
    if user in s.users || EmailTaken(s, email, user) then Fail(s, Conflict)
    else
      var s1 := s.(users := s.users[user := User(email, false, password, Member, Active, None, None)]);
      var o := IssueVerification(s1, user, c.hash(verification), verifyBy, now);
      if o.error.Some? then Fail(s, Conflict)
      else
        var o2 := OpenSession(o.after, user, session, c.hash(refresh), expiresAt, None);
        if o2.error.Some? then Fail(s, Conflict) else o2
  }

  /** authenticate_user and create_session; `user` is the account the identifier names. */
  function Login(s: State, c: Crypto, user: Id, passwordValid: bool, session: Id, refresh: string, expiresAt: Time): Outcome {
    if !Enabled(s, user) || !passwordValid then Fail(s, AuthInvalid)
    else OpenSession(s, user, session, c.hash(refresh), expiresAt, None)
  }

  /** What a rotation request carries, and the values drawn for the new session. */
  datatype Rotation = Rotation(token: string, csrfHeader: string, csrfCookie: string, session: Id, refresh: string, expiresAt: Time, now: Time)

  /** The refresh token is genuine, unexpired, and the one stored for its session. */
  predicate Presented(s: State, c: Crypto, q: Rotation) {
    var d := Decode(c, q.token, true, q.now);
    && d.Some? && d.value.session in s.sessions
    && var row := s.sessions[d.value.session];
       row.user == d.value.user && row.expiresAt > q.now && row.tokenHash == c.hash(q.token)
  }

  function Rotate(s: State, c: Crypto, q: Rotation): Outcome {
    if !Presented(s, c, q) then Fail(s, AuthInvalid)
    else
      var d := Decode(c, q.token, true, q.now).value;
      var row := s.sessions[d.session];
      if row.revokedAt.Some? then Outcome(s.(sessions := RevokeAll(s.sessions, d.user, q.now)), Some(AuthInvalid))
      else if q.csrfHeader == "" || q.csrfCookie == "" || q.csrfHeader != q.csrfCookie || q.csrfHeader != d.csrf then Fail(s, CsrfFailed)
      else if !Enabled(s, d.user) then Fail(s, AuthInvalid)
      else
        var s1 := s.(sessions := s.sessions[d.session := row.(revokedAt := Some(q.now))]);
        var o := OpenSession(s1, d.user, q.session, c.hash(q.refresh), q.expiresAt, Some(d.session));
        if o.error.Some? then Fail(s, Conflict) else o
  }

  /** revoke_session */
  function Logout(s: State, session: Id, user: Id, now: Time): Outcome {
    if Live(s, session) && s.sessions[session].user == user
    then Done(s.(sessions := s.sessions[session := s.sessions[session].(revokedAt := Some(now))]))
    else Done(s)
  }

  /** create_password_reset; an unknown or disabled account is not told apart. */
  function RequestReset(s: State, c: Crypto, user: Id, token: string, expiresAt: Time, now: Time): Outcome {
    if !Enabled(s, user) then Done(s)
    else if c.hash(token) in s.history.resetHashes then Fail(s, Conflict)
    else Done(s.(resets := BurnAll(s.resets, user, now)[c.hash(token) := Token(user, expiresAt, None)],
                 history := s.history.(resetHashes := s.history.resetHashes + {c.hash(token)})))
  }

  function ResetPassword(s: State, c: Crypto, token: string, password: string, now: Time): Outcome {
    var h := c.hash(token);
    if h !in s.resets || s.resets[h].usedAt.Some? || s.resets[h].expiresAt <= now then Fail(s, AuthInvalid)
    else
      var u := s.resets[h].user;
      if !Enabled(s, u) then Fail(s, AuthInvalid)
      else Done(s.(users := s.users[u := s.users[u].(password := password)],
                   resets := s.resets[h := s.resets[h].(usedAt := Some(now))],
                   sessions := RevokeAll(s.sessions, u, now)))
  }

  function ResendVerification(s: State, c: Crypto, user: Id, token: string, expiresAt: Time, now: Time): Outcome {
    if !Enabled(s, user) then Fail(s, AuthInvalid)
    else if s.users[user].verified then Done(s)
    else IssueVerification(s, user, c.hash(token), expiresAt, now)
  }

  function VerifyEmail(s: State, c: Crypto, token: string, now: Time): Outcome {
    var h := c.hash(token);
    if h !in s.verifications || s.verifications[h].user !in s.users then Fail(s, VerificationInvalid)
    else
      var t := s.verifications[h];
      if t.usedAt.Some? then if s.users[t.user].verified then Done(s) else Fail(s, VerificationInvalid)
      else if t.expiresAt <= now then Fail(s, VerificationInvalid)
      else Done(s.(users := s.users[t.user := s.users[t.user].(verified := true)],
                   verifications := s.verifications[h := t.(usedAt := Some(now))],
                   history := s.history.(redeemed := s.history.redeemed + {h})))
  }

  /** The e-mail part of update_user: even the same address has to be verified again. */
  function ChangeEmail(s: State, user: Id, email: string, now: Time): Outcome {
    if !Enabled(s, user) then Fail(s, AuthInvalid)
    else if EmailTaken(s, email, user) then Fail(s, Conflict)
    else Done(s.(users := s.users[user := s.users[user].(email := email, verified := false)],
                 verifications := BurnAll(s.verifications, user, now)))
  }

  datatype Action = Ban | Unban | Mute(until: Time) | Unmute

  function Moderate(s: State, actor: Id, user: Id, action: Action, reasoned: bool, now: Time): Outcome {
    if user !in s.users || actor !in s.users then Fail(s, NotFound)
    else if user == actor || s.users[user].role == Admin then Fail(s, Forbidden)
    else if s.users[actor].role == Moderator && (!action.Ban? || s.users[user].role != Member || !reasoned) then Fail(s, Forbidden)
    else
      var u := s.users[user];
      match action
      case Ban => Done(s.(users := s.users[user := u.(disabledAt := Some(now), status := Banned, mutedUntil := None)],
                          sessions := RevokeAll(s.sessions, user, now)))
      case Unban => Done(s.(users := s.users[user := u.(disabledAt := None, status := Active)]))
      case Mute(until) => if until <= now then Fail(s, ValidationError) else Done(s.(users := s.users[user := u.(mutedUntil := Some(until))]))
      case Unmute => Done(s.(users := s.users[user := u.(mutedUntil := None)]))
  }

  /** delete_user keeps the row under a tombstone address and drops its sessions and reset tokens. */
  function DeleteUser(s: State, actor: Id, user: Id, tombstone: string, now: Time): Outcome {
    if user !in s.users then Fail(s, NotFound)
    else if user == actor || s.users[user].role == Admin then Fail(s, Forbidden)
    else if EmailTaken(s, tombstone, user) then Fail(s, Conflict)
    else
      var u := s.users[user];
      Done(s.(users := s.users[user := u.(email := tombstone, password := "deleted", status := Deleted, disabledAt := Some(now), mutedUntil := None)],
              sessions := map k | k in s.sessions && s.sessions[k].user != user :: s.sessions[k],
              resets := map k | k in s.resets && s.resets[k].user != user :: s.resets[k],
              history := s.history.(erased := s.history.erased + {user})))
  }

  function ChangeRole(s: State, actor: Id, user: Id, role: Role): Outcome {
    if user !in s.users then Fail(s, NotFound)
    else if user == actor || s.users[user].role == Admin || role == Admin then Fail(s, Forbidden)
    else Done(s.(users := s.users[user := s.users[user].(role := role)]))
  }

  /** authenticate_access_token: the user and session a request acts as. */
  function Authenticate(s: State, c: Crypto, token: string, now: Time): Result<(Id, Id), Error> {
    if token == "" then Err(AuthRequired)
    else
      var d := Decode(c, token, false, now);
      if d.None? || !Enabled(s, d.value.user) then Err(AuthInvalid)
      else if !Live(s, d.value.session) || s.sessions[d.value.session].user != d.value.user
              || s.sessions[d.value.session].expiresAt <= now then Err(AuthInvalid)
      else Ok((d.value.user, d.value.session))
  }

  datatype Op =
    | DoRegister(user: Id, email: string, password: string, verification: string, session: Id, refresh: string, verifyBy: Time, expiresAt: Time, now: Time)
    | DoLogin(user: Id, passwordValid: bool, session: Id, refresh: string, expiresAt: Time)
    | DoRotate(q: Rotation)
    | DoLogout(session: Id, user: Id, now: Time)
    | DoRequestReset(user: Id, token: string, expiresAt: Time, now: Time)
    | DoResetPassword(token: string, password: string, now: Time)
    | DoResend(user: Id, token: string, expiresAt: Time, now: Time)
    | DoVerify(token: string, now: Time)
    | DoChangeEmail(user: Id, email: string, now: Time)
    | DoModerate(actor: Id, user: Id, action: Action, reasoned: bool, now: Time)
    | DoDelete(actor: Id, user: Id, tombstone: string, now: Time)
    | DoChangeRole(actor: Id, user: Id, role: Role)

  function Attempt(s: State, c: Crypto, op: Op): Outcome {
    match op
    case DoRegister(u, email, password, v, sid, refresh, verifyBy, expiresAt, now) => Register(s, c, u, email, password, v, sid, refresh, verifyBy, expiresAt, now)
    case DoLogin(u, valid, sid, refresh, expiresAt) => Login(s, c, u, valid, sid, refresh, expiresAt)
    case DoRotate(q) => Rotate(s, c, q)
    case DoLogout(sid, u, now) => Logout(s, sid, u, now)
    case DoRequestReset(u, token, expiresAt, now) => RequestReset(s, c, u, token, expiresAt, now)
    case DoResetPassword(token, password, now) => ResetPassword(s, c, token, password, now)
    case DoResend(u, token, expiresAt, now) => ResendVerification(s, c, u, token, expiresAt, now)
    case DoVerify(token, now) => VerifyEmail(s, c, token, now)
    case DoChangeEmail(u, email, now) => ChangeEmail(s, u, email, now)
    case DoModerate(actor, u, action, reasoned, now) => Moderate(s, actor, u, action, reasoned, now)
    case DoDelete(actor, u, tombstone, now) => DeleteUser(s, actor, u, tombstone, now)
    case DoChangeRole(actor, u, role) => ChangeRole(s, actor, u, role)
  }

  function Step(s: State, c: Crypto, op: Op): State { Attempt(s, c, op).after }

  function Run(s: State, c: Crypto, ops: seq<Op>): State
    decreases |ops|
  {
    if ops == [] then s else Run(Step(s, c, ops[0]), c, ops[1..])
  }

  const EMPTY := State(map[], map[], map[], map[], History(map[], map[], map[], {}, map[], {}, {}))

  /* ---- invariants ---- */

  /** Active and enabled are the same, and nobody disabled has a live session. */
  ghost predicate AccountsAgree(s: State) {
    && (forall u | u in s.users :: s.users[u].status == Active <==> s.users[u].disabledAt.None?)
    && (forall k | k in s.sessions :: s.sessions[k].user in s.users)
    && (forall k | Live(s, k) :: s.users[s.sessions[k].user].disabledAt.None?)
  }

  /** Every session belongs to the chain of one login of its user; only a newest one can be live. */
  ghost predicate ChainsAgree(s: State) {
    var h := s.history;
    && s.sessions.Keys <= h.root.Keys
    && h.newest.Keys == h.logins.Keys
    && (forall k | k in h.root :: h.root[k] in h.logins)
    && (forall r | r in h.logins :: r in h.root && h.root[r] == r)
    && (forall r | r in h.newest :: h.newest[r] in h.root && h.root[h.newest[r]] == r)
    && (forall k | k in s.sessions :: h.logins[h.root[k]] == s.sessions[k].user)
    && (forall k | Live(s, k) :: h.newest[h.root[k]] == k)
  }

  predicate Unused(tokens: map<string, Token>, h: string) { h in tokens && tokens[h].usedAt.None? }

  ghost predicate OneUnusedEach(tokens: map<string, Token>) {
    forall h, h' | Unused(tokens, h) && Unused(tokens, h') && tokens[h].user == tokens[h'].user :: h == h'
  }

  ghost predicate Redeemed(s: State, h: string, u: Id) {
    && u in s.users && h in s.history.redeemed && h in s.verifications && s.verifications[h].user == u
    && h in s.history.issuedFor && s.history.issuedFor[h] == s.users[u].email
  }

  /** Verification speaks of the address an account has now. */
  ghost predicate VerificationBound(s: State) {
    && s.verifications.Keys == s.history.issuedFor.Keys
    && (forall h | h in s.verifications :: s.verifications[h].user in s.users)
    && (forall h | Unused(s.verifications, h) && s.verifications[h].user !in s.history.erased ::
          s.history.issuedFor[h] == s.users[s.verifications[h].user].email)
    && (forall u | u in s.users && s.users[u].verified && u !in s.history.erased :: exists h :: Redeemed(s, h, u))
  }

  ghost predicate Inv(s: State) {
    && AccountsAgree(s) && ChainsAgree(s)
    && OneUnusedEach(s.resets) && s.resets.Keys <= s.history.resetHashes
    && OneUnusedEach(s.verifications) && VerificationBound(s)
    && s.history.erased <= s.users.Keys
  }

  /** A new session may follow a revoked newest one, or begin a chain of its own. */
  ghost predicate MayFollow(s: State, user: Id, parent: Option<Id>) {
    parent.Some? ==>
      && parent.value in s.sessions && !Live(s, parent.value) && s.sessions[parent.value].user == user
      && parent.value in s.history.root && s.history.root[parent.value] in s.history.newest
      && s.history.newest[s.history.root[parent.value]] == parent.value
  }

  lemma BeginKeepsChains(s: State, user: Id, id: Id, tokenHash: string, expiresAt: Time)
    requires ChainsAgree(s)
    ensures ChainsAgree(OpenSession(s, user, id, tokenHash, expiresAt, None).after)
  {
    var s' := OpenSession(s, user, id, tokenHash, expiresAt, None).after;
    if s' != s {
      assert id !in s.history.root && id !in s.sessions && id !in s.history.logins;
      assert s'.history.root[id] == id && s'.history.newest[id] == id && s'.history.logins[id] == user;
      assert forall k | Live(s', k) :: k == id || Live(s, k);
    }
  }

  lemma ContinueKeepsChains(s: State, user: Id, id: Id, tokenHash: string, expiresAt: Time, parent: Id)
    requires ChainsAgree(s) && MayFollow(s, user, Some(parent))
    ensures ChainsAgree(OpenSession(s, user, id, tokenHash, expiresAt, Some(parent)).after)
  {
    var s' := OpenSession(s, user, id, tokenHash, expiresAt, Some(parent)).after;
    if s' != s {
      var r := s.history.root[parent];
      assert forall k | Live(s, k) :: k != id && s.history.root[k] != r;
      assert r in s.history.logins && s.history.logins[r] == user;
      assert forall k | Live(s', k) :: k == id || Live(s, k);
    }
  }

  lemma OpenSessionKeepsChains(s: State, user: Id, id: Id, tokenHash: string, expiresAt: Time, parent: Option<Id>)
    requires ChainsAgree(s) && MayFollow(s, user, parent)
    ensures ChainsAgree(OpenSession(s, user, id, tokenHash, expiresAt, parent).after)
  {
    match parent
    case None => BeginKeepsChains(s, user, id, tokenHash, expiresAt);
    case Some(p) => ContinueKeepsChains(s, user, id, tokenHash, expiresAt, p);
  }

  lemma OpenSessionKeepsAccounts(s: State, user: Id, id: Id, tokenHash: string, expiresAt: Time, parent: Option<Id>)
    requires AccountsAgree(s) && Enabled(s, user)
    ensures AccountsAgree(OpenSession(s, user, id, tokenHash, expiresAt, parent).after)
  {
    var s' := OpenSession(s, user, id, tokenHash, expiresAt, parent).after;
    assert forall k | Live(s', k) :: k == id || Live(s, k);
  }

  lemma OpenSessionKeepsInv(s: State, user: Id, id: Id, tokenHash: string, expiresAt: Time, parent: Option<Id>)
    requires Inv(s) && Enabled(s, user) && MayFollow(s, user, parent)
    ensures Inv(OpenSession(s, user, id, tokenHash, expiresAt, parent).after)
  {
    var s' := OpenSession(s, user, id, tokenHash, expiresAt, parent).after;
    assert ChainsAgree(s') by { OpenSessionKeepsChains(s, user, id, tokenHash, expiresAt, parent); }
    assert AccountsAgree(s') by { OpenSessionKeepsAccounts(s, user, id, tokenHash, expiresAt, parent); }
    assert VerificationBound(s') by { VerificationCarries(s, s'); }
  }

  /** Verification depends on users, verification tokens and their history alone. */
  lemma VerificationCarries(s: State, s': State)
    requires VerificationBound(s)
    requires s'.verifications == s.verifications
    requires s'.history.issuedFor == s.history.issuedFor && s'.history.redeemed == s.history.redeemed
    requires s.history.erased <= s'.history.erased
    requires s.users.Keys == s'.users.Keys
    requires forall u | u in s.users && u !in s'.history.erased ::
      s'.users[u].email == s.users[u].email && (s'.users[u].verified ==> s.users[u].verified)
    ensures VerificationBound(s')
  {
    forall u | u in s'.users && s'.users[u].verified && u !in s'.history.erased ensures exists h :: Redeemed(s', h, u) {
      var h :| Redeemed(s, h, u);
      assert Redeemed(s', h, u);
    }
  }

  lemma IssueKeepsOneUnused(tokens: map<string, Token>, user: Id, hash: string, expiresAt: Time, now: Time)
    requires OneUnusedEach(tokens)
    ensures OneUnusedEach(BurnAll(tokens, user, now)[hash := Token(user, expiresAt, None)])
  {
    var tokens' := BurnAll(tokens, user, now)[hash := Token(user, expiresAt, None)];
    assert forall h | Unused(tokens', h) :: h == hash || (Unused(tokens, h) && tokens[h].user != user && tokens'[h] == tokens[h]);
  }

  lemma IssueKeepsBound(s: State, user: Id, hash: string, expiresAt: Time, now: Time)
    requires VerificationBound(s) && user in s.users
    ensures VerificationBound(IssueVerification(s, user, hash, expiresAt, now).after)
  {
    var s' := IssueVerification(s, user, hash, expiresAt, now).after;
    if s' != s {
      RedemptionsCarry(s, s');
      assert forall h | Unused(s'.verifications, h) :: h == hash || (Unused(s.verifications, h) && s'.verifications[h] == s.verifications[h]);
    }
  }

  /** Sessions and accounts do not look at tokens. */
  lemma SessionsCarry(s: State, s': State)
    requires AccountsAgree(s) && ChainsAgree(s)
    requires s'.users == s.users && s'.sessions == s.sessions
    requires s'.history.root == s.history.root && s'.history.newest == s.history.newest && s'.history.logins == s.history.logins
    ensures AccountsAgree(s') && ChainsAgree(s')
  {
    assert forall k | Live(s', k) :: Live(s, k);
  }

  lemma IssueVerificationKeepsInv(s: State, user: Id, hash: string, expiresAt: Time, now: Time)
    requires Inv(s) && user in s.users
    ensures Inv(IssueVerification(s, user, hash, expiresAt, now).after)
  {
    var s' := IssueVerification(s, user, hash, expiresAt, now).after;
    assert VerificationBound(s') by { IssueKeepsBound(s, user, hash, expiresAt, now); }
    assert OneUnusedEach(s'.verifications) by { IssueKeepsOneUnused(s.verifications, user, hash, expiresAt, now); }
    assert AccountsAgree(s') && ChainsAgree(s') by { SessionsCarry(s, s'); }
  }

  lemma RedemptionsCarry(s: State, s': State)
    requires VerificationBound(s)
    requires forall h | h in s.verifications :: h in s'.verifications && s'.verifications[h].user == s.verifications[h].user
    requires forall h | h in s.verifications :: h in s'.history.issuedFor && s'.history.issuedFor[h] == s.history.issuedFor[h]
    requires s.history.redeemed <= s'.history.redeemed
    ensures forall u | u in s.users && u in s'.users && s'.users[u].email == s.users[u].email && s.users[u].verified && u !in s.history.erased ::
      exists h :: Redeemed(s', h, u)
  {
    forall u | u in s.users && u in s'.users && s'.users[u].email == s.users[u].email && s.users[u].verified && u !in s.history.erased
      ensures exists h :: Redeemed(s', h, u)
    {
      var h :| Redeemed(s, h, u);
      assert Redeemed(s', h, u);
    }
  }

  lemma NewUserKeepsInv(s: State, user: Id, row: User)
    requires Inv(s) && user !in s.users && !row.verified && row.status == Active && row.disabledAt.None?
    ensures Inv(s.(users := s.users[user := row]))
  {
    var s' := s.(users := s.users[user := row]);
    RedemptionsCarry(s, s');
    assert forall k | Live(s', k) :: Live(s, k);
  }

  lemma FirstSessionKeepsInv(s: State, user: Id, hash: string, verifyBy: Time, session: Id, tokenHash: string, expiresAt: Time, now: Time)
    requires Inv(s) && Enabled(s, user)
    ensures Inv(OpenSession(IssueVerification(s, user, hash, verifyBy, now).after, user, session, tokenHash, expiresAt, None).after)
  {
    IssueVerificationKeepsInv(s, user, hash, verifyBy, now);
    var after := IssueVerification(s, user, hash, verifyBy, now).after;
    assert Enabled(after, user);
    OpenSessionKeepsInv(after, user, session, tokenHash, expiresAt, None);
  }

  lemma RegisterKeepsInv(s: State, c: Crypto, user: Id, email: string, password: string, verification: string,
                         session: Id, refresh: string, verifyBy: Time, expiresAt: Time, now: Time)
    requires Inv(s)
    ensures Inv(Register(s, c, user, email, password, verification, session, refresh, verifyBy, expiresAt, now).after)
  {
    if user !in s.users {
      var row := User(email, false, password, Member, Active, None, None);
      NewUserKeepsInv(s, user, row);
      FirstSessionKeepsInv(s.(users := s.users[user := row]), user, c.hash(verification), verifyBy, session, c.hash(refresh), expiresAt, now);
    }
  }

  /** Sessions may be revoked, and users other than in name, without harm. */
  lemma RevokingKeepsInv(s: State, sessions: map<Id, Session>)
    requires Inv(s) && sessions.Keys <= s.sessions.Keys
    requires forall k | k in sessions :: sessions[k].user == s.sessions[k].user
    requires forall k | k in sessions && sessions[k].revokedAt.None? :: s.sessions[k].revokedAt.None?
    ensures Inv(s.(sessions := sessions))
  {
    var s' := s.(sessions := sessions);
    assert forall k | Live(s', k) :: Live(s, k);
    VerificationCarries(s, s');
  }

  lemma RotateKeepsInv(s: State, c: Crypto, q: Rotation)
    requires Inv(s)
    ensures Inv(Rotate(s, c, q).after)
  {
    if Presented(s, c, q) {
      var d := Decode(c, q.token, true, q.now).value;
      var row := s.sessions[d.session];
      if row.revokedAt.Some? {
        RevokingKeepsInv(s, RevokeAll(s.sessions, d.user, q.now));
      } else {
        var s1 := s.(sessions := s.sessions[d.session := row.(revokedAt := Some(q.now))]);
        RevokingKeepsInv(s, s1.sessions);
        assert Live(s, d.session);
        if Enabled(s, d.user) {
          OpenSessionKeepsInv(s1, d.user, q.session, c.hash(q.refresh), q.expiresAt, Some(d.session));
        }
      }
    }
  }

  lemma ResetsKeepInv(s: State, resets: map<string, Token>, hashes: set<string>)
    requires Inv(s) && OneUnusedEach(resets) && resets.Keys <= hashes
    ensures Inv(s.(resets := resets, history := s.history.(resetHashes := hashes)))
  {
    var s' := s.(resets := resets, history := s.history.(resetHashes := hashes));
    assert forall k | Live(s', k) :: Live(s, k);
    VerificationCarries(s, s');
  }

  /** A user row changed in place: same address, not newly verified, still agreeing with itself. */
  lemma UserKeepsInv(s: State, user: Id, row: User)
    requires Inv(s) && user in s.users
    requires row.email == s.users[user].email && row.verified == s.users[user].verified
    requires row.status == Active <==> row.disabledAt.None?
    requires row.disabledAt.Some? ==> forall k | Live(s, k) :: s.sessions[k].user != user
    ensures Inv(s.(users := s.users[user := row]))
  {
    var s' := s.(users := s.users[user := row]);
    assert forall k | Live(s', k) :: Live(s, k);
    VerificationCarries(s, s');
  }

  lemma ResetPasswordKeepsInv(s: State, c: Crypto, token: string, password: string, now: Time)
    requires Inv(s)
    ensures Inv(ResetPassword(s, c, token, password, now).after)
  {
    var h := c.hash(token);
    if ResetPassword(s, c, token, password, now).error.None? {
      var u := s.resets[h].user;
      var resets := s.resets[h := s.resets[h].(usedAt := Some(now))];
      assert forall k | Unused(resets, k) :: Unused(s.resets, k);
      UserKeepsInv(s, u, s.users[u].(password := password));
      var s1 := s.(users := s.users[u := s.users[u].(password := password)]);
      RevokingKeepsInv(s1, RevokeAll(s.sessions, u, now));
      var s2 := s1.(sessions := RevokeAll(s.sessions, u, now));
      ResetsKeepInv(s2, resets, s.history.resetHashes);
    }
  }

  lemma VerifyKeepsBound(s: State, h: string, now: Time)
    requires VerificationBound(s) && Unused(s.verifications, h)
    ensures var t := s.verifications[h];
      VerificationBound(s.(users := s.users[t.user := s.users[t.user].(verified := true)],
                           verifications := s.verifications[h := t.(usedAt := Some(now))],
                           history := s.history.(redeemed := s.history.redeemed + {h})))
  {
    var t := s.verifications[h];
    var s' := s.(users := s.users[t.user := s.users[t.user].(verified := true)],
                 verifications := s.verifications[h := t.(usedAt := Some(now))],
                 history := s.history.(redeemed := s.history.redeemed + {h}));
    RedemptionsCarry(s, s');
    assert t.user !in s.history.erased ==> Redeemed(s', h, t.user);
    assert forall k | Unused(s'.verifications, k) :: Unused(s.verifications, k) && s'.verifications[k] == s.verifications[k];
  }

  lemma VerifyKeepsInv(s: State, c: Crypto, token: string, now: Time)
    requires Inv(s)
    ensures Inv(VerifyEmail(s, c, token, now).after)
  {
    var s' := VerifyEmail(s, c, token, now).after;
    var h := c.hash(token);
    if s' != s {
      assert forall k | Unused(s'.verifications, k) :: Unused(s.verifications, k) && s'.verifications[k] == s.verifications[k];
      assert VerificationBound(s') by { VerifyKeepsBound(s, h, now); }
      assert AccountsAgree(s') && ChainsAgree(s') by { assert forall k | Live(s', k) :: Live(s, k); }
    }
  }

  lemma ChangeEmailKeepsInv(s: State, user: Id, email: string, now: Time)
    requires Inv(s)
    ensures Inv(ChangeEmail(s, user, email, now).after)
  {
    var s' := ChangeEmail(s, user, email, now).after;
    if s' != s {
      assert forall k | Unused(s'.verifications, k) :: Unused(s.verifications, k) && s.verifications[k].user != user;
      RedemptionsCarry(s, s');
      assert forall k | Live(s', k) :: Live(s, k);
    }
  }

  lemma ModerateKeepsInv(s: State, actor: Id, user: Id, action: Action, reasoned: bool, now: Time)
    requires Inv(s)
    ensures Inv(Moderate(s, actor, user, action, reasoned, now).after)
  {
    var o := Moderate(s, actor, user, action, reasoned, now);
    if o.error.None? {
      var s1 := s.(sessions := o.after.sessions);
      RevokingKeepsInv(s, s1.sessions);
      UserKeepsInv(s1, user, o.after.users[user]);
    }
  }

  lemma DeleteKeepsInv(s: State, actor: Id, user: Id, tombstone: string, now: Time)
    requires Inv(s)
    ensures Inv(DeleteUser(s, actor, user, tombstone, now).after)
  {
    var s' := DeleteUser(s, actor, user, tombstone, now).after;
    if s' != s {
      assert forall k | Live(s', k) :: Live(s, k);
      assert forall k | Unused(s'.resets, k) :: Unused(s.resets, k);
      VerificationCarries(s, s');
    }
  }

  lemma RequestResetKeepsInv(s: State, c: Crypto, user: Id, token: string, expiresAt: Time, now: Time)
    requires Inv(s)
    ensures Inv(RequestReset(s, c, user, token, expiresAt, now).after)
  {
    var s' := RequestReset(s, c, user, token, expiresAt, now).after;
    if s' != s {
      IssueKeepsOneUnused(s.resets, user, c.hash(token), expiresAt, now);
      ResetsKeepInv(s, s'.resets, s'.history.resetHashes);
    }
  }

  lemma LoginKeepsInv(s: State, c: Crypto, user: Id, passwordValid: bool, session: Id, refresh: string, expiresAt: Time)
    requires Inv(s)
    ensures Inv(Login(s, c, user, passwordValid, session, refresh, expiresAt).after)
  {
    if Enabled(s, user) { OpenSessionKeepsInv(s, user, session, c.hash(refresh), expiresAt, None); }
  }

  lemma LogoutKeepsInv(s: State, session: Id, user: Id, now: Time)
    requires Inv(s)
    ensures Inv(Logout(s, session, user, now).after)
  {
    RevokingKeepsInv(s, Logout(s, session, user, now).after.sessions);
  }

  lemma ResendKeepsInv(s: State, c: Crypto, user: Id, token: string, expiresAt: Time, now: Time)
    requires Inv(s)
    ensures Inv(ResendVerification(s, c, user, token, expiresAt, now).after)
  {
    if Enabled(s, user) { IssueVerificationKeepsInv(s, user, c.hash(token), expiresAt, now); }
  }

  lemma ChangeRoleKeepsInv(s: State, actor: Id, user: Id, role: Role)
    requires Inv(s)
    ensures Inv(ChangeRole(s, actor, user, role).after)
  {
    if user in s.users { UserKeepsInv(s, user, s.users[user].(role := role)); }
  }

  lemma StepKeepsInv(s: State, c: Crypto, op: Op)
    requires Inv(s)
    ensures Inv(Step(s, c, op))
  {
    match op
    case DoRegister(u, email, password, v, sid, refresh, verifyBy, expiresAt, now) => RegisterKeepsInv(s, c, u, email, password, v, sid, refresh, verifyBy, expiresAt, now);
    case DoLogin(u, valid, sid, refresh, expiresAt) => LoginKeepsInv(s, c, u, valid, sid, refresh, expiresAt);
    case DoRotate(q) => RotateKeepsInv(s, c, q);
    case DoLogout(sid, u, now) => LogoutKeepsInv(s, sid, u, now);
    case DoRequestReset(u, token, expiresAt, now) => RequestResetKeepsInv(s, c, u, token, expiresAt, now);
    case DoResetPassword(token, password, now) => ResetPasswordKeepsInv(s, c, token, password, now);
    case DoResend(u, token, expiresAt, now) => ResendKeepsInv(s, c, u, token, expiresAt, now);
    case DoVerify(token, now) => VerifyKeepsInv(s, c, token, now);
    case DoChangeEmail(u, email, now) => ChangeEmailKeepsInv(s, u, email, now);
    case DoModerate(actor, u, action, reasoned, now) => ModerateKeepsInv(s, actor, u, action, reasoned, now);
    case DoDelete(actor, u, tombstone, now) => DeleteKeepsInv(s, actor, u, tombstone, now);
    case DoChangeRole(actor, u, role) => ChangeRoleKeepsInv(s, actor, u, role);
  }

  /** Every account, session and token table agrees in every run. */
  lemma {:induction false} RunKeepsInv(s: State, c: Crypto, ops: seq<Op>)
    requires Inv(s)
    ensures Inv(Run(s, c, ops))
    decreases |ops|
  {
    if ops != [] {
      StepKeepsInv(s, c, ops[0]);
      RunKeepsInv(Step(s, c, ops[0]), c, ops[1..]);
    }
  }

  lemma EmptyInv()
    ensures Inv(EMPTY)
  {
  }

  /* ---- live sessions and logins ---- */

  ghost function LiveOf(s: State, u: Id): set<Id> {
    set k | k in s.sessions && Live(s, k) && s.sessions[k].user == u
  }

  ghost function LoginsOf(s: State, u: Id): set<Id> {
    set r | r in s.history.logins && s.history.logins[r] == u
  }

  /** In every run each login's chain has at most one live session. */
  lemma OneLivePerLogin(c: Crypto, ops: seq<Op>, k: Id, k': Id)
    requires var s := Run(EMPTY, c, ops);
      && Live(s, k) && Live(s, k') && k in s.history.root && k' in s.history.root && s.history.root[k] == s.history.root[k']
    ensures k == k'
  {
    EmptyInv();
    RunKeepsInv(EMPTY, c, ops);
  }

  lemma LiveBounded(s: State, u: Id)
    requires Inv(s)
    ensures |LiveOf(s, u)| <= |LoginsOf(s, u)|
  {
    Finite.Injected(LiveOf(s, u), LoginsOf(s, u), s.history.root);
  }

  predicate OpensFor(s: State, c: Crypto, op: Op, u: Id) {
    ((op.DoLogin? && op.user == u) || (op.DoRegister? && op.user == u)) && Attempt(s, c, op).error.None?
  }

  /** How many requests of a run log the user in or register the account. */
  function Openings(s: State, c: Crypto, ops: seq<Op>, u: Id): nat
    decreases |ops|
  {
    if ops == [] then 0
    else (if OpensFor(s, c, ops[0], u) then 1 else 0) + Openings(Step(s, c, ops[0]), c, ops[1..], u)
  }

  /** The histories of sessions and logins only ever grow. */
  lemma StepGrowsRoots(s: State, c: Crypto, op: Op)
    ensures var h, h' := s.history, Step(s, c, op).history;
      forall k | k in h.root :: k in h'.root && h'.root[k] == h.root[k]
  {
    match op
    case DoRegister(_, _, _, _, _, _, _, _, _) =>
    case DoRotate(_) =>
    case _ =>
  }

  lemma StepGrowsLogins(s: State, c: Crypto, op: Op)
    ensures var h, h' := s.history, Step(s, c, op).history;
      if (op.DoLogin? || op.DoRegister?) && Attempt(s, c, op).error.None?
         then op.session !in h.root && h'.logins == h.logins[op.session := op.user]
         else h'.logins == h.logins
  {
    if op.DoRotate? { RotateKeepsLogins(s, c, op.q); }
    else if !op.DoLogin? && !op.DoRegister? { OthersKeepLogins(s, c, op); }
  }

  lemma RotateKeepsLogins(s: State, c: Crypto, q: Rotation)
    ensures Rotate(s, c, q).after.history.logins == s.history.logins
  {
  }

  lemma OthersKeepLogins(s: State, c: Crypto, op: Op)
    requires !op.DoRotate? && !op.DoLogin? && !op.DoRegister?
    ensures Step(s, c, op).history.logins == s.history.logins
  {
  }

  lemma OneMoreLogin(s: State, s': State, session: Id, user: Id, u: Id)
    requires session !in s.history.logins && s'.history.logins == s.history.logins[session := user]
    ensures |LoginsOf(s', u)| == |LoginsOf(s, u)| + if user == u then 1 else 0
  {
    if user == u {
      assert LoginsOf(s', u) == LoginsOf(s, u) + {session};
    } else {
      assert LoginsOf(s', u) == LoginsOf(s, u);
    }
  }

  lemma StepLogins(s: State, c: Crypto, op: Op, u: Id)
    requires forall r | r in s.history.logins :: r in s.history.root
    ensures |LoginsOf(Step(s, c, op), u)| == |LoginsOf(s, u)| + if OpensFor(s, c, op, u) then 1 else 0
  {
    var s' := Step(s, c, op);
    StepGrowsLogins(s, c, op);
    if (op.DoLogin? || op.DoRegister?) && Attempt(s, c, op).error.None? {
      OneMoreLogin(s, s', op.session, op.user, u);
    } else {
      assert LoginsOf(s', u) == LoginsOf(s, u);
    }
  }

  lemma {:induction false} RunLogins(s: State, c: Crypto, ops: seq<Op>, u: Id)
    requires Inv(s)
    ensures |LoginsOf(Run(s, c, ops), u)| == |LoginsOf(s, u)| + Openings(s, c, ops, u)
    decreases |ops|
  {
    if ops != [] {
      StepLogins(s, c, ops[0], u);
      StepKeepsInv(s, c, ops[0]);
      RunLogins(Step(s, c, ops[0]), c, ops[1..], u);
    }
  }

  /** However tokens are rotated and replayed, nobody has more live sessions than logins. */
  lemma LiveSessionsBounded(c: Crypto, ops: seq<Op>, u: Id)
    ensures |LiveOf(Run(EMPTY, c, ops), u)| <= Openings(EMPTY, c, ops, u)
  {
    EmptyInv();
    RunKeepsInv(EMPTY, c, ops);
    RunLogins(EMPTY, c, ops, u);
    LiveBounded(Run(EMPTY, c, ops), u);
    assert LoginsOf(EMPTY, u) == {};
  }

  /* ---- revocation is final ---- */

  /** A session that was opened once and is not live: revoked, or its row is gone. */
  predicate Dead(s: State, k: Id) { k in s.history.root && !Live(s, k) }

  lemma StepKeepsDead(s: State, c: Crypto, op: Op, k: Id)
    requires Dead(s, k)
    ensures Dead(Step(s, c, op), k)
  {
  }

  lemma {:induction false} DeadForever(s: State, c: Crypto, ops: seq<Op>, k: Id)
    requires Dead(s, k)
    ensures Dead(Run(s, c, ops), k)
    decreases |ops|
  {
    if ops != [] {
      StepKeepsDead(s, c, ops[0], k);
      DeadForever(Step(s, c, ops[0]), c, ops[1..], k);
    }
  }

  /** Exactly when a rotation succeeds, and what it leaves. */
  lemma RotateExactly(s: State, c: Crypto, q: Rotation)
    requires Inv(s) && Presented(s, c, q)
    ensures var d := Decode(c, q.token, true, q.now).value;
      var o := Rotate(s, c, q);
      && (o.error.None? <==>
            && Live(s, d.session) && Enabled(s, d.user)
            && q.csrfHeader != "" && q.csrfHeader == q.csrfCookie && q.csrfHeader == d.csrf
            && q.session !in s.history.root
            && (forall k | k in s.sessions :: s.sessions[k].tokenHash != c.hash(q.refresh)))
      && (o.error.None? ==>
            && Dead(o.after, d.session) && Live(o.after, q.session)
            && o.after.history.root[q.session] == s.history.root[d.session]
            && LiveOf(o.after, d.user) == LiveOf(s, d.user) - {d.session} + {q.session})
  {
    var d := Decode(c, q.token, true, q.now).value;
    var o := Rotate(s, c, q);
    var s1 := s.(sessions := s.sessions[d.session := s.sessions[d.session].(revokedAt := Some(q.now))]);
    assert forall k | k in s1.sessions :: k in s.sessions && s1.sessions[k].tokenHash == s.sessions[k].tokenHash;
    if o.error.None? {
      assert o == OpenSession(s1, d.user, q.session, c.hash(q.refresh), q.expiresAt, Some(d.session));
      assert LiveOf(s1, d.user) == LiveOf(s, d.user) - {d.session};
      assert LiveOf(o.after, d.user) == LiveOf(s1, d.user) + {q.session};
    }
  }

  /** No refresh token is accepted twice, whatever happens in between. */
  lemma TokenAcceptedOnce(s: State, c: Crypto, q: Rotation, ops: seq<Op>, q': Rotation)
    requires Inv(s) && Rotate(s, c, q).error.None? && q'.token == q.token
    ensures Rotate(Run(Rotate(s, c, q).after, c, ops), c, q').error.Some?
  {
    var d := Decode(c, q.token, true, q.now).value;
    RotateExactly(s, c, q);
    DeadForever(Rotate(s, c, q).after, c, ops, d.session);
    RotateKeepsInv(s, c, q);
    RunKeepsInv(Rotate(s, c, q).after, c, ops);
  }

  /** A genuine, unexpired refresh token whose session was revoked, by whatever means. */
  predicate IsReplay(s: State, c: Crypto, q: Rotation) {
    Presented(s, c, q) && !Live(s, Decode(c, q.token, true, q.now).value.session)
  }

  /**
   A replay revokes every session of the user, the thief's and the owner's, and
   that stays so in the committed state although the request is answered with an
   error. Every other refused rotation changes nothing.
   */
  lemma ReplayCutsOff(s: State, c: Crypto, q: Rotation)
    ensures IsReplay(s, c, q) ==>
      Rotate(s, c, q).error == Some(AuthInvalid) && LiveOf(Rotate(s, c, q).after, Decode(c, q.token, true, q.now).value.user) == {}
    ensures Rotate(s, c, q).error.Some? && !IsReplay(s, c, q) ==> Rotate(s, c, q).after == s
  {
  }

  /** A token once accepted is a replay from then on, for as long as it is unexpired and its row is there. */
  lemma RotatedIsReplay(s: State, c: Crypto, q: Rotation, ops: seq<Op>, q': Rotation)
    requires Inv(s) && Rotate(s, c, q).error.None? && q'.token == q.token
    requires Presented(Run(Rotate(s, c, q).after, c, ops), c, q')
    ensures IsReplay(Run(Rotate(s, c, q).after, c, ops), c, q')
  {
    RotateExactly(s, c, q);
    DeadForever(Rotate(s, c, q).after, c, ops, Decode(c, q.token, true, q.now).value.session);
  }

  /* ---- access ---- */

  /**
   In every run an access token works exactly when it is genuine, unexpired, and
   names a live, unexpired session of its user; the user is then active.
   */
  lemma AccessExactly(c: Crypto, ops: seq<Op>, token: string, now: Time, u: Id, k: Id)
    ensures var s, d := Run(EMPTY, c, ops), Decode(c, token, false, now);
      && (Authenticate(s, c, token, now) == Ok((u, k)) <==>
            && token != "" && d.Some? && d.value.user == u && d.value.session == k
            && Live(s, k) && s.sessions[k].user == u && s.sessions[k].expiresAt > now)
      && (Authenticate(s, c, token, now) == Ok((u, k)) ==> s.users[u].status == Active && s.users[u].disabledAt.None?)
  {
    EmptyInv();
    RunKeepsInv(EMPTY, c, ops);
    AccessOfAgreeing(Run(EMPTY, c, ops), c, token, now, u, k);
  }

  lemma AccessOfAgreeing(s: State, c: Crypto, token: string, now: Time, u: Id, k: Id)
    requires AccountsAgree(s)
    ensures var d := Decode(c, token, false, now);
      Authenticate(s, c, token, now) == Ok((u, k)) <==>
        && token != "" && d.Some? && d.value.user == u && d.value.session == k
        && Live(s, k) && s.sessions[k].user == u && s.sessions[k].expiresAt > now
  {
  }

  /**
   Once a user has no live session, no run makes any of the user's earlier access
   tokens work again: what is accepted later belongs to a session opened later.
   */
  lemma NothingRevives(s: State, c: Crypto, ops: seq<Op>, u: Id, token: string, now: Time)
    requires Inv(s) && LiveOf(s, u) == {}
    ensures var r := Authenticate(Run(s, c, ops), c, token, now);
      r.Ok? && r.value.0 == u ==> r.value.1 !in s.history.root
  {
    var t := Run(s, c, ops);
    var r := Authenticate(t, c, token, now);
    if r.Ok? && r.value.0 == u && r.value.1 in s.history.root {
      var k := r.value.1;
      RunKeepsInv(s, c, ops);
      RootsKept(s, c, ops, k);
      assert Live(s, k) ==> k in LiveOf(s, u);
      DeadForever(s, c, ops, k);
      assert false;
    }
  }

  lemma {:induction false} RootsKept(s: State, c: Crypto, ops: seq<Op>, k: Id)
    requires Inv(s) && k in s.history.root
    ensures var t := Run(s, c, ops);
      k in t.history.root && t.history.root[k] == s.history.root[k]
      && s.history.root[k] in t.history.logins && t.history.logins[s.history.root[k]] == s.history.logins[s.history.root[k]]
    decreases |ops|
  {
    if ops != [] {
      StepKeepsInv(s, c, ops[0]);
      StepGrowsRoots(s, c, ops[0]);
      StepGrowsLogins(s, c, ops[0]);
      RootsKept(Step(s, c, ops[0]), c, ops[1..], k);
    }
  }

  /** What cuts a user off: a ban, a deletion, a password reset, the replay of a revoked refresh token. */
  predicate CutsOff(s: State, c: Crypto, op: Op) {
    if op.DoRotate? then IsReplay(s, c, op.q)
    else Attempt(s, c, op).error.None? && ((op.DoModerate? && op.action.Ban?) || op.DoDelete? || op.DoResetPassword?)
  }

  function UserCutOff(s: State, c: Crypto, op: Op): Id
    requires CutsOff(s, c, op)
  {
    match op
    case DoRotate(q) => Decode(c, q.token, true, q.now).value.user
    case DoResetPassword(token, _, _) => s.resets[c.hash(token)].user
    case DoDelete(_, user, _, _) => user
    case _ => op.user
  }

  /** Each of these leaves the user without a live session. */
  lemma CutOff(s: State, c: Crypto, op: Op)
    requires Inv(s) && CutsOff(s, c, op)
    ensures LiveOf(Step(s, c, op), UserCutOff(s, c, op)) == {}
  {
    if op.DoRotate? { ReplayCutsOff(s, c, op.q); }
  }

  /** So none of the sessions opened before such a step is ever let in again, whatever run follows, unban included. */
  lemma CutOffForGood(c: Crypto, ops: seq<Op>, op: Op, ops': seq<Op>, token: string, now: Time)
    requires CutsOff(Run(EMPTY, c, ops), c, op)
    ensures var s := Run(EMPTY, c, ops);
      var r := Authenticate(Run(Step(s, c, op), c, ops'), c, token, now);
      r.Ok? && r.value.0 == UserCutOff(s, c, op) ==> r.value.1 !in s.history.root
  {
    EmptyInv();
    RunKeepsInv(EMPTY, c, ops);
    var s := Run(EMPTY, c, ops);
    assert LiveOf(Step(s, c, op), UserCutOff(s, c, op)) == {} by { CutOff(s, c, op); }
    StepKeepsInv(s, c, op);
    StepGrowsRoots(s, c, op);
    NothingRevives(Step(s, c, op), c, ops', UserCutOff(s, c, op), token, now);
  }

  /* ---- reset tokens ---- */

  predicate Spent(s: State, h: string) { h in s.history.resetHashes && !Unused(s.resets, h) }

  lemma StepKeepsSpent(s: State, c: Crypto, op: Op, h: string)
    requires Spent(s, h)
    ensures Spent(Step(s, c, op), h)
  {
  }

  lemma {:induction false} SpentForever(s: State, c: Crypto, ops: seq<Op>, h: string)
    requires Spent(s, h)
    ensures Spent(Run(s, c, ops), h)
    decreases |ops|
  {
    if ops != [] {
      StepKeepsSpent(s, c, ops[0], h);
      SpentForever(Step(s, c, ops[0]), c, ops[1..], h);
    }
  }

  /** A reset token changes a password at most once, and not at all once a newer one is issued. */
  lemma ResetTokenOnce(s: State, c: Crypto, op: Op, ops: seq<Op>, token: string, password: string, now: Time)
    requires Inv(s) && Attempt(s, c, op).error.None?
    requires || (op.DoResetPassword? && op.token == token)
             || (op.DoRequestReset? && Enabled(s, op.user) && op.token != token && c.hash(op.token) != c.hash(token)
                 && c.hash(token) in s.resets && s.resets[c.hash(token)].user == op.user)
    ensures ResetPassword(Run(Step(s, c, op), c, ops), c, token, password, now).error == Some(AuthInvalid)
  {
    assert Spent(Step(s, c, op), c.hash(token));
    SpentForever(Step(s, c, op), c, ops, c.hash(token));
  }

  /* ---- verification ---- */

  /** In every run a verified account that was not erased redeemed a token mailed to its present address. */
  lemma VerifiedMeansRedeemed(c: Crypto, ops: seq<Op>, u: Id)
    ensures var s := Run(EMPTY, c, ops);
      u in s.users && s.users[u].verified && u !in s.history.erased ==> exists h :: Redeemed(s, h, u)
  {
    EmptyInv();
    RunKeepsInv(EMPTY, c, ops);
  }

  predicate MailedToPresentAddress(s: State, h: string) {
    && h in s.verifications && s.verifications[h].user in s.users && h in s.history.issuedFor
    && s.history.issuedFor[h] == s.users[s.verifications[h].user].email
  }

  /** And every token that can still be redeemed was mailed to the account's present address. */
  lemma UnusedTokenFitsAddress(c: Crypto, ops: seq<Op>, h: string, h': string)
    ensures var s := Run(EMPTY, c, ops);
      && (Unused(s.verifications, h) && s.verifications[h].user !in s.history.erased ==>
            MailedToPresentAddress(s, h))
      && (Unused(s.verifications, h) && Unused(s.verifications, h') && s.verifications[h].user == s.verifications[h'].user ==> h == h')
      && (Unused(s.resets, h) && Unused(s.resets, h') && s.resets[h].user == s.resets[h'].user ==> h == h')
  {
    EmptyInv();
    RunKeepsInv(EMPTY, c, ops);
  }

  /* Erasure is the exception: delete_user changes the address and leaves the flag and the tokens as they are. */

  /** The promise with no account excepted: every verified account redeemed, and every unused token was mailed to, its present address. */
  ghost predicate AllBound(s: State) {
    && (forall u | u in s.users && s.users[u].verified :: exists h :: Redeemed(s, h, u))
    && (forall h | Unused(s.verifications, h) :: MailedToPresentAddress(s, h))
  }

  predicate HasUnused(s: State, u: Id) { exists h | h in s.verifications :: Unused(s.verifications, h) && s.verifications[h].user == u }

  ghost predicate RedeemedAt(s: State, h: string, u: Id, email: string) {
    && h in s.history.redeemed && h in s.verifications && s.verifications[h].user == u
    && h in s.history.issuedFor && s.history.issuedFor[h] == email
  }

  /** The account is already under the tombstone, or has nothing that speaks of another address. */
  ghost predicate Harmless(s: State, u: Id, tombstone: string)
    requires u in s.users
  {
    || s.users[u].email == tombstone
    || (!HasUnused(s, u) && (s.users[u].verified ==> exists h :: RedeemedAt(s, h, u, tombstone)))
  }

  /** Exactly when an erasure keeps the promise. */
  lemma ErasureExactly(s: State, actor: Id, user: Id, tombstone: string, now: Time)
    requires Inv(s) && AllBound(s) && DeleteUser(s, actor, user, tombstone, now).error.None?
    ensures AllBound(DeleteUser(s, actor, user, tombstone, now).after) <==> Harmless(s, user, tombstone)
  {
    var t := DeleteUser(s, actor, user, tombstone, now).after;
    if Harmless(s, user, tombstone) { ErasureKeeps(s, t, user, tombstone); }
    if AllBound(t) { ErasureNeeds(s, t, user, tombstone); }
  }

  ghost predicate Renamed(s: State, t: State, user: Id, tombstone: string) {
    && user in s.users && user in t.users && t.users == s.users[user := t.users[user]]
    && t.users[user].email == tombstone && t.users[user].verified == s.users[user].verified
    && t.verifications == s.verifications && t.history == s.history.(erased := t.history.erased)
  }

  lemma ErasureNeeds(s: State, t: State, user: Id, tombstone: string)
    requires AllBound(s) && AllBound(t) && Renamed(s, t, user, tombstone)
    ensures Harmless(s, user, tombstone)
  {
    forall h | Unused(s.verifications, h) && s.verifications[h].user == user ensures s.users[user].email == tombstone {
      assert MailedToPresentAddress(s, h);
      assert MailedToPresentAddress(t, h);
    }
    if s.users[user].verified {
      var h :| Redeemed(t, h, user);
      assert RedeemedAt(s, h, user, tombstone);
    }
  }

  lemma ErasureKeeps(s: State, t: State, user: Id, tombstone: string)
    requires AllBound(s) && Renamed(s, t, user, tombstone) && Harmless(s, user, tombstone)
    ensures AllBound(t)
  {
    forall u | u in t.users && t.users[u].verified ensures exists h :: Redeemed(t, h, u) {
      if u == user && s.users[u].email != tombstone {
        var h :| RedeemedAt(s, h, u, tombstone);
        assert Redeemed(t, h, u);
      } else {
        var h :| Redeemed(s, h, u);
        assert Redeemed(t, h, u);
      }
    }
    forall h | Unused(t.verifications, h) ensures MailedToPresentAddress(t, h) {
      assert MailedToPresentAddress(s, h);
    }
  }

  /** Under an address nothing was ever mailed to: exactly when the account is unverified and has no unused token. */
  lemma FreshErasureExactly(s: State, actor: Id, user: Id, tombstone: string, now: Time)
    requires Inv(s) && AllBound(s) && DeleteUser(s, actor, user, tombstone, now).error.None?
    requires s.users[user].email != tombstone && forall h | h in s.history.issuedFor :: s.history.issuedFor[h] != tombstone
    ensures AllBound(DeleteUser(s, actor, user, tombstone, now).after) <==>
      !s.users[user].verified && forall h | Unused(s.verifications, h) :: s.verifications[h].user != user
  {
    ErasureExactly(s, actor, user, tombstone, now);
    if HasUnused(s, user) {
      var h :| h in s.verifications && Unused(s.verifications, h) && s.verifications[h].user == user;
    }
  }

  /** The same tables as if nobody had been erased. */
  function Forgiven(s: State): State { s.(history := s.history.(erased := {})) }

  lemma ForgivenInv(s: State)
    requires Inv(s)
    ensures Inv(Forgiven(s)) <==> AllBound(s)
  {
    var f := Forgiven(s);
    assert forall h, u :: Redeemed(f, h, u) <==> Redeemed(s, h, u);
    if AllBound(s) {
      assert VerificationBound(f) by {
        forall h | Unused(f.verifications, h) ensures f.history.issuedFor[h] == f.users[f.verifications[h].user].email {
          assert MailedToPresentAddress(s, h);
        }
      }
    }
  }

  lemma ForgivenRegister(s: State, c: Crypto, op: Op)
    requires op.DoRegister?
    ensures Step(Forgiven(s), c, op) == Forgiven(Step(s, c, op))
  {
  }

  lemma ForgivenOpen(s: State, user: Id, id: Id, tokenHash: string, expiresAt: Time, parent: Option<Id>)
    ensures OpenSession(Forgiven(s), user, id, tokenHash, expiresAt, parent).error == OpenSession(s, user, id, tokenHash, expiresAt, parent).error
    ensures OpenSession(Forgiven(s), user, id, tokenHash, expiresAt, parent).after == Forgiven(OpenSession(s, user, id, tokenHash, expiresAt, parent).after)
  {
  }

  lemma ForgivenRotate(s: State, c: Crypto, q: Rotation)
    ensures Rotate(Forgiven(s), c, q).after == Forgiven(Rotate(s, c, q).after)
  {
    assert Presented(Forgiven(s), c, q) == Presented(s, c, q);
    if Presented(s, c, q) {
      var d := Decode(c, q.token, true, q.now).value;
      var s1 := s.(sessions := s.sessions[d.session := s.sessions[d.session].(revokedAt := Some(q.now))]);
      ForgivenOpen(s1, d.user, q.session, c.hash(q.refresh), q.expiresAt, Some(d.session));
    }
  }

  lemma ForgivenLog(s: State, c: Crypto, op: Op)
    requires op.DoLogin? || op.DoLogout?
    ensures Step(Forgiven(s), c, op) == Forgiven(Step(s, c, op))
  {
  }

  lemma ForgivenTokens(s: State, c: Crypto, op: Op)
    requires op.DoRequestReset? || op.DoResetPassword? || op.DoResend? || op.DoVerify?
    ensures Step(Forgiven(s), c, op) == Forgiven(Step(s, c, op))
  {
  }

  lemma ForgivenUsers(s: State, c: Crypto, op: Op)
    requires op.DoChangeEmail? || op.DoChangeRole?
    ensures Step(Forgiven(s), c, op) == Forgiven(Step(s, c, op))
  {
  }

  lemma ForgivenModerate(s: State, actor: Id, user: Id, action: Action, reasoned: bool, now: Time)
    ensures Moderate(Forgiven(s), actor, user, action, reasoned, now).after == Forgiven(Moderate(s, actor, user, action, reasoned, now).after)
  {
  }

  lemma ForgivenStep(s: State, c: Crypto, op: Op)
    requires !op.DoDelete?
    ensures Step(Forgiven(s), c, op) == Forgiven(Step(s, c, op))
  {
    if op.DoRegister? { ForgivenRegister(s, c, op); }
    else if op.DoRotate? { ForgivenRotate(s, c, op.q); }
    else if op.DoLogin? || op.DoLogout? { ForgivenLog(s, c, op); }
    else if op.DoModerate? { ForgivenModerate(s, op.actor, op.user, op.action, op.reasoned, op.now); }
    else if op.DoChangeEmail? || op.DoChangeRole? { ForgivenUsers(s, c, op); }
    else { ForgivenTokens(s, c, op); }
  }

  /** Nothing but an erasure can break the promise. */
  lemma StepKeepsBound(s: State, c: Crypto, op: Op)
    requires Inv(s) && AllBound(s) && !op.DoDelete?
    ensures AllBound(Step(s, c, op))
  {
    ForgivenInv(s);
    StepKeepsInv(Forgiven(s), c, op);
    ForgivenStep(s, c, op);
    StepKeepsInv(s, c, op);
    ForgivenInv(Step(s, c, op));
  }

  ghost predicate HarmlessStep(s: State, c: Crypto, op: Op) {
    op.DoDelete? && Attempt(s, c, op).error.None? ==> Harmless(s, op.user, op.tombstone)
  }

  ghost predicate AlwaysBound(s: State, c: Crypto, ops: seq<Op>)
    decreases |ops|
  {
    AllBound(s) && (ops != [] ==> AlwaysBound(Step(s, c, ops[0]), c, ops[1..]))
  }

  ghost predicate AlwaysHarmless(s: State, c: Crypto, ops: seq<Op>)
    decreases |ops|
  {
    ops != [] ==> HarmlessStep(s, c, ops[0]) && AlwaysHarmless(Step(s, c, ops[0]), c, ops[1..])
  }

  lemma StepBoundExactly(s: State, c: Crypto, op: Op)
    requires Inv(s) && AllBound(s)
    ensures AllBound(Step(s, c, op)) <==> HarmlessStep(s, c, op)
  {
    if op.DoDelete? {
      if Attempt(s, c, op).error.None? { ErasureExactly(s, op.actor, op.user, op.tombstone, op.now); }
    } else {
      StepKeepsBound(s, c, op);
    }
  }

  lemma {:induction false} RunBoundExactly(s: State, c: Crypto, ops: seq<Op>)
    requires Inv(s) && AllBound(s)
    ensures AlwaysBound(s, c, ops) <==> AlwaysHarmless(s, c, ops)
    decreases |ops|
  {
    if ops != [] {
      var t := Step(s, c, ops[0]);
      StepBoundExactly(s, c, ops[0]);
      StepKeepsInv(s, c, ops[0]);
      if AllBound(t) { RunBoundExactly(t, c, ops[1..]); }
    }
  }

  /** A run keeps the promise throughout, for every account, exactly when each of its erasures is harmless. */
  lemma BoundExactly(c: Crypto, ops: seq<Op>)
    ensures AlwaysBound(EMPTY, c, ops) <==> AlwaysHarmless(EMPTY, c, ops)
  {
    EmptyInv();
    RunBoundExactly(EMPTY, c, ops);
  }

  /** It fails by an unused token: the one mailed to the old address still verifies the tombstone address. */
  lemma ErasedAccountVerifies(s: State, c: Crypto, admin: Id, user: Id, tombstone: string, token: string, now: Time)
    requires Inv(s)
    requires DeleteUser(s, admin, user, tombstone, now).error.None?
    requires Unused(s.verifications, c.hash(token)) && s.verifications[c.hash(token)].user == user
    requires s.verifications[c.hash(token)].expiresAt > now && user !in s.history.erased && s.users[user].email != tombstone
    ensures var s' := Run(s, c, [DoDelete(admin, user, tombstone, now), DoVerify(token, now)]);
      && user in s'.users && s'.users[user].verified && s'.users[user].status == Deleted && s'.users[user].email == tombstone
      && !MailedToPresentAddress(s', c.hash(token))
  {
    var ops := [DoDelete(admin, user, tombstone, now), DoVerify(token, now)];
    var s1 := Step(s, c, ops[0]);
    var s2 := Step(s1, c, ops[1]);
    assert ops[1..] == [ops[1]] && Run(s1, c, ops[1..]) == Run(s2, c, ops[1..][1..]);
  }

  /** And it fails at once, with no token left: who was verified before is verified under the tombstone. */
  lemma ErasedStaysVerified(c: Crypto, user: Id, admin: Id, email: string, password: string, token: string, session: Id, refresh: string,
                            tombstone: string, now: Time)
    requires admin != user && email != tombstone
    ensures var s := Run(EMPTY, c, [DoRegister(user, email, password, token, session, refresh, now + 1, now + 1, now),
                                    DoVerify(token, now), DoDelete(admin, user, tombstone, now)]);
      && user in s.users && s.users[user].verified && s.users[user].email == tombstone && !HasUnused(s, user)
      && !exists h :: Redeemed(s, h, user)
  {
    var ops := [DoRegister(user, email, password, token, session, refresh, now + 1, now + 1, now),
                DoVerify(token, now), DoDelete(admin, user, tombstone, now)];
    var s1 := Step(EMPTY, c, ops[0]);
    var s2 := Step(s1, c, ops[1]);
    var s3 := Step(s2, c, ops[2]);
    assert s1.verifications == map[c.hash(token) := Token(user, now + 1, None)] && s1.history.issuedFor == map[c.hash(token) := email];
    assert s2.verifications == map[c.hash(token) := Token(user, now + 1, Some(now))];
    assert s3.verifications == s2.verifications && s3.history.issuedFor == s1.history.issuedFor;
    assert ops == [ops[0]] + ([ops[1]] + ([ops[2]] + []));
    RunOneMore(EMPTY, c, ops[0], [ops[1]] + ([ops[2]] + []));
    RunOneMore(s1, c, ops[1], [ops[2]] + []);
    RunOneMore(s2, c, ops[2], []);
  }

  lemma RunOneMore(s: State, c: Crypto, op: Op, rest: seq<Op>)
    ensures Run(s, c, [op] + rest) == Run(Step(s, c, op), c, rest)
  {
    assert ([op] + rest)[1..] == rest;
  }
}
