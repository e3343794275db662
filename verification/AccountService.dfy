/**
 The account services as they run: rows of mutable tables, assigned one field at
 a time. Each method is proved to leave the tables exactly as the step of
 `Accounts` it stands for, and so to keep the invariant over all tables.
 */
module AccountService {
  import opened Wrappers
  import opened Accounts

  class Service {
    const crypto: Crypto
    var users: map<Id, User>
    var sessions: map<Id, Session>
    var resets: map<string, Token>
    var verifications: map<string, Token>
    ghost var history: History

    ghost function View(): State
      reads this
    {
      State(users, sessions, resets, verifications, history)
    }

    ghost predicate Valid()
      reads this
    {
      Inv(View())
    }

    /** The tables and the answer are those of the specified step. */
    ghost predicate Answers(o: Outcome, failure: Option<Error>)
      reads this
    {
      View() == o.after && failure == o.error
    }

    constructor (crypto: Crypto)
      ensures Valid() && View() == EMPTY && this.crypto == crypto
    {
      EmptyInv();
      this.crypto := crypto;
      users, sessions, resets, verifications, history := map[], map[], map[], map[], EMPTY.history;
    }

    /** create_session. `id` comes from uuid4, which never repeats. */
    method CreateSession(user: Id, id: Id, refresh: string, expiresAt: Time, ghost parent: Option<Id>) returns (failure: Option<Error>)
      requires id !in history.root
      modifies this`sessions, this`history
      ensures Answers(OpenSession(old(View()), user, id, crypto.hash(refresh), expiresAt, parent), failure)
    {
      var tokenHash := crypto.hash(refresh);
      if k :| k in sessions && sessions[k].tokenHash == tokenHash { return Some(Conflict); }
      sessions := sessions[id := Session(user, tokenHash, expiresAt, None)];
      ghost var r := if parent.Some? && parent.value in history.root then history.root[parent.value] else id;
      history := history.(root := history.root[id := r], newest := history.newest[r := id],
                          logins := if parent.Some? then history.logins else history.logins[id := user]);
      failure := None;
    }

    /** create_email_verification: burn what is unused, then add one token. */
    method CreateEmailVerification(user: Id, token: string, expiresAt: Time, now: Time) returns (failure: Option<Error>)
      requires user in users
      modifies this`verifications, this`history
      ensures Answers(IssueVerification(old(View()), user, crypto.hash(token), expiresAt, now), failure)
    {
      var hash := crypto.hash(token);
      if hash in verifications { return Some(Conflict); }
      verifications := BurnAll(verifications, user, now);
      verifications := verifications[hash := Token(user, expiresAt, None)];
      history := history.(issuedFor := history.issuedFor[hash := users[user].email]);
      failure := None;
    }

    /** The register request: three inserts, rolled back together when one fails. */
    method InsertAccount(user: Id, email: string, password: string, verification: string,
                         session: Id, refresh: string, verifyBy: Time, expiresAt: Time, now: Time) returns (failure: Option<Error>)
      requires session !in history.root
      modifies this
      ensures Answers(Register(old(View()), crypto, user, email, password, verification, session, refresh, verifyBy, expiresAt, now), failure)
    {
      if user in users { return Some(Conflict); }
      if u :| u in users && u != user && users[u].email == email { return Some(Conflict); }
      var users0, sessions0, verifications0 := users, sessions, verifications;
      ghost var history0 := history;
      users := users[user := User(email, false, password, Member, Active, None, None)];
      var failed := CreateEmailVerification(user, verification, verifyBy, now);
      if failed.None? {
        failed := CreateSession(user, session, refresh, expiresAt, None);
      }
      if failed.Some? {
        users, sessions, verifications, history := users0, sessions0, verifications0, history0;
        return Some(Conflict);
      }
      failure := None;
    }

    method RegisterAccount(user: Id, email: string, password: string, verification: string,
                           session: Id, refresh: string, verifyBy: Time, expiresAt: Time, now: Time) returns (failure: Option<Error>)
      requires Valid() && session !in history.root
      modifies this
      ensures Valid()
      ensures Answers(Register(old(View()), crypto, user, email, password, verification, session, refresh, verifyBy, expiresAt, now), failure)
    {
      RegisterKeepsInv(View(), crypto, user, email, password, verification, session, refresh, verifyBy, expiresAt, now);
      failure := InsertAccount(user, email, password, verification, session, refresh, verifyBy, expiresAt, now);
    }

    method LoginAccount(user: Id, passwordValid: bool, session: Id, refresh: string, expiresAt: Time) returns (failure: Option<Error>)
      requires Valid() && session !in history.root
      modifies this`sessions, this`history
      ensures Valid()
      ensures Answers(Login(old(View()), crypto, user, passwordValid, session, refresh, expiresAt), failure)
      ensures failure.None? ==> passwordValid && user in users && users[user].disabledAt.None? && Live(View(), session)
      ensures !passwordValid ==> failure == Some(AuthInvalid) && View() == old(View())
    {
      StepKeepsInv(View(), crypto, DoLogin(user, passwordValid, session, refresh, expiresAt));
      if user !in users || users[user].disabledAt.Some? || !passwordValid { return Some(AuthInvalid); }
      failure := CreateSession(user, session, refresh, expiresAt, None);
    }

    /** rotate_session; the revocation of a replay stays, although the request fails. */
    method RotateSession(q: Rotation) returns (failure: Option<Error>)
      requires Valid() && q.session !in history.root
      modifies this`sessions, this`history
      ensures Valid()
      ensures Answers(Rotate(old(View()), crypto, q), failure)
      ensures IsReplay(old(View()), crypto, q) ==> failure == Some(AuthInvalid) && LiveOf(View(), Decode(crypto, q.token, true, q.now).value.user) == {}
      ensures failure.None? ==> Live(View(), q.session)
    {
      RotateKeepsInv(View(), crypto, q);
      ReplayCutsOff(View(), crypto, q);
      var d := Decode(crypto, q.token, true, q.now);
      if d.None? { return Some(AuthInvalid); }
      var Claims(_, user, sid, csrf, _) := d.value;
      if sid !in sessions || sessions[sid].user != user { return Some(AuthInvalid); }
      if sessions[sid].expiresAt <= q.now || sessions[sid].tokenHash != crypto.hash(q.token) { return Some(AuthInvalid); }
      if sessions[sid].revokedAt.Some? {
        sessions := RevokeAll(sessions, user, q.now);
        return Some(AuthInvalid);
      }
      if q.csrfHeader == "" || q.csrfCookie == "" || q.csrfHeader != q.csrfCookie || q.csrfHeader != csrf { return Some(CsrfFailed); }
      if user !in users || users[user].disabledAt.Some? { return Some(AuthInvalid); }
      var sessions0 := sessions;
      sessions := sessions[sid := sessions[sid].(revokedAt := Some(q.now))];
      var failed := CreateSession(user, q.session, q.refresh, q.expiresAt, Some(sid));
      if failed.Some? {
        sessions := sessions0;
        return Some(Conflict);
      }
      failure := None;
    }

    method RevokeSession(session: Id, user: Id, now: Time)
      requires Valid()
      modifies this`sessions
      ensures Valid() && View() == Logout(old(View()), session, user, now).after
      ensures session in sessions && sessions[session].user == user ==> sessions[session].revokedAt.Some?
    {
      StepKeepsInv(View(), crypto, DoLogout(session, user, now));
      if session in sessions && sessions[session].user == user && sessions[session].revokedAt.None? {
        sessions := sessions[session := sessions[session].(revokedAt := Some(now))];
      }
    }

    /** create_password_reset for the account an address names. `token` is freshly drawn. */
    method CreatePasswordReset(user: Id, token: string, expiresAt: Time, now: Time) returns (issued: bool)
      requires Valid() && crypto.hash(token) !in history.resetHashes
      modifies this`resets, this`history
      ensures Valid() && Answers(RequestReset(old(View()), crypto, user, token, expiresAt, now), None)
      ensures issued <==> Enabled(old(View()), user)
    {
      RequestResetKeepsInv(View(), crypto, user, token, expiresAt, now);
      if user !in users || users[user].disabledAt.Some? { return false; }
      resets := BurnAll(resets, user, now);
      resets := resets[crypto.hash(token) := Token(user, expiresAt, None)];
      history := history.(resetHashes := history.resetHashes + {crypto.hash(token)});
      issued := true;
    }

    method ConfirmReset(token: string, password: string, now: Time) returns (failure: Option<Error>)
      requires Valid()
      modifies this`users, this`resets, this`sessions
      ensures Valid() && Answers(ResetPassword(old(View()), crypto, token, password, now), failure)
      ensures failure.None? ==> crypto.hash(token) in resets && LiveOf(View(), resets[crypto.hash(token)].user) == {}
      ensures failure.None? ==> resets[crypto.hash(token)].user in users && users[resets[crypto.hash(token)].user].password == password
    {
      ResetPasswordKeepsInv(View(), crypto, token, password, now);
      if ResetPassword(View(), crypto, token, password, now).error.None? { CutOff(View(), crypto, DoResetPassword(token, password, now)); }
      var h := crypto.hash(token);
      if h !in resets || resets[h].usedAt.Some? || resets[h].expiresAt <= now { return Some(AuthInvalid); }
      var user := resets[h].user;
      if user !in users || users[user].disabledAt.Some? { return Some(AuthInvalid); }
      users := users[user := users[user].(password := password)];
      resets := resets[h := resets[h].(usedAt := Some(now))];
      sessions := RevokeAll(sessions, user, now);
      failure := None;
    }

    method Verify(token: string, now: Time) returns (failure: Option<Error>)
      requires Valid()
      modifies this`users, this`verifications, this`history
      ensures Valid() && Answers(VerifyEmail(old(View()), crypto, token, now), failure)
    {
      VerifyKeepsInv(View(), crypto, token, now);
      var h := crypto.hash(token);
      if h !in verifications { return Some(VerificationInvalid); }
      var user := verifications[h].user;
      if user !in users { return Some(VerificationInvalid); }
      if verifications[h].usedAt.Some? {
        if users[user].verified { return None; }
        return Some(VerificationInvalid);
      }
      if verifications[h].expiresAt <= now { return Some(VerificationInvalid); }
      users := users[user := users[user].(verified := true)];
      verifications := verifications[h := verifications[h].(usedAt := Some(now))];
      history := history.(redeemed := history.redeemed + {h});
      failure := None;
    }

    /** The e-mail part of update_user. */
    method UpdateEmail(user: Id, email: string, now: Time) returns (failure: Option<Error>)
      requires Valid()
      modifies this`users, this`verifications
      ensures Valid() && Answers(ChangeEmail(old(View()), user, email, now), failure)
    {
      ChangeEmailKeepsInv(View(), user, email, now);
      if user !in users || users[user].disabledAt.Some? { return Some(AuthInvalid); }
      if u :| u in users && u != user && users[u].email == email { return Some(Conflict); }
      var row := users[user];
      row := row.(email := email);
      row := row.(verified := false);
      users := users[user := row];
      verifications := BurnAll(verifications, user, now);
      failure := None;
    }

    method ModerateUser(actor: Id, user: Id, action: Action, reasoned: bool, now: Time) returns (failure: Option<Error>)
      requires Valid()
      modifies this`users, this`sessions
      ensures Valid() && Answers(Moderate(old(View()), actor, user, action, reasoned, now), failure)
      ensures failure.None? && action.Ban? ==> LiveOf(View(), user) == {}
    {
      if action.Ban? && Moderate(View(), actor, user, action, reasoned, now).error.None? {
        CutOff(View(), crypto, DoModerate(actor, user, action, reasoned, now));
      }
      ModerateKeepsInv(View(), actor, user, action, reasoned, now);
      if user !in users || actor !in users { return Some(NotFound); }
      if user == actor || users[user].role == Admin { return Some(Forbidden); }
      if users[actor].role == Moderator && (!action.Ban? || users[user].role != Member || !reasoned) { return Some(Forbidden); }
      var row := users[user];
      match action {
        case Ban =>
          row := row.(disabledAt := Some(now));
          row := row.(status := Banned);
          row := row.(mutedUntil := None);
          sessions := RevokeAll(sessions, user, now);
        case Unban =>
          row := row.(disabledAt := None);
          row := row.(status := Active);
        case Mute(until) =>
          if until <= now { return Some(ValidationError); }
          row := row.(mutedUntil := Some(until));
        case Unmute =>
          row := row.(mutedUntil := None);
      }
      users := users[user := row];
      failure := None;
    }

    method EraseUser(actor: Id, user: Id, tombstone: string, now: Time) returns (failure: Option<Error>)
      requires Valid()
      modifies this
      ensures Valid() && Answers(DeleteUser(old(View()), actor, user, tombstone, now), failure)
      ensures failure.None? ==> user in old(users) && LiveOf(View(), user) == {}
      ensures failure.None? && AllBound(old(View())) ==> (AllBound(View()) <==> Harmless(old(View()), user, tombstone))
    {
      if DeleteUser(View(), actor, user, tombstone, now).error.None? {
        CutOff(View(), crypto, DoDelete(actor, user, tombstone, now));
        if AllBound(View()) { ErasureExactly(View(), actor, user, tombstone, now); }
      }
      DeleteKeepsInv(View(), actor, user, tombstone, now);
      failure := EraseRows(actor, user, tombstone, now);
    }

    method EraseRows(actor: Id, user: Id, tombstone: string, now: Time) returns (failure: Option<Error>)
      modifies this
      ensures Answers(DeleteUser(old(View()), actor, user, tombstone, now), failure)
    {
      if user !in users { return Some(NotFound); }
      if user == actor || users[user].role == Admin { return Some(Forbidden); }
      if u :| u in users && u != user && users[u].email == tombstone { return Some(Conflict); }
      sessions := map k | k in sessions && sessions[k].user != user :: sessions[k];
      resets := map k | k in resets && resets[k].user != user :: resets[k];
      var row := users[user];
      row := row.(email := tombstone);
      row := row.(password := "deleted");
      row := row.(status := Deleted);
      row := row.(disabledAt := Some(now));
      row := row.(mutedUntil := None);
      users := users[user := row];
      history := history.(erased := history.erased + {user});
      failure := None;
    }
  }
}
