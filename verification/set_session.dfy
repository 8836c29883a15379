/**
 * `GET /api/auth/set-session`: turns a session token in the query into the
 * session cookie and redirects, so that the invite page's auto-verify can
 * sign the invitee in.
 */
module SetSession {
  import opened Wrappers
  import opened Js
  import opened Table
  import opened Schema
  import opened InviteAccept
  import Routing

  const SessionCookieName: string := "authjs.session-token"

  datatype Cookie = Cookie(name: string, value: string, expires: Time, httpOnly: bool, secure: bool, sameSite: string, path: string)

  /**
   * The query: the `token` and `redirectTo` parameters (None when absent),
   * and `redirectUrl`, the absolute URL `redirectTo` resolves to against the
   * request URL, None when it does not parse (URL parsing is left out).
   */
  datatype Query = Query(token: Option<string>, redirectTo: Option<string>, redirectUrl: Option<string>)

  datatype SessionReply = SignInRedirect | CookieRedirect(location: string, cookie: Cookie)

  /**
   * `sessions inner join users … where token = t limit 1`: the session row
   * with the token, kept only when its user row exists.
   */
  function JoinedSession(db: Db, token: string): (r: Option<Session>)
    ensures r.Some? ==> r.value in db.sessions && r.value.token == token && HasKey(db.users, UserId, r.value.userId)
    ensures r.None? <==> !HasKey(db.sessions, SessionToken, token)
                         || !HasKey(db.users, UserId, Find(db.sessions, SessionToken, token).value.userId)
  {
    match Find(db.sessions, SessionToken, token)
    case None => None
    case Some(s) => if HasKey(db.users, UserId, s.userId) then Some(s) else None
  }

  /**
   * The handler: a missing or empty token or redirect target, an unknown
   * token, a session whose user is gone, a session that expired before
   * `now`, and an unparsable target all send the visitor to sign-in.
   * Otherwise the visitor is redirected to the target with an http-only,
   * lax, site-wide session cookie carrying the token and the session's
   * expiry, secure only in production.
   */
  function SetSessionCookie(q: Query, now: Time, production: bool, db: Db): (r: SessionReply)
    ensures r.CookieRedirect? <==>
              && q.token.Some? && q.token.value != "" && q.redirectTo.Some? && q.redirectTo.value != ""
              && JoinedSession(db, q.token.value).Some?
              && JoinedSession(db, q.token.value).value.expiresAt >= now
              && q.redirectUrl.Some?
    ensures r.CookieRedirect? ==>
              && r.location == q.redirectUrl.value
              && r.cookie == Cookie(SessionCookieName, q.token.value, JoinedSession(db, q.token.value).value.expiresAt,
                                    true, production, "lax", "/")
  {
    if q.token.None? || q.token.value == "" || q.redirectTo.None? || q.redirectTo.value == "" then SignInRedirect
    else
      match JoinedSession(db, q.token.value)
      case None => SignInRedirect
      case Some(s) =>
        if s.expiresAt < now then SignInRedirect
        else if q.redirectUrl.None? then SignInRedirect
        else CookieRedirect(q.redirectUrl.value, Cookie(SessionCookieName, q.token.value, s.expiresAt, true, production, "lax", "/"))
  }

  /** A session is accepted up to and including the millisecond it expires, and refused one millisecond later. */
  lemma ExpiryBoundary(q: Query, production: bool, db: Db)
    requires q.token.Some? && q.token.value != "" && q.redirectTo.Some? && q.redirectTo.value != "" && q.redirectUrl.Some?
    requires JoinedSession(db, q.token.value).Some?
    ensures var e := JoinedSession(db, q.token.value).value.expiresAt;
            && SetSessionCookie(q, e, production, db).CookieRedirect?
            && SetSessionCookie(q, e + 1, production, db) == SignInRedirect
  {
  }

  /**
   * The invite page's auto-verify and this handler fit together: when the
   * action issues a session, following its redirect with that token within
   * the session's lifetime sets the cookie for the new session.
   */
  lemma AutoVerifiedSessionAccepted(email: string, token: string, newUserId: Id, sessionId: Id, sessionToken: string,
                                    issued: Time, db: Db, redirectTo: string, url: string, now: Time, production: bool)
    requires Valid(db)
    requires AutoVerify(email, token, newUserId, sessionId, sessionToken, issued, db).0.ToSetSession?
    requires sessionToken != "" && redirectTo != ""
    requires now <= issued + SessionLifetime
    ensures var db1 := AutoVerify(email, token, newUserId, sessionId, sessionToken, issued, db).1;
            SetSessionCookie(Query(Some(sessionToken), Some(redirectTo), Some(url)), now, production, db1)
              == CookieRedirect(url, Cookie(SessionCookieName, sessionToken, issued + SessionLifetime, true, production, "lax", "/"))
  {
    var r := AutoVerify(email, token, newUserId, sessionId, sessionToken, issued, db);
    var db1 := r.1;
    var uid :| VerifiedAs(db1, email, uid)
               && db1.sessions == db.sessions + [Session(sessionId, sessionToken, issued + SessionLifetime, uid)];
    var s := Session(sessionId, sessionToken, issued + SessionLifetime, uid);
    assert s == db1.sessions[|db.sessions|];
    UniqueFind(db1.sessions, SessionToken, s);
    var u := Find(db1.users, UserEmail, email).value;
    assert u in db1.users && u.id == uid;
    assert HasKey(db1.users, UserId, uid) by {
      var i :| 0 <= i < |db1.users| && db1.users[i] == u;
    }
  }

  /** The invitee's redirect lands on the invite page (path `/invite/accept`), which the middleware does not guard. */
  lemma InvitePageUnguarded(hasCookie: bool)
    ensures Routing.Middleware(hasCookie, "/invite/accept") == Routing.Next
  {
    assert "/invite/accept"[1] == 'i';
  }
}
