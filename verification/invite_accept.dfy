/**
 * The invitation landing page and its two server actions: accepting moves
 * the signed-in user into the inviting organisation and marks the invite
 * ACCEPTED; declining marks it DECLINED. Also the auto-verification action
 * offered to a visitor without a session.
 */
module InviteAccept {
  import opened Wrappers
  import opened Js
  import opened Table
  import opened Schema
  import opened Http

  /** The errors the two actions throw, in the order they are checked. */
  datatype ActionError = NotAuthenticated | InvalidInvitation | NotYourInvitation | AlreadyProcessed

  /** The invite whose id is the link's token (`where id = token limit 1`). */
  function Lookup(db: Db, token: Id): Option<Invite> {
    Find(db.invites, InviteId, token)
  }

  /** `after` is `before` with the status of every invite whose id is `token` set to `s`. */
  predicate StatusSet(before: seq<Invite>, after: seq<Invite>, token: Id, s: InviteStatus) {
    && |after| == |before|
    && forall i :: 0 <= i < |before| ==>
         after[i] == (if before[i].id == token then before[i].(status := s) else before[i])
  }

  /** `after` is `before` with the organisation of every user whose id is `uid` set to `org`. */
  predicate OrganizationSet(before: seq<User>, after: seq<User>, uid: Option<Id>, org: Id) {
    && |after| == |before|
    && forall i :: 0 <= i < |before| ==>
         after[i] == (if Some(before[i].id) == uid then before[i].(organizationId := Some(org)) else before[i])
  }

  /** The caller is signed in with an email, the invite exists, is addressed to that exact email, and is still PENDING. */
  predicate CanAccept(token: Id, auth: AuthSession, db: Db) {
    && HasEmail(auth)
    && Lookup(db, token).Some?
    && Lookup(db, token).value.email == auth.value.email.value
    && Lookup(db, token).value.status == Pending
  }

  function SetStatus(token: Id, s: InviteStatus, invites: seq<Invite>): (r: seq<Invite>)
    ensures StatusSet(invites, r, token, s)
    ensures Unique(invites, InviteId) ==> Unique(r, InviteId)
    ensures Unique(invites, InvitePair) ==> Unique(r, InvitePair)
  {
    var f := (i: Invite) => i.(status := s);
    var r := UpdateWhere(invites, InviteId, token, f);
    if Unique(invites, InviteId) then
      UpdateUnique(invites, InviteId, token, f, InviteId);
      if Unique(invites, InvitePair) then
        UpdateUnique(invites, InviteId, token, f, InvitePair);
        r
      else r
    else if Unique(invites, InvitePair) then
      UpdateUnique(invites, InviteId, token, f, InvitePair);
      r
    else r
  }

  function JoinOrganization(uid: Option<Id>, org: Id, users: seq<User>): (r: seq<User>)
    ensures OrganizationSet(users, r, uid, org)
    ensures Unique(users, UserId) ==> Unique(r, UserId)
    ensures Unique(users, UserEmail) ==> Unique(r, UserEmail)
  {
    var f := (u: User) => u.(organizationId := Some(org));
    var r := UpdateWhere(users, UserIdOpt, uid, f);
    if Unique(users, UserId) then
      UpdateUnique(users, UserIdOpt, uid, f, UserId);
      if Unique(users, UserEmail) then
        UpdateUnique(users, UserIdOpt, uid, f, UserEmail);
        r
      else r
    else if Unique(users, UserEmail) then
      UpdateUnique(users, UserIdOpt, uid, f, UserEmail);
      r
    else r
  }

  /**
   * `acceptInvite`: the checks run in the order authenticated, invite
   * exists, email matches, status PENDING, and the first that fails is the
   * error. On success the caller's user row joins the invite's organisation,
   * the invite becomes ACCEPTED, and nothing else in the store changes.
   */
  function AcceptInvite(token: Id, auth: AuthSession, db: Db): (r: Result<Db, ActionError>)
    ensures r.Success? <==> CanAccept(token, auth, db)
    ensures !HasEmail(auth) ==> r == Failure(NotAuthenticated)
    ensures HasEmail(auth) && Lookup(db, token).None? ==> r == Failure(InvalidInvitation)
    ensures HasEmail(auth) && Lookup(db, token).Some? && Lookup(db, token).value.email != auth.value.email.value
            ==> r == Failure(NotYourInvitation)
    ensures r.Failure? && r.error == AlreadyProcessed
            <==> HasEmail(auth) && Lookup(db, token).Some? && Lookup(db, token).value.email == auth.value.email.value
                 && Lookup(db, token).value.status != Pending
    ensures r.Success? ==>
              && StatusSet(db.invites, r.value.invites, token, Accepted)
              && OrganizationSet(db.users, r.value.users, auth.value.id, Lookup(db, token).value.organizationId)
              && r.value == db.(users := r.value.users, invites := r.value.invites)
    ensures r.Success? && Valid(db) ==> Valid(r.value)
  {
    if !HasEmail(auth) then Failure(NotAuthenticated)
    else
      match Lookup(db, token)
      case None => Failure(InvalidInvitation)
      case Some(invite) =>
        if invite.email != auth.value.email.value then Failure(NotYourInvitation)
        else if invite.status != Pending then Failure(AlreadyProcessed)
        else
          var users := JoinOrganization(auth.value.id, invite.organizationId, db.users);
          var invites := SetStatus(token, Accepted, db.invites);
          Success(db.(users := users, invites := invites))
  }

  /**
   * `declineInvite`: the same checks as accepting except the status one, so
   * any invite addressed to the caller, even an ACCEPTED one, becomes
   * DECLINED. The user's organisation is not touched.
   */
  function DeclineInvite(token: Id, auth: AuthSession, db: Db): (r: Result<Db, ActionError>)
    ensures r.Success? <==> HasEmail(auth) && Lookup(db, token).Some? && Lookup(db, token).value.email == auth.value.email.value
    ensures !HasEmail(auth) ==> r == Failure(NotAuthenticated)
    ensures HasEmail(auth) && Lookup(db, token).None? ==> r == Failure(InvalidInvitation)
    ensures HasEmail(auth) && Lookup(db, token).Some? && Lookup(db, token).value.email != auth.value.email.value
            ==> r == Failure(NotYourInvitation)
    ensures r.Failure? ==> r.error != AlreadyProcessed
    ensures r.Success? ==> StatusSet(db.invites, r.value.invites, token, Declined) && r.value == db.(invites := r.value.invites)
    ensures r.Success? && Valid(db) ==> Valid(r.value)
  {
    if !HasEmail(auth) then Failure(NotAuthenticated)
    else
      match Lookup(db, token)
      case None => Failure(InvalidInvitation)
      case Some(invite) =>
        if invite.email != auth.value.email.value then Failure(NotYourInvitation)
        else Success(db.(invites := SetStatus(token, Declined, db.invites)))
  }

  /** Rewriting statuses in place keeps the first invite with a given id where it was, now with the new status. */
  lemma LookupAfterStatusSet(before: seq<Invite>, after: seq<Invite>, token: Id, s: InviteStatus)
    requires StatusSet(before, after, token, s)
    requires Find(before, InviteId, token).Some?
    ensures Find(after, InviteId, token) == Some(Find(before, InviteId, token).value.(status := s))
  {
    var k := FindIndex(before, InviteId, token).value;
    assert InviteId(after[k]) == token;
    assert HasKey(after, InviteId, token);
    var j := FindIndex(after, InviteId, token).value;
    assert forall i :: 0 <= i < |before| ==> InviteId(after[i]) == InviteId(before[i]);
    assert j == k;
  }

  /** An invite can be accepted at most once: accepting again reports it as already processed. */
  lemma AcceptIsOneShot(token: Id, auth: AuthSession, db: Db)
    requires AcceptInvite(token, auth, db).Success?
    ensures AcceptInvite(token, auth, AcceptInvite(token, auth, db).value) == Failure(AlreadyProcessed)
  {
    var db' := AcceptInvite(token, auth, db).value;
    LookupAfterStatusSet(db.invites, db'.invites, token, Accepted);
  }

  /** Once declined, an invite can no longer be accepted. */
  lemma DeclinedNeverAccepted(token: Id, auth: AuthSession, db: Db)
    requires DeclineInvite(token, auth, db).Success?
    ensures AcceptInvite(token, auth, DeclineInvite(token, auth, db).value) == Failure(AlreadyProcessed)
  {
    var db' := DeclineInvite(token, auth, db).value;
    LookupAfterStatusSet(db.invites, db'.invites, token, Declined);
  }

  /**
   * Declining after accepting succeeds: the invite ends DECLINED while the
   * user stays in the organisation that accepting put them in.
   */
  lemma DeclineAfterAccept(token: Id, auth: AuthSession, db: Db)
    requires AcceptInvite(token, auth, db).Success?
    ensures var db1 := AcceptInvite(token, auth, db).value;
            && DeclineInvite(token, auth, db1).Success?
            && DeclineInvite(token, auth, db1).value.users == db1.users
            && Lookup(DeclineInvite(token, auth, db1).value, token).value.status == Declined
  {
    var db1 := AcceptInvite(token, auth, db).value;
    LookupAfterStatusSet(db.invites, db1.invites, token, Accepted);
    var db2 := DeclineInvite(token, auth, db1).value;
    LookupAfterStatusSet(db1.invites, db2.invites, token, Declined);
  }

  // ---------------------------------------------------------------------
  // The page
  // ---------------------------------------------------------------------

  /** What the invitation page renders. */
  datatype PageView =
    | MissingToken
    | UnknownInvitation
    | ContinueToInvitation(inviteEmail: string)
    | WrongAccount(inviteEmail: string)
    | AlreadyHandled(shown: string)
    | AcceptOrDecline(justVerified: bool)

  /** The already-processed view names ACCEPTED invites "Accepted" and every other status "Declined". */
  function ProcessedLabel(s: InviteStatus): string {
    if s == Accepted then "Accepted" else "Declined"
  }

  /**
   * `InviteAcceptPage`: no token, then unknown invite, then no session,
   * then email mismatch, then non-PENDING status, and only then the
   * accept/decline form.
   */
  function InvitePage(token: Option<string>, verified: Option<string>, auth: AuthSession, db: Db): (v: PageView)
    ensures v.MissingToken? <==> !Present(token)
    ensures v.UnknownInvitation? <==> Present(token) && Lookup(db, token.value).None?
    ensures v.ContinueToInvitation? <==> Present(token) && Lookup(db, token.value).Some? && auth.None?
    ensures v.WrongAccount? <==>
              Present(token) && Lookup(db, token.value).Some? && auth.Some?
              && auth.value.email != Some(Lookup(db, token.value).value.email)
    ensures v.AlreadyHandled? <==>
              && Present(token) && Lookup(db, token.value).Some? && auth.Some?
              && auth.value.email == Some(Lookup(db, token.value).value.email)
              && Lookup(db, token.value).value.status != Pending
    ensures v.AcceptOrDecline? <==>
              && Present(token) && Lookup(db, token.value).Some? && auth.Some?
              && auth.value.email == Some(Lookup(db, token.value).value.email)
              && Lookup(db, token.value).value.status == Pending
    ensures (v.ContinueToInvitation? || v.WrongAccount?) ==> v.inviteEmail == Lookup(db, token.value).value.email
    ensures v.AlreadyHandled? ==> v.shown == ProcessedLabel(Lookup(db, token.value).value.status)
    ensures v.AcceptOrDecline? ==> (v.justVerified <==> verified == Some("true"))
  {
    if !Present(token) then MissingToken
    else
      match Lookup(db, token.value)
      case None => UnknownInvitation
      case Some(invite) =>
        if auth.None? then ContinueToInvitation(invite.email)
        else if auth.value.email != Some(invite.email) then WrongAccount(invite.email)
        else if invite.status != Pending then AlreadyHandled(ProcessedLabel(invite.status))
        else AcceptOrDecline(verified == Some("true"))
  }

  /** Because the status has exactly three values, the already-processed label is always the invite's real state. */
  lemma ProcessedLabelExact(token: Option<string>, verified: Option<string>, auth: AuthSession, db: Db)
    requires InvitePage(token, verified, auth, db).AlreadyHandled?
    ensures var s := Lookup(db, token.value).value.status;
            && s != Pending
            && (InvitePage(token, verified, auth, db).shown == "Accepted" <==> s == Accepted)
            && (InvitePage(token, verified, auth, db).shown == "Declined" <==> s == Declined)
  {
  }

  /**
   * The page offers the form exactly when accepting would succeed, as long
   * as the session's email is non-empty (the action rejects an empty one
   * as unauthenticated; the page does not).
   */
  lemma FormIffAcceptSucceeds(token: string, verified: Option<string>, auth: AuthSession, db: Db)
    requires token != "" && HasEmail(auth)
    ensures InvitePage(Some(token), verified, auth, db).AcceptOrDecline? <==> AcceptInvite(token, auth, db).Success?
  {
  }

  /** With an empty session email and an invite to the empty address, the page offers the form but accepting fails. */
  lemma EmptyEmailGap()
    ensures var db := Db([], [], [], [], [], [Invite("t", "", "o", "u", 0, Pending)], [], [], []);
            var auth := Some(AuthUser(Some("u"), Some(""), None));
            && InvitePage(Some("t"), None, auth, db).AcceptOrDecline?
            && AcceptInvite("t", auth, db) == Failure(NotAuthenticated)
  {
    var db := Db([], [], [], [], [], [Invite("t", "", "o", "u", 0, Pending)], [], [], []);
    assert FindIndex(db.invites, InviteId, "t") == Some(0);
  }

  // ---------------------------------------------------------------------
  // Auto-verification for a visitor without a session
  // ---------------------------------------------------------------------

  /** Thirty days in milliseconds: the lifetime of the session auto-verification issues. */
  const SessionLifetime: int := 30 * 24 * 60 * 60 * 1000

  /** Where the action sends the visitor. */
  datatype Destination =
    | ToSetSession(sessionToken: string, inviteToken: string)
    | ToSignIn(email: string, inviteToken: string)

  /** The store after the action's writes, and whether the session row was written. */
  datatype Effects = Effects(db: Db, sessionIssued: bool)

  function MarkVerified(u: User): User {
    u.(emailVerified := true)
  }

  /** The email now belongs to a verified user whose id is `uid`. */
  predicate VerifiedAs(db: Db, email: string, uid: Id) {
    && Find(db.users, UserEmail, email).Some?
    && Find(db.users, UserEmail, email).value.emailVerified
    && Find(db.users, UserEmail, email).value.id == uid
  }

  /** `update users set emailVerified = true where id = uid`: lookups by email still find the same rows. */
  function MarkUserVerified(uid: Id, email: string, users: seq<User>): (r: seq<User>)
    requires Find(users, UserEmail, email).Some? && Find(users, UserEmail, email).value.id == uid
    ensures |r| == |users|
    ensures forall i :: 0 <= i < |users| ==> r[i] == (if users[i].id == uid then users[i].(emailVerified := true) else users[i])
    ensures Find(r, UserEmail, email) == Some(Find(users, UserEmail, email).value.(emailVerified := true))
    ensures Unique(users, UserId) ==> Unique(r, UserId)
    ensures Unique(users, UserEmail) ==> Unique(r, UserEmail)
  {
    var r := UpdateWhere(users, UserId, uid, MarkVerified);
    FindIndexSameKeys(users, r, UserEmail, email);
    UpdateUniqueImplies(users, uid);
    r
  }

  lemma UpdateUniqueImplies(users: seq<User>, uid: Id)
    ensures Unique(users, UserId) ==> Unique(UpdateWhere(users, UserId, uid, MarkVerified), UserId)
    ensures Unique(users, UserEmail) ==> Unique(UpdateWhere(users, UserId, uid, MarkVerified), UserEmail)
  {
    if Unique(users, UserId) {
      UpdateUnique(users, UserId, uid, MarkVerified, UserId);
    }
    if Unique(users, UserEmail) {
      UpdateUnique(users, UserId, uid, MarkVerified, UserEmail);
    }
  }

  /**
   * The user half of the action: an unknown email gets a new user row that
   * is already verified (no name, no organisation, not an admin); a known
   * unverified user is marked verified; a verified one is left alone. Yields
   * the id the session will belong to, or the insert's failure.
   */
  function EnsureVerifiedUser(email: string, newUserId: Id, db: Db): (r: Result<(Db, Id), DbError>)
    ensures r.Failure? <==> !HasKey(db.users, UserEmail, email) && HasKey(db.users, UserId, newUserId)
    ensures r.Success? ==> VerifiedAs(r.value.0, email, r.value.1)
    ensures r.Success? ==> r.value.0 == db.(users := r.value.0.users)
    ensures r.Success? && !HasKey(db.users, UserEmail, email) ==>
              r.value.0.users == db.users + [User(newUserId, None, email, true, None, DefaultIsAdmin)]
    ensures r.Success? && HasKey(db.users, UserEmail, email) ==>
              |r.value.0.users| == |db.users|
              && forall i :: 0 <= i < |db.users| && db.users[i].id != r.value.1 ==> r.value.0.users[i] == db.users[i]
    ensures r.Success? && Valid(db) ==> Valid(r.value.0)
  {
    match Find(db.users, UserEmail, email)
    case None =>
      var u := User(newUserId, None, email, true, None, DefaultIsAdmin);
      (match InsertUser(db, u)
       case Failure(e) => Failure(e)
       case Success(db1) =>
         FindAppendNew(db.users, UserEmail, u);
         Success((db1, newUserId)))
    case Some(u) =>
      if u.emailVerified then Success((db, u.id))
      else Success((db.(users := MarkUserVerified(u.id, email, db.users)), u.id))
  }

  /**
   * The writes of `autoVerifyAndCreateSession`: make sure a verified user
   * owns the email, then insert a session for that user expiring thirty
   * days after `now`. A failing write stops the action with the earlier
   * writes kept.
   */
  function AutoVerifyEffects(email: string, newUserId: Id, sessionId: Id, sessionToken: string, now: Time, db: Db): (e: Effects)
    ensures e.db == db.(users := e.db.users, sessions := e.db.sessions)
    ensures e.sessionIssued <==>
              && EnsureVerifiedUser(email, newUserId, db).Success?
              && !HasKey(db.sessions, SessionId, sessionId)
              && !HasKey(db.sessions, SessionToken, sessionToken)
    ensures e.sessionIssued ==>
              exists uid :: VerifiedAs(e.db, email, uid)
                && e.db.sessions == db.sessions + [Session(sessionId, sessionToken, now + SessionLifetime, uid)]
    ensures !e.sessionIssued ==> e.db.sessions == db.sessions
    ensures Valid(db) ==> Valid(e.db)
  {
    match EnsureVerifiedUser(email, newUserId, db)
    case Failure(_) => Effects(db, false)
    case Success((db1, uid)) =>
      match InsertSession(db1, Session(sessionId, sessionToken, now + SessionLifetime, uid))
      case Failure(_) => Effects(db1, false)
      case Success(db2) =>
        assert VerifiedAs(db2, email, uid);
        Effects(db2, true)
  }

  /**
   * How the `try` block ends. It never completes normally: `redirect`
   * signals by throwing, so a written session ends in the redirect signal
   * for the hand-off endpoint, and a failed write ends in the store's error.
   */
  datatype Thrown = RedirectSignal(to: Destination) | WriteFailed

  /** The `try` block: the writes, then the redirect to the hand-off endpoint, which throws. */
  function AutoVerifyTry(email: string, token: string, newUserId: Id, sessionId: Id, sessionToken: string, now: Time, db: Db)
    : (r: (Thrown, Db))
    ensures r.0.RedirectSignal? <==> AutoVerifyEffects(email, newUserId, sessionId, sessionToken, now, db).sessionIssued
    ensures r.0.RedirectSignal? ==> r.0.to == ToSetSession(sessionToken, token)
    ensures r.1 == AutoVerifyEffects(email, newUserId, sessionId, sessionToken, now, db).db
  {
    var e := AutoVerifyEffects(email, newUserId, sessionId, sessionToken, now, db);
    (if e.sessionIssued then RedirectSignal(ToSetSession(sessionToken, token)) else WriteFailed, e.db)
  }

  /** The `catch` as written: whatever was thrown is logged and the visitor is sent to sign in. */
  function CatchAll(t: Thrown, email: string, token: string): Destination {
    ToSignIn(email, token)
  }

  /** The `catch` as intended: a redirect signal is passed on, and only a failed write falls back to sign-in. */
  function CatchRethrowingRedirect(t: Thrown, email: string, token: string): Destination {
    match t
    case RedirectSignal(d) => d
    case WriteFailed => ToSignIn(email, token)
  }

  /** The action as written: the `try` block followed by the catch-all. It performs the same writes as the intended action. */
  function AutoVerifyAsWritten(email: string, token: string, newUserId: Id, sessionId: Id, sessionToken: string, now: Time, db: Db)
    : (r: (Destination, Db))
    ensures r.1 == AutoVerify(email, token, newUserId, sessionId, sessionToken, now, db).1
  {
    var t := AutoVerifyTry(email, token, newUserId, sessionId, sessionToken, now, db);
    (CatchAll(t.0, email, token), t.1)
  }

  /**
   * As written, every run ends at the sign-in fallback, and whenever the
   * session was written that differs from where the intended action goes.
   */
  lemma AsWrittenAlwaysSignsIn(email: string, token: string, newUserId: Id, sessionId: Id, sessionToken: string, now: Time, db: Db)
    ensures AutoVerifyAsWritten(email, token, newUserId, sessionId, sessionToken, now, db).0 == ToSignIn(email, token)
    ensures AutoVerifyTry(email, token, newUserId, sessionId, sessionToken, now, db).0.RedirectSignal? ==>
              AutoVerify(email, token, newUserId, sessionId, sessionToken, now, db).0
              != AutoVerifyAsWritten(email, token, newUserId, sessionId, sessionToken, now, db).0
  {
  }

  /** A first-time visitor on an empty store gets a verified user and a session, yet is sent to sign in. */
  lemma AutoVerifySessionDiscarded()
    ensures var db := Db([], [], [], [], [], [], [], [], []);
            var r := AutoVerifyAsWritten("a@b", "t", "u", "s", "k", 0, db);
            && r.0.ToSignIn?
            && r.1.sessions == [Session("s", "k", SessionLifetime, "u")]
            && VerifiedAs(r.1, "a@b", "u")
  {
    var db := Db([], [], [], [], [], [], [], [], []);
    var e := AutoVerifyEffects("a@b", "u", "s", "k", 0, db);
    assert e.db.users == [User("u", None, "a@b", true, None, DefaultIsAdmin)];
    assert FindIndex(e.db.users, UserEmail, "a@b") == Some(0);
  }

  /**
   * The action as intended, with a `catch` that passes the redirect signal
   * on: when the session row was written, the visitor is sent to the
   * hand-off endpoint with that session's token; only when a write failed
   * do they fall back to signing in.
   */
  function AutoVerify(email: string, token: string, newUserId: Id, sessionId: Id, sessionToken: string, now: Time, db: Db)
    : (r: (Destination, Db))
    ensures r.0.ToSetSession? <==> AutoVerifyEffects(email, newUserId, sessionId, sessionToken, now, db).sessionIssued
    ensures r.0.ToSignIn? ==> r.0 == ToSignIn(email, token) && r.1.sessions == db.sessions
    ensures r.0.ToSetSession? ==>
              && r.0 == ToSetSession(sessionToken, token)
              && exists uid :: VerifiedAs(r.1, email, uid)
                   && r.1.sessions == db.sessions + [Session(sessionId, sessionToken, now + SessionLifetime, uid)]
    ensures Valid(db) ==> Valid(r.1)
  {
    var t := AutoVerifyTry(email, token, newUserId, sessionId, sessionToken, now, db);
    (CatchRethrowingRedirect(t.0, email, token), t.1)
  }

  /** An already verified user gets only a new session: the users table is untouched. */
  lemma AutoVerifyKeepsVerifiedUser(email: string, token: string, newUserId: Id, sessionId: Id, sessionToken: string, now: Time, db: Db)
    requires Find(db.users, UserEmail, email).Some? && Find(db.users, UserEmail, email).value.emailVerified
    ensures AutoVerify(email, token, newUserId, sessionId, sessionToken, now, db).1.users == db.users
  {
  }
}
