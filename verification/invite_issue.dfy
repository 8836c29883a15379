/**
 * `POST /api/organization/invite`: an organisation admin invites an email
 * address. The checks run in a fixed order and the first that fails decides
 * the status code; on success the (email, organisation) pair ends with
 * exactly one PENDING invite, either a fresh row or an old ACCEPTED or
 * DECLINED one reset to PENDING.
 */
module InviteIssue {
  import opened Wrappers
  import opened Js
  import opened Table
  import opened Schema
  import opened Http

  /** The request body's `email` field; None when `request.json()` throws or yields null. */
  datatype InviteBody = InviteBody(email: Json)

  /** What the checks hand to the write: the caller, the caller's organisation and the normalised address. */
  datatype Checked = Checked(caller: Id, org: Id, email: string)

  /** The invite already held for the pair (`where email = … and organizationId = … limit 1`). */
  function PairInvite(db: Db, email: string, org: Id): Option<Invite> {
    Find(db.invites, InvitePair, (email, org))
  }

  /** A user with that address already belongs to the organisation. */
  predicate IsMember(db: Db, email: string, org: Id) {
    Find(db.users, UserEmail, email).Some? && Find(db.users, UserEmail, email).value.organizationId == Some(org)
  }

  /**
   * The checks in source order: 401 without a caller id, 500 when the body
   * cannot be read, 400 when `email` is not a non-empty string, 404 when the
   * caller has no joined organisation, 403 when the caller is not an admin,
   * 400 when the address already belongs to a member, 400 when a PENDING
   * invite is outstanding for the pair.
   */
  function CheckInvite(auth: AuthSession, body: Option<InviteBody>, db: Db): (r: Result<Checked, nat>)
    ensures !HasUserId(auth) ==> r == Failure(Unauthorized)
    ensures HasUserId(auth) && body.None? ==> r == Failure(ServerError)
    ensures HasUserId(auth) && body.Some? && !NonEmptyString(body.value.email) ==> r == Failure(BadRequest)
    ensures HasUserId(auth) && body.Some? && NonEmptyString(body.value.email) && !InJoinedOrganization(CallerRow(auth, db), db)
            ==> r == Failure(NotFound)
    ensures (HasUserId(auth) && body.Some? && NonEmptyString(body.value.email) && InJoinedOrganization(CallerRow(auth, db), db)
             && !CallerRow(auth, db).value.isAdmin) ==> r == Failure(Forbidden)
    ensures (HasUserId(auth) && body.Some? && NonEmptyString(body.value.email) && InJoinedOrganization(CallerRow(auth, db), db)
             && CallerRow(auth, db).value.isAdmin
             && IsMember(db, NormalizeEmail(body.value.email.s), CallerRow(auth, db).value.organizationId.value))
            ==> r == Failure(BadRequest)
    ensures (HasUserId(auth) && body.Some? && NonEmptyString(body.value.email) && InJoinedOrganization(CallerRow(auth, db), db)
             && CallerRow(auth, db).value.isAdmin
             && var email := NormalizeEmail(body.value.email.s);
                var org := CallerRow(auth, db).value.organizationId.value;
                PairInvite(db, email, org).Some? && PairInvite(db, email, org).value.status == Pending)
            ==> r == Failure(BadRequest)
    ensures r.Success? <==>
              && HasUserId(auth) && body.Some? && NonEmptyString(body.value.email)
              && InJoinedOrganization(CallerRow(auth, db), db) && CallerRow(auth, db).value.isAdmin
              && var email := NormalizeEmail(body.value.email.s);
                 var org := CallerRow(auth, db).value.organizationId.value;
                 && !IsMember(db, email, org)
                 && !(PairInvite(db, email, org).Some? && PairInvite(db, email, org).value.status == Pending)
    ensures r.Success? ==>
              && r.value.caller == CallerId(auth)
              && r.value.org == CallerRow(auth, db).value.organizationId.value
              && r.value.email == NormalizeEmail(body.value.email.s)
    ensures r.Failure? ==> r.error in {Unauthorized, ServerError, BadRequest, NotFound, Forbidden}
  {
    if !HasUserId(auth) then Failure(Unauthorized)
    else if body.None? then Failure(ServerError)
    else if !NonEmptyString(body.value.email) then Failure(BadRequest)
    else
      var email := NormalizeEmail(body.value.email.s);
      var user := CallerRow(auth, db);
      if !InJoinedOrganization(user, db) then Failure(NotFound)
      else if !user.value.isAdmin then Failure(Forbidden)
      else
        var org := user.value.organizationId.value;
        if IsMember(db, email, org) then Failure(BadRequest)
        else if PairInvite(db, email, org).Some? && PairInvite(db, email, org).value.status == Pending then Failure(BadRequest)
        else Success(Checked(CallerId(auth), org, email))
  }

  /** Back to PENDING with a fresh creation time; id, address, organisation and inviter are kept. */
  function Reset(i: Invite, now: Time): Invite {
    i.(status := Pending, createdAt := now)
  }

  /** The pair holds exactly one invite, and it is PENDING. */
  predicate OnePending(db: Db, email: string, org: Id) {
    && CountKey(db.invites, InvitePair, (email, org)) == 1
    && PairInvite(db, email, org).Some?
    && PairInvite(db, email, org).value.status == Pending
  }

  lemma ResetKeepsKeys(invites: seq<Invite>, id: Id, now: Time)
    ensures var r := UpdateWhere(invites, InviteId, id, (i: Invite) => Reset(i, now));
            && (Unique(invites, InviteId) ==> Unique(r, InviteId))
            && (Unique(invites, InvitePair) ==> Unique(r, InvitePair))
            && forall i :: 0 <= i < |invites| ==> InvitePair(r[i]) == InvitePair(invites[i])
  {
    var f := (i: Invite) => Reset(i, now);
    if Unique(invites, InviteId) {
      UpdateUnique(invites, InviteId, id, f, InviteId);
    }
    if Unique(invites, InvitePair) {
      UpdateUnique(invites, InviteId, id, f, InvitePair);
    }
  }

  /**
   * The create-or-reset step: an existing (non-PENDING) invite for the pair
   * is reset in place; otherwise a new PENDING invite from the caller is
   * inserted, which the database refuses when the fresh id is taken.
   */
  function WriteInvite(c: Checked, newId: Id, now: Time, db: Db): (r: Result<(Invite, Db), DbError>)
    ensures r.Failure? <==> PairInvite(db, c.email, c.org).None? && HasKey(db.invites, InviteId, newId)
    ensures r.Success? ==> r.value.1 == db.(invites := r.value.1.invites)
    ensures r.Success? ==> PairInvite(r.value.1, c.email, c.org) == Some(r.value.0)
    ensures r.Success? ==> r.value.0.status == Pending && r.value.0.createdAt == now
                           && InvitePair(r.value.0) == (c.email, c.org)
    ensures r.Success? && PairInvite(db, c.email, c.org).Some? ==>
              && r.value.0 == Reset(PairInvite(db, c.email, c.org).value, now)
              && |r.value.1.invites| == |db.invites|
              && forall i :: 0 <= i < |db.invites| ==>
                   r.value.1.invites[i] == if db.invites[i].id == PairInvite(db, c.email, c.org).value.id
                                           then Reset(db.invites[i], now) else db.invites[i]
    ensures r.Success? && PairInvite(db, c.email, c.org).None? ==>
              && r.value.0 == Invite(newId, c.email, c.org, c.caller, now, DefaultInviteStatus)
              && r.value.1.invites == db.invites + [r.value.0]
    ensures r.Success? && Valid(db) ==> Valid(r.value.1)
  {
    match PairInvite(db, c.email, c.org)
    case Some(prior) =>
      var invites := UpdateWhere(db.invites, InviteId, prior.id, (i: Invite) => Reset(i, now));
      ResetKeepsKeys(db.invites, prior.id, now);
      FindIndexSameKeys(db.invites, invites, InvitePair, (c.email, c.org));
      Success((Reset(prior, now), db.(invites := invites)))
    case None =>
      var created := Invite(newId, c.email, c.org, c.caller, now, DefaultInviteStatus);
      (match InsertInvite(db, created)
       case Failure(e) => Failure(e)
       case Success(db1) =>
         FindAppendNew(db.invites, InvitePair, created);
         Success((created, db1)))
  }

  /**
   * The whole handler: the checks, then the write; a refused insert is the
   * catch-all 500. Success is 201 with the invite row. Sending the email
   * is outside the model: its failure is caught and does not change the reply.
   */
  function IssueInvite(auth: AuthSession, body: Option<InviteBody>, newId: Id, now: Time, db: Db): (r: Reply<Invite>)
    ensures r.Done? <==> CheckInvite(auth, body, db).Success? && WriteInvite(CheckInvite(auth, body, db).value, newId, now, db).Success?
    ensures r.Fail? && CheckInvite(auth, body, db).Failure? ==> r.code == CheckInvite(auth, body, db).error
    ensures r.Fail? && CheckInvite(auth, body, db).Success? ==> r.code == ServerError
    ensures r.Done? ==>
              var c := CheckInvite(auth, body, db).value;
              && r.code == Created
              && r.db == db.(invites := r.db.invites)
              && PairInvite(r.db, c.email, c.org) == Some(r.body)
              && r.body.status == Pending
    ensures r.Done? && Valid(db) ==> Valid(r.db)
  {
    match CheckInvite(auth, body, db)
    case Failure(code) => Fail(code)
    case Success(c) =>
      match WriteInvite(c, newId, now, db)
      case Failure(_) => Fail(ServerError)
      case Success((invite, db1)) => Done(Created, invite, db1)
  }

  /** After a successful call on a consistent store the pair holds exactly one invite, and it is PENDING. */
  lemma IssuedInviteIsOnlyPending(auth: AuthSession, body: Option<InviteBody>, newId: Id, now: Time, db: Db)
    requires Valid(db)
    requires IssueInvite(auth, body, newId, now, db).Done?
    ensures var c := CheckInvite(auth, body, db).value;
            OnePending(IssueInvite(auth, body, newId, now, db).db, c.email, c.org)
  {
    var c := CheckInvite(auth, body, db).value;
    var r := IssueInvite(auth, body, newId, now, db);
    UniqueCountOne(r.db.invites, InvitePair, (c.email, c.org));
  }

  /** Addresses that differ only in surrounding whitespace or letter case are the same request. */
  lemma NormalizedEmailsAgree(auth: AuthSession, e1: string, e2: string, newId: Id, now: Time, db: Db)
    requires e1 != "" && e2 != "" && NormalizeEmail(e1) == NormalizeEmail(e2)
    ensures IssueInvite(auth, Some(InviteBody(Str(e1))), newId, now, db) == IssueInvite(auth, Some(InviteBody(Str(e2))), newId, now, db)
  {
  }

  /** A whitespace-only address passes the 400 check and is invited as the empty string. */
  lemma BlankEmailInvitesEmptyAddress(auth: AuthSession, newId: Id, now: Time, db: Db)
    requires IssueInvite(auth, Some(InviteBody(Str(" "))), newId, now, db).Done?
    ensures IssueInvite(auth, Some(InviteBody(Str(" "))), newId, now, db).body.email == ""
  {
    assert Trim(" ") == "" by {
      TrimEmptyIffBlank(" ");
    }
  }

  /** Only membership of the inviter's own organisation blocks an invite: a user of another organisation can be invited. */
  lemma MemberElsewhereInvitable(auth: AuthSession, body: Option<InviteBody>, db: Db)
    requires HasUserId(auth) && body.Some? && NonEmptyString(body.value.email)
    requires InJoinedOrganization(CallerRow(auth, db), db) && CallerRow(auth, db).value.isAdmin
    requires var email := NormalizeEmail(body.value.email.s);
             && Find(db.users, UserEmail, email).Some?
             && Find(db.users, UserEmail, email).value.organizationId != CallerRow(auth, db).value.organizationId
             && PairInvite(db, email, CallerRow(auth, db).value.organizationId.value).None?
    ensures CheckInvite(auth, body, db).Success?
  {
  }

  /** Issuing twice in a row: the second call finds the first's PENDING invite and is refused with 400, writing nothing. */
  lemma SecondIssueRefused(auth: AuthSession, body: Option<InviteBody>, id1: Id, id2: Id, t1: Time, t2: Time, db: Db)
    requires IssueInvite(auth, body, id1, t1, db).Done?
    ensures var db1 := IssueInvite(auth, body, id1, t1, db).db;
            IssueInvite(auth, body, id2, t2, db1) == Fail(BadRequest)
  {
    var db1 := IssueInvite(auth, body, id1, t1, db).db;
    assert db1.users == db.users;
    assert CallerRow(auth, db1) == CallerRow(auth, db);
  }
}
