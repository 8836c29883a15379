/**
 * Organisation setup: the `createOrganization` server action (create the
 * organisation, make the creator its admin, invite each submitted address)
 * and the routing of the setup page itself.
 */
module OrgSetup {
  import opened Wrappers
  import opened Js
  import opened Table
  import opened Schema
  import opened Http

  /** How the server action ends. */
  datatype SetupOutcome =
    | SetupToSignIn            // redirect("/auth/signin")
    | NameRequired             // throws "Organization name is required"
    | SetupFailed              // the organisation insert throws
    | SetupDone(db: Db)        // redirect("/dashboard") after the writes

  /** The ids handed to the invites are fresh: none is taken and no two are equal. */
  predicate FreshIds(ids: seq<Id>, db: Db) {
    && (forall j :: 0 <= j < |ids| ==> !HasKey(db.invites, InviteId, ids[j]))
    && (forall j, k :: 0 <= j < k < |ids| ==> ids[j] != ids[k])
  }

  /** The invite the loop tries for one address: raw address, new organisation, the creator as inviter, PENDING. */
  function SetupInvite(id: Id, email: string, org: Id, inviter: Id, now: Time): Invite {
    Invite(id, email, org, inviter, now, DefaultInviteStatus)
  }

  /** The invites the loop tries, one per address, in list order. */
  function Attempts(emails: seq<string>, ids: seq<Id>, org: Id, inviter: Id, now: Time): (r: seq<Invite>)
    requires |ids| == |emails|
    ensures |r| == |emails|
    ensures forall j :: 0 <= j < |r| ==> r[j] == SetupInvite(ids[j], emails[j], org, inviter, now)
  {
    seq(|emails|, j requires 0 <= j < |emails| => SetupInvite(ids[j], emails[j], org, inviter, now))
  }

  /** `xs` is `ys` with some elements left out, the rest in their order. */
  predicate Subsequence<T(==)>(xs: seq<T>, ys: seq<T>)
    decreases |ys|
  {
    xs == [] || (ys != [] && ((xs[0] == ys[0] && Subsequence(xs[1..], ys[1..])) || Subsequence(xs, ys[1..])))
  }

  lemma SubsequenceCons<T>(y: T, xs: seq<T>, ys: seq<T>)
    requires Subsequence(xs, ys)
    ensures Subsequence([y] + xs, [y] + ys)
    ensures Subsequence(xs, [y] + ys)
  {
    assert ([y] + xs)[1..] == xs && ([y] + ys)[1..] == ys;
  }

  /** Every address is new to the organisation and listed once, and every id is fresh: each insert of the loop succeeds. */
  predicate AllNew(emails: seq<string>, ids: seq<Id>, org: Id, db: Db) {
    && FreshIds(ids, db)
    && (forall j :: 0 <= j < |emails| ==> !HasKey(db.invites, InvitePair, (emails[j], org)))
    && (forall j, k :: 0 <= j < k < |emails| ==> emails[j] != emails[k])
  }

  /** Every row appended after `n` is an invite of `org` from `inviter`, PENDING, to one of `emails`. */
  predicate AppendedFrom(invites: seq<Invite>, n: nat, emails: seq<string>, org: Id, inviter: Id) {
    forall i :: n <= i < |invites| ==>
      && invites[i].organizationId == org && invites[i].invitedBy == inviter
      && invites[i].status == Pending && invites[i].email in emails
  }

  /**
   * The per-address loop: one insert per address, in list order. A failing
   * insert (the pair already invited, the id taken) is swallowed and the
   * loop goes on; the store only ever grows by appended invites.
   */
  function InviteEach(emails: seq<string>, ids: seq<Id>, org: Id, inviter: Id, now: Time, db: Db): (r: Db)
    requires |ids| == |emails|
    ensures r == db.(invites := r.invites)
    ensures |db.invites| <= |r.invites| <= |db.invites| + |emails|
    ensures r.invites[..|db.invites|] == db.invites
    ensures AppendedFrom(r.invites, |db.invites|, emails, org, inviter)
    ensures Valid(db) ==> Valid(r)
    ensures FreshIds(ids, db) ==> forall j :: 0 <= j < |emails| ==> HasKey(r.invites, InvitePair, (emails[j], org))
    ensures Subsequence(r.invites[|db.invites|..], Attempts(emails, ids, org, inviter, now))
    ensures AllNew(emails, ids, org, db) ==> r.invites == db.invites + Attempts(emails, ids, org, inviter, now)
    decreases |emails|
  {
    if emails == [] then db
    else
      var db1 := match InsertInvite(db, SetupInvite(ids[0], emails[0], org, inviter, now))
                 case Failure(_) => db
                 case Success(d) => d;
      var r := InviteEach(emails[1..], ids[1..], org, inviter, now, db1);
      EachStep(emails, ids, org, inviter, now, db, db1, r);
      EachOrder(emails, ids, org, inviter, now, db, db1, r);
      EachExact(emails, ids, org, inviter, now, db, db1, r);
      r
  }

  /** The attempted invites are the first address's invite followed by the rest's. */
  lemma AttemptsCons(emails: seq<string>, ids: seq<Id>, org: Id, inviter: Id, now: Time)
    requires |ids| == |emails| > 0
    ensures Attempts(emails, ids, org, inviter, now)
         == [SetupInvite(ids[0], emails[0], org, inviter, now)] + Attempts(emails[1..], ids[1..], org, inviter, now)
  {
    var all := Attempts(emails, ids, org, inviter, now);
    var rest := Attempts(emails[1..], ids[1..], org, inviter, now);
    assert forall j :: 1 <= j < |all| ==> all[j] == rest[j - 1];
  }

  /** The step of the loop for the order of the appended rows. */
  lemma EachOrder(emails: seq<string>, ids: seq<Id>, org: Id, inviter: Id, now: Time, db: Db, db1: Db, r: Db)
    requires |ids| == |emails| > 0
    requires db1 == (match InsertInvite(db, SetupInvite(ids[0], emails[0], org, inviter, now))
                     case Failure(_) => db
                     case Success(d) => d)
    requires |db1.invites| <= |r.invites| && r.invites[..|db1.invites|] == db1.invites
    requires Subsequence(r.invites[|db1.invites|..], Attempts(emails[1..], ids[1..], org, inviter, now))
    ensures Subsequence(r.invites[|db.invites|..], Attempts(emails, ids, org, inviter, now))
  {
    var inv := SetupInvite(ids[0], emails[0], org, inviter, now);
    var tail := r.invites[|db1.invites|..];
    AttemptsCons(emails, ids, org, inviter, now);
    SubsequenceCons(inv, tail, Attempts(emails[1..], ids[1..], org, inviter, now));
    if InsertInvite(db, inv).Success? {
      assert r.invites[|db.invites|..] == [inv] + tail;
    }
  }

  /** The step of the loop when every insert succeeds: the appended rows are exactly the attempted invites. */
  lemma EachExact(emails: seq<string>, ids: seq<Id>, org: Id, inviter: Id, now: Time, db: Db, db1: Db, r: Db)
    requires |ids| == |emails| > 0
    requires db1 == (match InsertInvite(db, SetupInvite(ids[0], emails[0], org, inviter, now))
                     case Failure(_) => db
                     case Success(d) => d)
    requires AllNew(emails[1..], ids[1..], org, db1) ==> r.invites == db1.invites + Attempts(emails[1..], ids[1..], org, inviter, now)
    ensures AllNew(emails, ids, org, db) ==> r.invites == db.invites + Attempts(emails, ids, org, inviter, now)
  {
    if AllNew(emails, ids, org, db) {
      var inv := SetupInvite(ids[0], emails[0], org, inviter, now);
      AllNewStep(emails, ids, org, inviter, now, db);
      assert db1 == db.(invites := db.invites + [inv]);
      var rest := Attempts(emails[1..], ids[1..], org, inviter, now);
      assert r.invites == (db.invites + [inv]) + rest;
      assert (db.invites + [inv]) + rest == db.invites + ([inv] + rest);
      AttemptsCons(emails, ids, org, inviter, now);
    }
  }

  /** When every insert succeeds, the first one leaves the rest of the list just as new. */
  lemma AllNewStep(emails: seq<string>, ids: seq<Id>, org: Id, inviter: Id, now: Time, db: Db)
    requires |ids| == |emails| > 0
    requires AllNew(emails, ids, org, db)
    ensures InsertInvite(db, SetupInvite(ids[0], emails[0], org, inviter, now)).Success?
    ensures AllNew(emails[1..], ids[1..], org, db.(invites := db.invites + [SetupInvite(ids[0], emails[0], org, inviter, now)]))
  {
    var inv := SetupInvite(ids[0], emails[0], org, inviter, now);
    var rows := db.invites + [inv];
    forall j | 0 <= j < |ids| - 1 ensures !HasKey(rows, InviteId, ids[1..][j]) {
      HasKeyAppend(db.invites, InviteId, inv, ids[j + 1]);
    }
    forall j | 0 <= j < |emails| - 1 ensures !HasKey(rows, InvitePair, (emails[1..][j], org)) {
      HasKeyAppend(db.invites, InvitePair, inv, (emails[j + 1], org));
    }
  }

  /** The step of the loop: what the head insert and the recursive call each promise compose into the loop's promise. */
  lemma EachStep(emails: seq<string>, ids: seq<Id>, org: Id, inviter: Id, now: Time, db: Db, db1: Db, r: Db)
    requires |ids| == |emails| > 0
    requires db1 == (match InsertInvite(db, SetupInvite(ids[0], emails[0], org, inviter, now))
                     case Failure(_) => db
                     case Success(d) => d)
    requires r == db1.(invites := r.invites)
    requires |db1.invites| <= |r.invites| && r.invites[..|db1.invites|] == db1.invites
    requires AppendedFrom(r.invites, |db1.invites|, emails[1..], org, inviter)
    requires FreshIds(ids[1..], db1) ==> forall j :: 0 <= j < |emails| - 1 ==> HasKey(r.invites, InvitePair, (emails[1..][j], org))
    ensures r.invites[..|db.invites|] == db.invites
    ensures AppendedFrom(r.invites, |db.invites|, emails, org, inviter)
    ensures FreshIds(ids, db) ==> forall j :: 0 <= j < |emails| ==> HasKey(r.invites, InvitePair, (emails[j], org))
  {
    assert db1.invites[..|db.invites|] == db.invites;
    assert r.invites[..|db.invites|] == db.invites by {
      assert r.invites[..|db.invites|] == r.invites[..|db1.invites|][..|db.invites|];
    }
    forall x | x in emails[1..] ensures x in emails {
    }
    if FreshIds(ids, db) {
      var inv := SetupInvite(ids[0], emails[0], org, inviter, now);
      assert !HasKey(db.invites, InviteId, ids[0]);
      assert HasKey(db1.invites, InvitePair, (emails[0], org)) by {
        if !HasKey(db.invites, InvitePair, InvitePair(inv)) {
          assert db1.invites[|db.invites|] == inv;
        }
      }
      assert FreshIds(ids[1..], db1) by {
        forall j | 0 <= j < |ids| - 1 ensures !HasKey(db1.invites, InviteId, ids[1..][j]) {
          assert ids[1..][j] == ids[j + 1] && ids[0] != ids[j + 1];
          assert !HasKey(db.invites, InviteId, ids[j + 1]);
        }
      }
      forall j | 0 <= j < |emails| ensures HasKey(r.invites, InvitePair, (emails[j], org)) {
        if j == 0 {
          var i :| 0 <= i < |db1.invites| && InvitePair(db1.invites[i]) == (emails[0], org);
          assert r.invites[i] == r.invites[..|db1.invites|][i];
        } else {
          assert emails[j] == emails[1..][j - 1];
        }
      }
    }
  }

  function Promote(u: User, org: Id): User {
    u.(organizationId := Some(org), isAdmin := true)
  }

  /** Every user whose id is `uid` is moved into `org` as its admin; no other row changes. */
  predicate Promoted(before: seq<User>, after: seq<User>, uid: Id, org: Id) {
    && |after| == |before|
    && forall i :: 0 <= i < |before| ==> after[i] == (if before[i].id == uid then Promote(before[i], org) else before[i])
  }

  function PromoteUser(uid: Id, org: Id, users: seq<User>): (r: seq<User>)
    ensures Promoted(users, r, uid, org)
    ensures forall k :: FindIndex(r, UserId, k) == FindIndex(users, UserId, k)
    ensures Unique(users, UserId) ==> Unique(r, UserId)
    ensures Unique(users, UserEmail) ==> Unique(r, UserEmail)
  {
    PromoteKeepsKeys(uid, org, users);
    UpdateWhere(users, UserId, uid, (u: User) => Promote(u, org))
  }

  lemma PromoteKeepsKeys(uid: Id, org: Id, users: seq<User>)
    ensures var r := UpdateWhere(users, UserId, uid, (u: User) => Promote(u, org));
            && (forall k :: FindIndex(r, UserId, k) == FindIndex(users, UserId, k))
            && (Unique(users, UserId) ==> Unique(r, UserId))
            && (Unique(users, UserEmail) ==> Unique(r, UserEmail))
  {
    var f := (u: User) => Promote(u, org);
    var r := UpdateWhere(users, UserId, uid, f);
    forall k ensures FindIndex(r, UserId, k) == FindIndex(users, UserId, k) {
      FindIndexSameKeys(r, users, UserId, k);
    }
    if Unique(users, UserId) {
      UpdateUnique(users, UserId, uid, f, UserId);
    }
    if Unique(users, UserEmail) {
      UpdateUnique(users, UserId, uid, f, UserEmail);
    }
  }

  /**
   * The writes of `createOrganization` once its checks pass: the new
   * organisation row, the creator's promotion, then the invite loop. Only
   * the organisation insert can fail (its id taken).
   */
  function SetupWrites(uid: Id, name: string, emails: seq<string>, orgId: Id, inviteIds: seq<Id>, now: Time, db: Db)
    : (r: Result<Db, DbError>)
    requires |inviteIds| == |emails|
    ensures r.Failure? <==> HasKey(db.organizations, OrgId, orgId)
    ensures r.Success? ==>
              && r.value.organizations == db.organizations + [Organization(orgId, name, None)]
              && Promoted(db.users, r.value.users, uid, orgId)
              && |db.invites| <= |r.value.invites| && r.value.invites[..|db.invites|] == db.invites
              && AppendedFrom(r.value.invites, |db.invites|, emails, orgId, uid)
              && r.value == db.(organizations := r.value.organizations, users := r.value.users, invites := r.value.invites)
    ensures r.Success? && FreshIds(inviteIds, db) ==>
              forall j :: 0 <= j < |emails| ==> HasKey(r.value.invites, InvitePair, (emails[j], orgId))
    ensures r.Success? && Valid(db) ==> Valid(r.value)
  {
    match InsertOrganization(db, Organization(orgId, name, None))
    case Failure(e) => Failure(e)
    case Success(db1) =>
      var db2 := db1.(users := PromoteUser(uid, orgId, db1.users));
      assert FreshIds(inviteIds, db2) == FreshIds(inviteIds, db);
      Success(InviteEach(emails, inviteIds, orgId, uid, now, db2))
  }

  /**
   * `createOrganization`: no caller id sends the caller to sign in; a blank
   * name is refused before any write; otherwise the organisation is stored
   * under the trimmed name, the caller becomes its admin, and one invite is
   * attempted per address.
   */
  function CreateOrganization(auth: AuthSession, orgName: string, emails: seq<string>,
                              orgId: Id, inviteIds: seq<Id>, now: Time, db: Db): (r: SetupOutcome)
    requires |inviteIds| == |emails|
    ensures !HasUserId(auth) <==> r.SetupToSignIn?
    ensures r.NameRequired? <==> HasUserId(auth) && Blank(orgName)
    ensures r.SetupFailed? <==> HasUserId(auth) && !Blank(orgName) && HasKey(db.organizations, OrgId, orgId)
    ensures r.SetupDone? ==>
              && r.db.organizations == db.organizations + [Organization(orgId, Trim(orgName), None)]
              && Promoted(db.users, r.db.users, CallerId(auth), orgId)
              && |db.invites| <= |r.db.invites| && r.db.invites[..|db.invites|] == db.invites
              && AppendedFrom(r.db.invites, |db.invites|, emails, orgId, CallerId(auth))
              && r.db == db.(organizations := r.db.organizations, users := r.db.users, invites := r.db.invites)
    ensures r.SetupDone? && FreshIds(inviteIds, db) ==>
              forall j :: 0 <= j < |emails| ==> HasKey(r.db.invites, InvitePair, (emails[j], orgId))
    ensures r.SetupDone? && Valid(db) ==> Valid(r.db)
  {
    TrimEmptyIffBlank(orgName);
    if !HasUserId(auth) then SetupToSignIn
    else if Trim(orgName) == "" then NameRequired
    else
      match SetupWrites(CallerId(auth), Trim(orgName), emails, orgId, inviteIds, now, db)
      case Failure(_) => SetupFailed
      case Success(d) => SetupDone(d)
  }

  /** Where the setup page sends its visitor, or the form it shows. */
  datatype SetupRoute = RouteSignIn | RouteProfile | RouteDashboard | ShowSetupForm

  /** `String(session.user.id)`: a missing id is looked up as the string "undefined". */
  function IdString(id: Option<Id>): Id {
    if id.Some? then id.value else "undefined"
  }

  /** `OrganizationSetup`: no session, then no name, then an already joined organisation; otherwise the form. */
  function SetupPage(auth: AuthSession, db: Db): (r: SetupRoute)
    ensures r == RouteSignIn <==> auth.None?
    ensures r == RouteProfile <==> auth.Some? && !Present(auth.value.name)
    ensures r == RouteDashboard <==>
              auth.Some? && Present(auth.value.name) && HasJoinedRow(Find(db.users, UserId, IdString(auth.value.id)), db)
  {
    if auth.None? then RouteSignIn
    else if !Present(auth.value.name) then RouteProfile
    else if HasJoinedRow(Find(db.users, UserId, IdString(auth.value.id)), db) then RouteDashboard
    else ShowSetupForm
  }

  /**
   * Once the organisation is created, a creator with a name and a user row
   * is sent on to the dashboard by the setup page: setup cannot run twice
   * for the same user.
   */
  lemma SetupPageAfterCreate(auth: AuthSession, orgName: string, emails: seq<string>,
                             orgId: Id, inviteIds: seq<Id>, now: Time, db: Db)
    requires |inviteIds| == |emails|
    requires HasUserId(auth) && Present(auth.value.name)
    requires Find(db.users, UserId, CallerId(auth)).Some?
    requires CreateOrganization(auth, orgName, emails, orgId, inviteIds, now, db).SetupDone?
    ensures SetupPage(auth, CreateOrganization(auth, orgName, emails, orgId, inviteIds, now, db).db) == RouteDashboard
  {
    var r := CreateOrganization(auth, orgName, emails, orgId, inviteIds, now, db).db;
    var uid := CallerId(auth);
    var k := FindIndex(db.users, UserId, uid).value;
    FindIndexSameKeys(db.users, r.users, UserId, uid);
    assert r.users[k] == Promote(db.users[k], orgId);
    assert r.organizations[|db.organizations|] == Organization(orgId, Trim(orgName), None);
  }
}
