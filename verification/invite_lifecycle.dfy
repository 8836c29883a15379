/**
 * The organisation invite as a state machine across the handlers that move
 * it: issuing creates or resets it to PENDING, accepting moves PENDING to
 * ACCEPTED, declining moves anything to DECLINED, and a DECLINED or
 * ACCEPTED invite can be issued again.
 */
module InviteLifecycle {
  import opened Wrappers
  import opened Table
  import opened Schema
  import opened Http
  import opened InviteAccept
  import opened InviteIssue

  /**
   * On a consistent store, the invitee (signed in with exactly the stored
   * address) can accept a freshly issued invite through its id, and ends up
   * in the inviting organisation.
   */
  lemma IssueThenAccept(admin: AuthSession, body: Option<InviteBody>, newId: Id, now: Time, db: Db, invitee: AuthSession)
    requires Valid(db)
    requires IssueInvite(admin, body, newId, now, db).Done?
    requires HasEmail(invitee) && invitee.value.email.value == IssueInvite(admin, body, newId, now, db).body.email
    ensures var r := IssueInvite(admin, body, newId, now, db);
            && AcceptInvite(r.body.id, invitee, r.db).Success?
            && OrganizationSet(r.db.users, AcceptInvite(r.body.id, invitee, r.db).value.users, invitee.value.id, r.body.organizationId)
  {
    var r := IssueInvite(admin, body, newId, now, db);
    UniqueFind(r.db.invites, InviteId, r.body);
  }

  /**
   * A declined invite can be issued again: the same row, same id, returns
   * to PENDING with the new creation time.
   */
  lemma ReissueAfterDecline(admin: AuthSession, body: Option<InviteBody>, id1: Id, t1: Time, db: Db,
                            invitee: AuthSession, id2: Id, t2: Time)
    requires IssueInvite(admin, body, id1, t1, db).Done?
    requires DeclineInvite(IssueInvite(admin, body, id1, t1, db).body.id, invitee, IssueInvite(admin, body, id1, t1, db).db).Success?
    ensures var r1 := IssueInvite(admin, body, id1, t1, db);
            var db2 := DeclineInvite(r1.body.id, invitee, r1.db).value;
            var r2 := IssueInvite(admin, body, id2, t2, db2);
            && r2.Done?
            && r2.body == Reset(r1.body, t2)
  {
    var r1 := IssueInvite(admin, body, id1, t1, db);
    var c := CheckInvite(admin, body, db).value;
    var db2 := DeclineInvite(r1.body.id, invitee, r1.db).value;
    assert db2.users == db.users;
    assert CallerRow(admin, db2) == CallerRow(admin, db);
    var k := FindIndex(r1.db.invites, InvitePair, (c.email, c.org)).value;
    FindIndexSameKeys(r1.db.invites, db2.invites, InvitePair, (c.email, c.org));
    assert db2.invites[k] == r1.body.(status := Declined);
  }
}
