/**
 * `PUT /api/organization`: an admin renames the organisation and sets or
 * clears its Slack webhook.
 */
module OrgSettings {
  import opened Wrappers
  import opened Js
  import opened Table
  import opened Schema
  import opened Http

  datatype SettingsBody = SettingsBody(name: Json, slackWebhookUrl: Json)

  /**
   * `slackWebhookUrl?.trim() || null`: a missing value and a blank string
   * are stored as null, any other string trimmed. Other values have no
   * `trim` method, so the call throws and the handler answers 500.
   */
  function WebhookValue(v: Json): (r: Result<Option<string>, nat>)
    ensures r.Failure? <==> !(v.Undefined? || v.Null? || v.Str?)
    ensures r.Failure? ==> r.error == ServerError
    ensures r.Success? && r.value.Some? ==> v.Str? && r.value.value == Trim(v.s) && r.value.value != ""
    ensures r.Success? && r.value.None? <==> v.Undefined? || v.Null? || (v.Str? && Blank(v.s))
  {
    TrimEmptyIffBlank(if v.Str? then v.s else "");
    match v
    case Undefined => Success(None)
    case Null => Success(None)
    case Str(s) => if Trim(s) == "" then Success(None) else Success(Some(Trim(s)))
    case _ => Failure(ServerError)
  }

  /** Every organisation row whose id is `org` now carries `name` and `hook`; every other row is as it was. */
  predicate SettingsSet(before: seq<Organization>, after: seq<Organization>, org: Id, name: string, hook: Option<string>) {
    && |after| == |before|
    && forall i :: 0 <= i < |before| ==>
         after[i] == (if before[i].id == org then before[i].(name := name, slackWebhookUrl := hook) else before[i])
  }

  function ApplySettings(orgs: seq<Organization>, org: Id, name: string, hook: Option<string>): (r: seq<Organization>)
    ensures SettingsSet(orgs, r, org, name, hook)
    ensures Unique(orgs, OrgId) ==> Unique(r, OrgId)
  {
    var f := (o: Organization) => o.(name := name, slackWebhookUrl := hook);
    if Unique(orgs, OrgId) then
      UpdateUnique(orgs, OrgId, org, f, OrgId);
      UpdateWhere(orgs, OrgId, org, f)
    else UpdateWhere(orgs, OrgId, org, f)
  }

  /**
   * The handler: 401, then 500 for an unreadable body, then 400 for a
   * missing or non-string name (before any read of the store), 404 when the
   * caller has no organisation id, 403 for a non-admin, 500 for a webhook
   * value that is not a string. On success the caller's organisation row,
   * if it exists, gets the trimmed name and the webhook value; the reply
   * carries that row as the left join finds it.
   */
  function UpdateSettings(auth: AuthSession, body: Option<SettingsBody>, db: Db): (r: Reply<Option<Organization>>)
    ensures !HasUserId(auth) ==> r == Fail(Unauthorized)
    ensures HasUserId(auth) && body.None? ==> r == Fail(ServerError)
    ensures HasUserId(auth) && body.Some? && !NonEmptyString(body.value.name) ==> r == Fail(BadRequest)
    ensures (HasUserId(auth) && body.Some? && NonEmptyString(body.value.name)
             && !HasOrganizationId(CallerRow(auth, db))) ==> r == Fail(NotFound)
    ensures (HasUserId(auth) && body.Some? && NonEmptyString(body.value.name)
             && HasOrganizationId(CallerRow(auth, db)) && !CallerRow(auth, db).value.isAdmin) ==> r == Fail(Forbidden)
    ensures (HasUserId(auth) && body.Some? && NonEmptyString(body.value.name)
             && HasOrganizationId(CallerRow(auth, db)) && CallerRow(auth, db).value.isAdmin
             && WebhookValue(body.value.slackWebhookUrl).Failure?) ==> r == Fail(ServerError)
    ensures r.Done? <==>
              && HasUserId(auth) && body.Some? && NonEmptyString(body.value.name)
              && HasOrganizationId(CallerRow(auth, db)) && CallerRow(auth, db).value.isAdmin
              && WebhookValue(body.value.slackWebhookUrl).Success?
    ensures r.Done? ==>
              var org := CallerRow(auth, db).value.organizationId.value;
              && r.code == Ok
              && SettingsSet(db.organizations, r.db.organizations, org, Trim(body.value.name.s),
                             WebhookValue(body.value.slackWebhookUrl).value)
              && r.db == db.(organizations := r.db.organizations)
              && r.body == Find(r.db.organizations, OrgId, org)
    ensures r.Done? && Valid(db) ==> Valid(r.db)
  {
    if !HasUserId(auth) then Fail(Unauthorized)
    else if body.None? then Fail(ServerError)
    else if !NonEmptyString(body.value.name) then Fail(BadRequest)
    else
      var user := CallerRow(auth, db);
      if !HasOrganizationId(user) then Fail(NotFound)
      else if !user.value.isAdmin then Fail(Forbidden)
      else
        match WebhookValue(body.value.slackWebhookUrl)
        case Failure(code) => Fail(code)
        case Success(hook) =>
          var org := user.value.organizationId.value;
          var orgs := ApplySettings(db.organizations, org, Trim(body.value.name.s), hook);
          Done(Ok, Find(orgs, OrgId, org), db.(organizations := orgs))
  }

  /** Sending the same settings twice leaves the store as sending them once. */
  lemma UpdateSettingsIdempotent(auth: AuthSession, body: Option<SettingsBody>, db: Db)
    requires UpdateSettings(auth, body, db).Done?
    ensures var db1 := UpdateSettings(auth, body, db).db;
            UpdateSettings(auth, body, db1).Done? && UpdateSettings(auth, body, db1).db == db1
  {
    var db1 := UpdateSettings(auth, body, db).db;
    assert db1.users == db.users;
    var db2 := UpdateSettings(auth, body, db1).db;
    assert db2.organizations == db1.organizations;
  }

  /** On success the caller's existing organisation row reads back with the trimmed name and the stored webhook. */
  lemma SettingsReadBack(auth: AuthSession, body: Option<SettingsBody>, db: Db)
    requires UpdateSettings(auth, body, db).Done?
    requires Find(db.organizations, OrgId, CallerRow(auth, db).value.organizationId.value).Some?
    ensures var r := UpdateSettings(auth, body, db);
            && r.body.Some?
            && r.body.value.name == Trim(body.value.name.s)
            && r.body.value.slackWebhookUrl == WebhookValue(body.value.slackWebhookUrl).value
  {
    var r := UpdateSettings(auth, body, db);
    var org := CallerRow(auth, db).value.organizationId.value;
    var k := FindIndex(db.organizations, OrgId, org).value;
    FindIndexSameKeys(db.organizations, r.db.organizations, OrgId, org);
  }
}
