/**
 * Self-serve invite links (`/api/organization/self-serve-invites`): an admin
 * creates a named link with an optional end-of-day expiry and an optional
 * usage limit; any member lists the organisation's active links, newest
 * first.
 */
module SelfServe {
  import opened Wrappers
  import opened Js
  import opened Table
  import opened Schema
  import opened Http

  /** One day in milliseconds. */
  const Day: int := 24 * 60 * 60 * 1000

  /**
   * `setHours(23, 59, 59, 999)`: the last millisecond of the day `t` falls
   * in. Days are counted on the local-time line, whose offset is left out.
   */
  function EndOfDay(t: Time): (e: Time)
    ensures t <= e < t + Day
    ensures e % Day == Day - 1
  {
    t - t % Day + Day - 1
  }

  /** Two instants of the same day end at the same moment, and the end of a day is its own end of day. */
  lemma EndOfDaySameDay(t: Time, u: Time)
    requires t / Day == u / Day
    ensures EndOfDay(t) == EndOfDay(u)
    ensures EndOfDay(EndOfDay(t)) == EndOfDay(t)
  {
    var e := EndOfDay(t);
    assert e == (t / Day) * Day + Day - 1;
    assert e / Day == t / Day by {
      assert (t / Day) * Day <= e < (t / Day) * Day + Day;
    }
  }

  /** The length of a generated link token. */
  const TokenLength: nat := 32

  /** A character of nanoid's URL-safe alphabet. */
  predicate UrlSafe(c: char) {
    ('A' <= c <= 'Z') || ('a' <= c <= 'z') || ('0' <= c <= '9') || c == '_' || c == '-'
  }

  /** What `nanoid(32)` returns: 32 URL-safe characters. */
  predicate IsLinkToken(t: string) {
    |t| == TokenLength && forall i :: 0 <= i < |t| ==> UrlSafe(t[i])
  }

  /**
   * The request body's fields. `expiresAt` is the raw value; `expiresInstant`
   * is the instant `new Date(expiresAt)` denotes, None when it is an invalid
   * date (date parsing itself is left out).
   */
  datatype LinkBody = LinkBody(name: Json, expiresAt: Json, expiresInstant: Option<Time>, usageLimit: Json)

  /** The expiry check: an absent (falsy) expiry is none; a present one moves to the end of its day and must then be after `now`. */
  function CheckExpiry(b: LinkBody, now: Time): (r: Result<Option<Time>, nat>)
    ensures !Truthy(b.expiresAt) ==> r == Success(None)
    ensures Truthy(b.expiresAt) ==>
              (r.Success? <==> b.expiresInstant.Some? && EndOfDay(b.expiresInstant.value) > now)
    ensures Truthy(b.expiresAt) && r.Success? ==> r.value == Some(EndOfDay(b.expiresInstant.value))
    ensures r.Success? && r.value.Some? ==> r.value.value > now && r.value.value % Day == Day - 1
    ensures r.Failure? ==> r.error == BadRequest
  {
    if !Truthy(b.expiresAt) then Success(None)
    else if b.expiresInstant.None? || EndOfDay(b.expiresInstant.value) <= now then Failure(BadRequest)
    else Success(Some(EndOfDay(b.expiresInstant.value)))
  }

  /** The usage-limit check: undefined or null is no limit; anything else must `parseInt` to at least 1. */
  function CheckUsageLimit(v: Json): (r: Result<Option<int>, nat>)
    ensures v.Undefined? || v.Null? ==> r == Success(None)
    ensures !(v.Undefined? || v.Null?) ==>
              (r.Success? <==> ParseInt(v).Some? && ParseInt(v).value >= 1)
    ensures r.Success? && r.value.Some? ==> r.value == ParseInt(v) && r.value.value >= 1
    ensures r.Failure? ==> r.error == BadRequest
  {
    if v.Undefined? || v.Null? then Success(None)
    else
      match ParseInt(v)
      case None => Failure(BadRequest)
      case Some(n) => if n < 1 then Failure(BadRequest) else Success(Some(n))
  }

  /** A whole number sent as a JSON number is taken as the limit exactly when it is positive. */
  lemma NumericLimit(n: int)
    requires ExactInteger(n)
    ensures CheckUsageLimit(Num(n)).Success? <==> n >= 1
    ensures n >= 1 ==> CheckUsageLimit(Num(n)) == Success(Some(n))
  {
    ParseIntOfNumber(n);
  }

  /**
   * An array is converted by joining its elements, so a one-element array
   * holding a positive whole number is taken as that limit, and the empty
   * array (which joins to "") is refused.
   */
  lemma ArrayLimit(n: int)
    requires ExactInteger(n)
    ensures CheckUsageLimit(Arr([Num(n)])).Success? <==> n >= 1
    ensures n >= 1 ==> CheckUsageLimit(Arr([Num(n)])) == Success(Some(n))
    ensures CheckUsageLimit(Arr([])) == Failure(BadRequest)
  {
    ParseIntOfSingletonArray(n);
    assert ToJsString(Arr([])) == "";
  }

  /** `true`, `false` and a plain object are never a usage limit. */
  lemma NonNumericLimitRefused(v: Json)
    requires v.Bool? || v.Obj?
    ensures CheckUsageLimit(v) == Failure(BadRequest)
  {
    ParseIntOfNonNumeric(v);
  }

  /** Every check of `POST` before the insert passes. */
  predicate LinkChecksPass(auth: AuthSession, body: Option<LinkBody>, now: Time, db: Db) {
    && HasUserId(auth) && body.Some? && NonEmptyString(body.value.name)
    && InJoinedOrganization(CallerRow(auth, db), db) && CallerRow(auth, db).value.isAdmin
    && CheckExpiry(body.value, now).Success? && CheckUsageLimit(body.value.usageLimit).Success?
  }

  /** The store accepts the new link: its id and token are free and its usage limit fits the `integer` column. */
  predicate LinkStorable(body: LinkBody, id: Id, token: string, db: Db)
  {
    && !HasKey(db.selfServeInvites, SelfServeId, id) && !HasToken(db.selfServeInvites, token)
    && (CheckUsageLimit(body.usageLimit).Success? && CheckUsageLimit(body.usageLimit).value.Some?
        ==> InInt4(CheckUsageLimit(body.usageLimit).value.value))
  }

  /**
   * `POST`: 401, then 500 for an unreadable body, then 400 for a missing or
   * non-string name, 404 without a joined organisation, 403 for a non-admin,
   * 400 for a bad expiry, 400 for a bad usage limit; then the link is
   * inserted (500 when its id or token is taken, or its usage limit does not
   * fit the `integer` column) and returned with 201.
   */
  function CreateLink(auth: AuthSession, body: Option<LinkBody>, id: Id, token: string, now: Time, db: Db)
    : (r: Reply<SelfServeInvite>)
    requires IsLinkToken(token)
    ensures !HasUserId(auth) ==> r == Fail(Unauthorized)
    ensures HasUserId(auth) && body.None? ==> r == Fail(ServerError)
    ensures HasUserId(auth) && body.Some? && !NonEmptyString(body.value.name) ==> r == Fail(BadRequest)
    ensures (HasUserId(auth) && body.Some? && NonEmptyString(body.value.name)
             && !InJoinedOrganization(CallerRow(auth, db), db)) ==> r == Fail(NotFound)
    ensures (HasUserId(auth) && body.Some? && NonEmptyString(body.value.name)
             && InJoinedOrganization(CallerRow(auth, db), db) && !CallerRow(auth, db).value.isAdmin) ==> r == Fail(Forbidden)
    ensures (HasUserId(auth) && body.Some? && NonEmptyString(body.value.name)
             && InJoinedOrganization(CallerRow(auth, db), db) && CallerRow(auth, db).value.isAdmin
             && (CheckExpiry(body.value, now).Failure? || CheckUsageLimit(body.value.usageLimit).Failure?)) ==> r == Fail(BadRequest)
    ensures LinkChecksPass(auth, body, now, db) && !LinkStorable(body.value, id, token, db) ==> r == Fail(ServerError)
    ensures r.Done? <==> LinkChecksPass(auth, body, now, db) && LinkStorable(body.value, id, token, db)
    ensures r.Done? ==>
              && r.code == Created
              && r.body == SelfServeInvite(id, Some(token), Trim(body.value.name.s), CallerRow(auth, db).value.organizationId.value,
                                           CallerId(auth), now, CheckExpiry(body.value, now).value,
                                           CheckUsageLimit(body.value.usageLimit).value, DefaultUsageCount, DefaultIsActive)
              && r.db == db.(selfServeInvites := db.selfServeInvites + [r.body])
              && IsLinkToken(r.body.token.value)
    ensures r.Done? && Valid(db) ==> Valid(r.db)
  {
    if !HasUserId(auth) then Fail(Unauthorized)
    else if body.None? then Fail(ServerError)
    else if !NonEmptyString(body.value.name) then Fail(BadRequest)
    else
      var user := CallerRow(auth, db);
      if !InJoinedOrganization(user, db) then Fail(NotFound)
      else if !user.value.isAdmin then Fail(Forbidden)
      else
        match CheckExpiry(body.value, now)
        case Failure(code) => Fail(code)
        case Success(expires) =>
          match CheckUsageLimit(body.value.usageLimit)
          case Failure(code) => Fail(code)
          case Success(limit) =>
            var link := SelfServeInvite(id, Some(token), Trim(body.value.name.s), user.value.organizationId.value,
                                        CallerId(auth), now, expires, limit, DefaultUsageCount, DefaultIsActive);
            match InsertSelfServeInvite(db, link)
            case Failure(_) => Fail(ServerError)
            case Success(db1) => Done(Created, link, db1)
  }

  /**
   * A usage limit that `parseInt` accepts but the `integer` column cannot
   * hold makes the insert throw, so the link is refused with 500 even though
   * every check passed.
   */
  lemma LimitBeyondInt4(auth: AuthSession, b: LinkBody, id: Id, token: string, now: Time, db: Db)
    requires IsLinkToken(token)
    requires HasUserId(auth) && NonEmptyString(b.name) && InJoinedOrganization(CallerRow(auth, db), db)
    requires CallerRow(auth, db).value.isAdmin && CheckExpiry(b, now).Success?
    requires b.usageLimit == Num(Int4Max + 1)
    ensures CreateLink(auth, Some(b), id, token, now, db) == Fail(ServerError)
  {
    NumericLimit(Int4Max + 1);
  }

  /** A whitespace-only name passes validation and the link is stored with the empty name. */
  lemma BlankNameStoredEmpty(auth: AuthSession, b: LinkBody, id: Id, token: string, now: Time, db: Db)
    requires IsLinkToken(token)
    requires b.name.Str? && b.name.s != "" && Blank(b.name.s)
    requires CreateLink(auth, Some(b), id, token, now, db).Done?
    ensures CreateLink(auth, Some(b), id, token, now, db).body.name == ""
  {
    TrimEmptyIffBlank(b.name.s);
  }

  function LinkCreatedAt(s: SelfServeInvite): int {
    s.createdAt
  }

  /** The organisation's active links (`where organizationId = … and isActive`). */
  function ActiveLinks(rows: seq<SelfServeInvite>, org: Id): (r: seq<SelfServeInvite>)
    ensures forall x :: multiset(r)[x] == if x.organizationId == org && x.isActive then multiset(rows)[x] else 0
  {
    Select(rows, (s: SelfServeInvite) => s.organizationId == org && s.isActive)
  }

  /**
   * `GET`: 401 without a caller id, 404 when the caller's row has no
   * organisation id (the joined row is not checked here); otherwise the
   * organisation's active links, newest first. Nothing is written.
   */
  function ListLinks(auth: AuthSession, db: Db): (r: Reply<seq<SelfServeInvite>>)
    ensures !HasUserId(auth) ==> r == Fail(Unauthorized)
    ensures HasUserId(auth) && !HasOrganizationId(CallerRow(auth, db)) ==> r == Fail(NotFound)
    ensures r.Done? <==> HasUserId(auth) && HasOrganizationId(CallerRow(auth, db))
    ensures r.Done? ==>
              && r.code == Ok && r.db == db
              && SortedDesc(r.body, LinkCreatedAt)
              && var org := CallerRow(auth, db).value.organizationId.value;
                 forall x :: multiset(r.body)[x] == if x.organizationId == org && x.isActive then multiset(db.selfServeInvites)[x] else 0
  {
    if !HasUserId(auth) then Fail(Unauthorized)
    else
      var user := CallerRow(auth, db);
      if !HasOrganizationId(user) then Fail(NotFound)
      else
        var org := user.value.organizationId.value;
        Done(Ok, SortDesc(ActiveLinks(db.selfServeInvites, org), LinkCreatedAt), db)
  }

  /** A link the caller just created shows up in the caller's listing. */
  lemma CreatedLinkListed(auth: AuthSession, b: LinkBody, id: Id, token: string, now: Time, db: Db)
    requires IsLinkToken(token)
    requires CreateLink(auth, Some(b), id, token, now, db).Done?
    ensures var r := CreateLink(auth, Some(b), id, token, now, db);
            && ListLinks(auth, r.db).Done?
            && r.body in ListLinks(auth, r.db).body
  {
    var r := CreateLink(auth, Some(b), id, token, now, db);
    assert r.db.users == db.users;
    assert r.body in multiset(r.db.selfServeInvites);
    var l := ListLinks(auth, r.db);
    assert multiset(l.body)[r.body] == multiset(r.db.selfServeInvites)[r.body];
  }

  /**
   * The listing and creation guard the organisation differently: a caller
   * whose organisation row is gone still gets a (possibly empty) listing
   * but is refused creation with 404.
   */
  lemma ListingLooserThanCreation()
    ensures var db := Db([User("u", None, "a@b", true, Some("gone"), true)], [], [], [], [], [], [], [], []);
            var auth := Some(AuthUser(Some("u"), Some("a@b"), None));
            && ListLinks(auth, db).Done?
            && CreateLink(auth, Some(LinkBody(Str("team"), Undefined, None, Undefined)), "i", "abcdefghijklmnopqrstuvwxyz012345", 0, db)
               == Fail(NotFound)
  {
    var db := Db([User("u", None, "a@b", true, Some("gone"), true)], [], [], [], [], [], [], [], []);
    var auth := Some(AuthUser(Some("u"), Some("a@b"), None));
    assert FindIndex(db.users, UserId, "u") == Some(0);
    assert CallerRow(auth, db) == Some(db.users[0]);
    assert !InJoinedOrganization(CallerRow(auth, db), db);
    assert IsLinkToken("abcdefghijklmnopqrstuvwxyz012345");
  }
}
