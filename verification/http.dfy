/**
 * What every handler sees of the outside world: the authenticated session
 * (`auth()` / `auth.api.getSession`), and the shape of a JSON reply.
 */
module Http {
  import opened Wrappers
  import opened Js
  import opened Schema

  /** `session.user`: each field may be missing. */
  datatype AuthUser = AuthUser(id: Option<Id>, email: Option<string>, name: Option<string>)

  /** The session, or None when the request carries none. */
  type AuthSession = Option<AuthUser>

  /** `session?.user?.id` is truthy. */
  predicate HasUserId(auth: AuthSession) {
    auth.Some? && Present(auth.value.id)
  }

  /** `session?.user?.email` is truthy. */
  predicate HasEmail(auth: AuthSession) {
    auth.Some? && Present(auth.value.email)
  }

  function CallerId(auth: AuthSession): Id
    requires HasUserId(auth)
  {
    auth.value.id.value
  }

  const Ok: nat := 200
  const Created: nat := 201
  const BadRequest: nat := 400
  const Unauthorized: nat := 401
  const Forbidden: nat := 403
  const NotFound: nat := 404
  const ServerError: nat := 500

  /** A JSON reply: an error status with nothing written, or a success status, its body and the store after the writes. */
  datatype Reply<T> = Fail(code: nat) | Done(code: nat, body: T, db: Db)

  /** `eq(users.id, session.user.id)` matched against a possibly missing id. */
  function UserIdOpt(u: User): Option<Id> {
    Some(u.id)
  }

  /** The caller's user row (`select … from users where id = session.user.id limit 1`). */
  function CallerRow(auth: AuthSession, db: Db): Option<User>
    requires HasUserId(auth)
  {
    Table.Find(db.users, UserId, CallerId(auth))
  }

  /** `user?.organization`: the left join on the user's organisation id found a row. */
  predicate HasJoinedRow(u: Option<User>, db: Db) {
    u.Some? && u.value.organizationId.Some?
    && Table.HasKey(db.organizations, OrgId, u.value.organizationId.value)
  }

  /**
   * `user?.organizationId && user.organization`: the caller has an
   * organisation id and the left join found that organisation's row.
   */
  predicate InJoinedOrganization(u: Option<User>, db: Db) {
    u.Some? && Present(u.value.organizationId)
    && Table.HasKey(db.organizations, OrgId, u.value.organizationId.value)
  }

  /** `user?.organizationId` alone, as the handlers without the join test it. */
  predicate HasOrganizationId(u: Option<User>) {
    u.Some? && Present(u.value.organizationId)
  }
}
