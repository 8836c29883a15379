/**
 * The database schema: one datatype per table, the store as the sequence of
 * rows of every table, the primary-key and unique constraints as `Valid`, and
 * the insert statement of each table the handlers write to, which refuses a
 * row that would break a constraint exactly as the database does.
 *
 * Timestamps are integers (milliseconds); ids and tokens are opaque strings
 * that the callers pass in, standing for `crypto.randomUUID()` and `nanoid`.
 */
module Schema {
  import opened Wrappers
  import opened Table

  type Id = string
  type Time = int

  /** The `InviteStatus` enum: exactly three states. */
  datatype InviteStatus = Pending | Accepted | Declined

  /** `organizationId` is nullable: a user belongs to at most one organisation. */
  datatype User = User(
    id: Id,
    name: Option<string>,
    email: string,
    emailVerified: bool,
    organizationId: Option<Id>,
    isAdmin: bool)

  datatype Organization = Organization(id: Id, name: string, slackWebhookUrl: Option<string>)

  datatype Board = Board(
    id: Id,
    name: string,
    description: Option<string>,
    isPublic: bool,
    sendSlackUpdates: bool,
    organizationId: Id,
    createdBy: Id,
    createdAt: Time)

  datatype Note = Note(
    id: Id,
    content: string,
    color: string,
    archivedAt: Option<Time>,
    boardId: Id,
    createdBy: Id,
    createdAt: Time,
    deletedAt: Option<Time>)

  datatype ChecklistItem = ChecklistItem(id: Id, content: string, checked: bool, order: int, noteId: Id)

  datatype Invite = Invite(
    id: Id,
    email: string,
    organizationId: Id,
    invitedBy: Id,
    createdAt: Time,
    status: InviteStatus)

  datatype SelfServeInvite = SelfServeInvite(
    id: Id,
    token: Option<string>,
    name: string,
    organizationId: Id,
    createdBy: Id,
    createdAt: Time,
    expiresAt: Option<Time>,
    usageLimit: Option<int>,
    usageCount: int,
    isActive: bool)

  datatype Session = Session(id: Id, token: string, expiresAt: Time, userId: Id)

  datatype Account = Account(id: Id, accountId: string, providerId: string, userId: Id)

  /** Every table, rows in storage order. */
  datatype Db = Db(
    users: seq<User>,
    organizations: seq<Organization>,
    boards: seq<Board>,
    notes: seq<Note>,
    checklistItems: seq<ChecklistItem>,
    invites: seq<Invite>,
    selfServeInvites: seq<SelfServeInvite>,
    sessions: seq<Session>,
    accounts: seq<Account>)

  /** Column defaults. */
  const DefaultNoteColor: string := "#fef3c7"
  const DefaultChecked: bool := false
  const DefaultOrder: int := 0
  const DefaultEmailVerified: bool := false
  const DefaultIsAdmin: bool := false
  const DefaultIsPublic: bool := false
  const DefaultSendSlackUpdates: bool := true
  const DefaultInviteStatus: InviteStatus := Pending
  const DefaultUsageCount: int := 0
  const DefaultIsActive: bool := true

  /** A constraint violation raised by an insert, or a value outside its column's range. */
  datatype DbError = UniqueViolation | OutOfRange

  /** The range of a PostgreSQL `integer` (int4) column. */
  const Int4Min: int := -0x8000_0000
  const Int4Max: int := 0x7FFF_FFFF

  predicate InInt4(v: int) {
    Int4Min <= v <= Int4Max
  }

  // Keys of the primary-key and unique constraints.
  function UserId(u: User): Id { u.id }
  function UserEmail(u: User): string { u.email }
  function OrgId(o: Organization): Id { o.id }
  function BoardId(b: Board): Id { b.id }
  function NoteId(n: Note): Id { n.id }
  function ItemId(c: ChecklistItem): Id { c.id }
  function InviteId(i: Invite): Id { i.id }
  function InvitePair(i: Invite): (string, Id) { (i.email, i.organizationId) }
  function SelfServeId(s: SelfServeInvite): Id { s.id }
  function SessionId(s: Session): Id { s.id }
  function SessionToken(s: Session): string { s.token }
  function AccountId(a: Account): Id { a.id }
  function ProviderAccount(a: Account): (string, string) { (a.providerId, a.accountId) }

  /** A nullable unique column: two rows may both be NULL, but no two share a value. */
  predicate TokensUnique(rows: seq<SelfServeInvite>) {
    forall i, j :: 0 <= i < j < |rows| && rows[i].token.Some? ==> rows[i].token != rows[j].token
  }

  predicate HasToken(rows: seq<SelfServeInvite>, t: string) {
    exists i :: 0 <= i < |rows| && rows[i].token == Some(t)
  }

  predicate ValidUsers(db: Db) {
    Unique(db.users, UserId) && Unique(db.users, UserEmail)
  }

  predicate ValidInvites(db: Db) {
    Unique(db.invites, InviteId) && Unique(db.invites, InvitePair)
  }

  predicate ValidSessions(db: Db) {
    Unique(db.sessions, SessionId) && Unique(db.sessions, SessionToken)
  }

  predicate ValidAccounts(db: Db) {
    Unique(db.accounts, AccountId) && Unique(db.accounts, ProviderAccount)
  }

  predicate ValidSelfServe(db: Db) {
    Unique(db.selfServeInvites, SelfServeId) && TokensUnique(db.selfServeInvites)
  }

  /** Every primary key and unique constraint of the schema holds. */
  predicate Valid(db: Db) {
    && ValidUsers(db)
    && Unique(db.organizations, OrgId)
    && Unique(db.boards, BoardId)
    && Unique(db.notes, NoteId)
    && Unique(db.checklistItems, ItemId)
    && ValidInvites(db)
    && ValidSelfServe(db)
    && ValidSessions(db)
    && ValidAccounts(db)
  }

  /** Inserts a user; a taken id or email is refused. */
  function InsertUser(db: Db, u: User): (r: Result<Db, DbError>)
    ensures r.Success? <==> !HasKey(db.users, UserId, u.id) && !HasKey(db.users, UserEmail, u.email)
    ensures r.Success? ==> r.value == db.(users := db.users + [u])
    ensures r.Success? && Valid(db) ==> Valid(r.value)
  {
    if HasKey(db.users, UserId, u.id) || HasKey(db.users, UserEmail, u.email) then Failure(UniqueViolation)
    else
      AppendUnique(db.users, UserId, u);
      AppendUnique(db.users, UserEmail, u);
      Success(db.(users := db.users + [u]))
  }

  /** Inserts an organisation; a taken id is refused. */
  function InsertOrganization(db: Db, o: Organization): (r: Result<Db, DbError>)
    ensures r.Success? <==> !HasKey(db.organizations, OrgId, o.id)
    ensures r.Success? ==> r.value == db.(organizations := db.organizations + [o])
    ensures r.Success? && Valid(db) ==> Valid(r.value)
  {
    if HasKey(db.organizations, OrgId, o.id) then Failure(UniqueViolation)
    else
      AppendUnique(db.organizations, OrgId, o);
      Success(db.(organizations := db.organizations + [o]))
  }

  /** Inserts a board; a taken id is refused. */
  function InsertBoard(db: Db, b: Board): (r: Result<Db, DbError>)
    ensures r.Success? <==> !HasKey(db.boards, BoardId, b.id)
    ensures r.Success? ==> r.value == db.(boards := db.boards + [b])
    ensures r.Success? && Valid(db) ==> Valid(r.value)
  {
    if HasKey(db.boards, BoardId, b.id) then Failure(UniqueViolation)
    else
      AppendUnique(db.boards, BoardId, b);
      Success(db.(boards := db.boards + [b]))
  }

  /** Inserts a note; a taken id is refused. */
  function InsertNote(db: Db, n: Note): (r: Result<Db, DbError>)
    ensures r.Success? <==> !HasKey(db.notes, NoteId, n.id)
    ensures r.Success? ==> r.value == db.(notes := db.notes + [n])
    ensures r.Success? && Valid(db) ==> Valid(r.value)
  {
    if HasKey(db.notes, NoteId, n.id) then Failure(UniqueViolation)
    else
      AppendUnique(db.notes, NoteId, n);
      Success(db.(notes := db.notes + [n]))
  }

  /** Inserts an organisation invite; a taken id or (email, organizationId) pair is refused. */
  function InsertInvite(db: Db, i: Invite): (r: Result<Db, DbError>)
    ensures r.Success? <==> !HasKey(db.invites, InviteId, i.id) && !HasKey(db.invites, InvitePair, InvitePair(i))
    ensures r.Success? ==> r.value == db.(invites := db.invites + [i])
    ensures r.Success? && Valid(db) ==> Valid(r.value)
  {
    if HasKey(db.invites, InviteId, i.id) || HasKey(db.invites, InvitePair, InvitePair(i)) then Failure(UniqueViolation)
    else
      AppendUnique(db.invites, InviteId, i);
      AppendUnique(db.invites, InvitePair, i);
      Success(db.(invites := db.invites + [i]))
  }

  lemma AppendTokenUnique(rows: seq<SelfServeInvite>, s: SelfServeInvite)
    ensures TokensUnique(rows) && (s.token.Some? ==> !HasToken(rows, s.token.value)) ==> TokensUnique(rows + [s])
  {
    if TokensUnique(rows) && (s.token.Some? ==> !HasToken(rows, s.token.value)) {
      var r := rows + [s];
      forall i, j | 0 <= i < j < |r| && r[i].token.Some? ensures r[i].token != r[j].token {
        if j == |rows| {
          assert r[i] == rows[i];
        }
      }
    }
  }

  /** Inserts a self-serve invite; a taken id or token is refused (NULL tokens never clash). */
  function InsertSelfServeInvite(db: Db, s: SelfServeInvite): (r: Result<Db, DbError>)
    ensures r.Success? <==>
              && !HasKey(db.selfServeInvites, SelfServeId, s.id)
              && (s.token.Some? ==> !HasToken(db.selfServeInvites, s.token.value))
              && (s.usageLimit.Some? ==> InInt4(s.usageLimit.value))
    ensures r == Failure(OutOfRange) <==> s.usageLimit.Some? && !InInt4(s.usageLimit.value)
    ensures r.Success? ==> r.value == db.(selfServeInvites := db.selfServeInvites + [s])
    ensures r.Success? && Valid(db) ==> Valid(r.value)
  {
    if s.usageLimit.Some? && !InInt4(s.usageLimit.value) then
      Failure(OutOfRange)
    else if HasKey(db.selfServeInvites, SelfServeId, s.id) || (s.token.Some? && HasToken(db.selfServeInvites, s.token.value)) then
      Failure(UniqueViolation)
    else
      AppendUnique(db.selfServeInvites, SelfServeId, s);
      AppendTokenUnique(db.selfServeInvites, s);
      Success(db.(selfServeInvites := db.selfServeInvites + [s]))
  }

  /** Inserts a session; a taken id or token is refused. */
  function InsertSession(db: Db, s: Session): (r: Result<Db, DbError>)
    ensures r.Success? <==> !HasKey(db.sessions, SessionId, s.id) && !HasKey(db.sessions, SessionToken, s.token)
    ensures r.Success? ==> r.value == db.(sessions := db.sessions + [s])
    ensures r.Success? && Valid(db) ==> Valid(r.value)
  {
    if HasKey(db.sessions, SessionId, s.id) || HasKey(db.sessions, SessionToken, s.token) then Failure(UniqueViolation)
    else
      AppendUnique(db.sessions, SessionId, s);
      AppendUnique(db.sessions, SessionToken, s);
      Success(db.(sessions := db.sessions + [s]))
  }

  /** Under the schema's constraints, at most one invite exists per (email, organisation). */
  lemma AtMostOneInvitePerPair(db: Db, email: string, org: Id)
    requires Valid(db)
    ensures CountKey(db.invites, InvitePair, (email, org)) <= 1
  {
    UniqueCountOne(db.invites, InvitePair, (email, org));
  }

  /** Under the schema's constraints, at most one user has a given email. */
  lemma AtMostOneUserPerEmail(db: Db, email: string)
    requires Valid(db)
    ensures CountKey(db.users, UserEmail, email) <= 1
  {
    UniqueCountOne(db.users, UserEmail, email);
  }
}
