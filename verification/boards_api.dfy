/**
 * `/api/boards`: listing the organisation's boards with their note counts,
 * and creating a board.
 */
module BoardsApi {
  import opened Wrappers
  import opened Js
  import opened Pg
  import opened Table
  import opened Schema
  import opened Http

  /** A board as the API returns it, with `_count.notes`. */
  datatype BoardSummary = BoardSummary(board: Board, noteCount: nat)

  function NoteBoard(n: Note): Id { n.boardId }
  function BoardCreatedAt(b: Board): int { b.createdAt }

  /** The boards of a list of summaries, in order. */
  function BoardsOf(s: seq<BoardSummary>): (r: seq<Board>)
    ensures |r| == |s| && forall i :: 0 <= i < |s| ==> r[i] == s[i].board
  {
    seq(|s|, i requires 0 <= i < |s| => s[i].board)
  }

  /**
   * `count(notes.id)` over `boards left join notes on boards.id = notes.boardId`
   * grouped by board: every note on the board counts, deleted and archived
   * ones included.
   */
  function WithCounts(bs: seq<Board>, notes: seq<Note>): (r: seq<BoardSummary>)
    ensures BoardsOf(r) == bs
    ensures forall i :: 0 <= i < |r| ==> r[i].noteCount == CountKey(notes, NoteBoard, bs[i].id)
  {
    seq(|bs|, i requires 0 <= i < |bs| => BoardSummary(bs[i], CountKey(notes, NoteBoard, bs[i].id)))
  }

  function OrgBoards(bs: seq<Board>, org: Id): (r: seq<Board>)
    ensures forall x :: multiset(r)[x] == if x.organizationId == org then multiset(bs)[x] else 0
  {
    Select(bs, (b: Board) => b.organizationId == org)
  }

  /**
   * `GET`: 401 without a caller id, 404 without an organisation id, else the
   * organisation's boards, newest first, each with its note count. Nothing
   * is written.
   */
  function ListBoards(auth: AuthSession, db: Db): (r: Reply<seq<BoardSummary>>)
    ensures !HasUserId(auth) ==> r == Fail(Unauthorized)
    ensures HasUserId(auth) && !HasOrganizationId(CallerRow(auth, db)) ==> r == Fail(NotFound)
    ensures r.Done? <==> HasUserId(auth) && HasOrganizationId(CallerRow(auth, db))
    ensures r.Done? ==>
              var org := CallerRow(auth, db).value.organizationId.value;
              && r.code == Ok && r.db == db
              && SortedDesc(BoardsOf(r.body), BoardCreatedAt)
              && (forall x :: multiset(BoardsOf(r.body))[x] == if x.organizationId == org then multiset(db.boards)[x] else 0)
              && (forall i :: 0 <= i < |r.body| ==> r.body[i].noteCount == CountKey(db.notes, NoteBoard, r.body[i].board.id))
  {
    if !HasUserId(auth) then Fail(Unauthorized)
    else
      var user := CallerRow(auth, db);
      if !HasOrganizationId(user) then Fail(NotFound)
      else
        var org := user.value.organizationId.value;
        Done(Ok, WithCounts(SortDesc(OrgBoards(db.boards, org), BoardCreatedAt), db.notes), db)
  }

  datatype BoardBody = BoardBody(name: Json, description: Json, isPublic: Json)

  /**
   * `POST`: 401, then 500 for an unreadable body, then 400 for a falsy name
   * (checked before the store is read), 404 without an organisation id;
   * then the board is inserted (500 when the id is taken) and returned with
   * 201 and a note count of 0. Name and description are stored as the text
   * node-postgres sends for them, a missing description as null.
   */
  function CreateBoard(auth: AuthSession, body: Option<BoardBody>, id: Id, now: Time, db: Db): (r: Reply<BoardSummary>)
    ensures !HasUserId(auth) ==> r == Fail(Unauthorized)
    ensures HasUserId(auth) && body.None? ==> r == Fail(ServerError)
    ensures HasUserId(auth) && body.Some? && !Truthy(body.value.name) ==> r == Fail(BadRequest)
    ensures (HasUserId(auth) && body.Some? && Truthy(body.value.name)
             && !HasOrganizationId(CallerRow(auth, db))) ==> r == Fail(NotFound)
    ensures r.Done? <==>
              && HasUserId(auth) && body.Some? && Truthy(body.value.name)
              && HasOrganizationId(CallerRow(auth, db)) && !HasKey(db.boards, BoardId, id)
    ensures r.Done? ==>
              && r.code == Created
              && r.body == BoardSummary(
                   Board(id, ParamText(body.value.name).value, ParamText(body.value.description),
                         Truthy(body.value.isPublic), DefaultSendSlackUpdates,
                         CallerRow(auth, db).value.organizationId.value, CallerId(auth), now),
                   0)
              && r.db == db.(boards := db.boards + [r.body.board])
    ensures r.Done? && Valid(db) ==> Valid(r.db)
  {
    if !HasUserId(auth) then Fail(Unauthorized)
    else if body.None? then Fail(ServerError)
    else if !Truthy(body.value.name) then Fail(BadRequest)
    else
      var user := CallerRow(auth, db);
      if !HasOrganizationId(user) then Fail(NotFound)
      else
        var board := Board(id, ParamText(body.value.name).value, ParamText(body.value.description),
                           Truthy(body.value.isPublic), DefaultSendSlackUpdates,
                           user.value.organizationId.value, CallerId(auth), now);
        match InsertBoard(db, board)
        case Failure(_) => Fail(ServerError)
        case Success(db1) => Done(Created, BoardSummary(board, 0), db1)
  }

  /** A board is public only when asked for: a missing or falsy `isPublic` stores false. */
  lemma PublicOnlyWhenAsked(auth: AuthSession, b: BoardBody, id: Id, now: Time, db: Db)
    requires CreateBoard(auth, Some(b), id, now, db).Done?
    ensures CreateBoard(auth, Some(b), id, now, db).body.board.isPublic <==> Truthy(b.isPublic)
    ensures b.isPublic.Undefined? ==> CreateBoard(auth, Some(b), id, now, db).body.board.isPublic == DefaultIsPublic
  {
  }

  /**
   * A created board appears in the next listing, and the listing's count
   * agrees with the reported 0 as long as no note already names its id.
   */
  lemma CreatedBoardListed(auth: AuthSession, b: BoardBody, id: Id, now: Time, db: Db)
    requires CreateBoard(auth, Some(b), id, now, db).Done?
    requires !HasKey(db.notes, NoteBoard, id)
    ensures var r := CreateBoard(auth, Some(b), id, now, db);
            && ListBoards(auth, r.db).Done?
            && exists i :: 0 <= i < |ListBoards(auth, r.db).body| && ListBoards(auth, r.db).body[i] == r.body
  {
    var r := CreateBoard(auth, Some(b), id, now, db);
    assert r.db.users == db.users;
    var l := ListBoards(auth, r.db);
    assert r.body.board in multiset(r.db.boards);
    assert multiset(BoardsOf(l.body))[r.body.board] == multiset(r.db.boards)[r.body.board];
    var i :| 0 <= i < |l.body| && BoardsOf(l.body)[i] == r.body.board;
    assert l.body[i].noteCount == 0;
  }
}
