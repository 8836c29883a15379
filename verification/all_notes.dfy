/**
 * `/api/boards/all-notes/notes`: every live note of the caller's
 * organisation with its checklist items, and creating a note on one of the
 * organisation's boards.
 */
module AllNotes {
  import opened Wrappers
  import opened Js
  import opened Pg
  import opened Table
  import opened Schema
  import opened Http

  /** A note as the API returns it, with its checklist items. */
  datatype NoteView = NoteView(note: Note, items: seq<ChecklistItem>)

  function NoteCreatedAt(n: Note): int { n.createdAt }

  function NotesOf(vs: seq<NoteView>): (r: seq<Note>)
    ensures |r| == |vs| && forall i :: 0 <= i < |vs| ==> r[i] == vs[i].note
  {
    seq(|vs|, i requires 0 <= i < |vs| => vs[i].note)
  }

  /** Some board with that id belongs to `org` (the inner join on boards, filtered by organisation). */
  predicate OnOrgBoard(boards: seq<Board>, boardId: Id, org: Id) {
    exists j :: 0 <= j < |boards| && boards[j].id == boardId && boards[j].organizationId == org
  }

  /**
   * A note the listing shows: neither deleted nor archived, its author has a
   * user row (the inner join on users), and it sits on a board of `org`.
   * With unique keys each join finds at most one row, so each note appears
   * at most once.
   */
  predicate Listed(n: Note, org: Id, db: Db) {
    && n.deletedAt.None? && n.archivedAt.None?
    && HasKey(db.users, UserId, n.createdBy)
    && OnOrgBoard(db.boards, n.boardId, org)
  }

  /** The items of one note, in storage order. */
  function ItemsOf(items: seq<ChecklistItem>, noteId: Id): (r: seq<ChecklistItem>)
    ensures forall x :: multiset(r)[x] == if x.noteId == noteId then multiset(items)[x] else 0
  {
    Select(items, (c: ChecklistItem) => c.noteId == noteId)
  }

  /** A sequence whose multiset is empty is empty. */
  lemma EmptyMultiset<T>(s: seq<T>)
    requires forall x :: multiset(s)[x] == 0
    ensures s == []
  {
    assert multiset(s) == multiset{};
    assert |s| == |multiset(s)| == 0;
  }

  /**
   * The attachment as written: the items are fetched for the first note's
   * id only, then shared out by note id. Notes after the first (with a
   * different id) always get no items; a note with the first note's id
   * gets exactly its own items.
   */
  function AttachChecklistsAsWritten(ns: seq<Note>, items: seq<ChecklistItem>): (r: seq<NoteView>)
    ensures NotesOf(r) == ns
    ensures forall i :: 0 <= i < |r| && ns[i].id != ns[0].id ==> r[i].items == []
    ensures forall i :: 0 <= i < |r| && ns[i].id == ns[0].id ==>
              forall x :: multiset(r[i].items)[x] == if x.noteId == ns[i].id then multiset(items)[x] else 0
  {
    var fetched := if |ns| > 0 then ItemsOf(items, ns[0].id) else [];
    var r := seq(|ns|, i requires 0 <= i < |ns| => NoteView(ns[i], ItemsOf(fetched, ns[i].id)));
    EmptyItemsBeyondFirst(ns, items, fetched, r);
    FirstIdItems(ns, items, fetched, r);
    r
  }

  lemma FirstIdItems(ns: seq<Note>, items: seq<ChecklistItem>, fetched: seq<ChecklistItem>, r: seq<NoteView>)
    requires fetched == if |ns| > 0 then ItemsOf(items, ns[0].id) else []
    requires |r| == |ns| && forall i :: 0 <= i < |ns| ==> r[i] == NoteView(ns[i], ItemsOf(fetched, ns[i].id))
    ensures forall i :: 0 <= i < |r| && ns[i].id == ns[0].id ==>
              forall x :: multiset(r[i].items)[x] == if x.noteId == ns[i].id then multiset(items)[x] else 0
  {
    forall i, x | 0 <= i < |r| && ns[i].id == ns[0].id
      ensures multiset(r[i].items)[x] == if x.noteId == ns[i].id then multiset(items)[x] else 0
    {
      assert multiset(r[i].items)[x] == if x.noteId == ns[i].id then multiset(fetched)[x] else 0;
    }
  }

  lemma EmptyItemsBeyondFirst(ns: seq<Note>, items: seq<ChecklistItem>, fetched: seq<ChecklistItem>, r: seq<NoteView>)
    requires fetched == if |ns| > 0 then ItemsOf(items, ns[0].id) else []
    requires |r| == |ns| && forall i :: 0 <= i < |ns| ==> r[i] == NoteView(ns[i], ItemsOf(fetched, ns[i].id))
    ensures forall i :: 0 <= i < |r| && ns[i].id != ns[0].id ==> r[i].items == []
  {
    forall i | 0 <= i < |r| && ns[i].id != ns[0].id ensures r[i].items == [] {
      EmptyMultiset(r[i].items);
    }
  }

  /** Two live notes on one board, the item on the second: as written, the second note is listed without it. */
  lemma SecondNoteLosesItems()
    ensures var n1 := Note("n1", "a", DefaultNoteColor, None, "b", "u", 2, None);
            var n2 := Note("n2", "b", DefaultNoteColor, None, "b", "u", 1, None);
            var item := ChecklistItem("c", "x", DefaultChecked, DefaultOrder, "n2");
            && AttachChecklistsAsWritten([n1, n2], [item])[1].items == []
            && AttachChecklists([n1, n2], [item])[1].items == [item]
  {
    var n1 := Note("n1", "a", DefaultNoteColor, None, "b", "u", 2, None);
    var n2 := Note("n2", "b", DefaultNoteColor, None, "b", "u", 1, None);
    var item := ChecklistItem("c", "x", DefaultChecked, DefaultOrder, "n2");
    var r := AttachChecklists([n1, n2], [item]);
    assert multiset(r[1].items)[item] == 1;
    assert |r[1].items| == |multiset(r[1].items)|;
    assert forall x :: x != item ==> multiset(r[1].items)[x] == 0;
    assert multiset(r[1].items) == multiset{item};
    assert r[1].items[0] in multiset(r[1].items);
  }

  /** The ids of the notes, in order. */
  function NoteIds(ns: seq<Note>): (r: seq<Id>)
    ensures |r| == |ns| && forall i :: 0 <= i < |ns| ==> r[i] == ns[i].id
  {
    seq(|ns|, i requires 0 <= i < |ns| => ns[i].id)
  }

  /**
   * The attachment as intended: one fetch of the items of all listed notes
   * (`where noteId in (…)`), shared out by note id, so each note carries
   * exactly its own items.
   */
  function AttachChecklists(ns: seq<Note>, items: seq<ChecklistItem>): (r: seq<NoteView>)
    ensures NotesOf(r) == ns
    ensures forall i :: 0 <= i < |r| ==>
              forall x :: multiset(r[i].items)[x] == if x.noteId == ns[i].id then multiset(items)[x] else 0
  {
    var ids := NoteIds(ns);
    var fetched := Select(items, (c: ChecklistItem) => c.noteId in ids);
    seq(|ns|, i requires 0 <= i < |ns| => NoteView(ns[i], ItemsOf(fetched, ns[i].id)))
  }

  /**
   * `GET`: 401 without a caller id, 403 without an organisation id, else the
   * listed notes, newest first, each with its checklist items. Nothing is
   * written.
   */
  function ListNotes(auth: AuthSession, db: Db): (r: Reply<seq<NoteView>>)
    ensures !HasUserId(auth) ==> r == Fail(Unauthorized)
    ensures HasUserId(auth) && !HasOrganizationId(CallerRow(auth, db)) ==> r == Fail(Forbidden)
    ensures r.Done? <==> HasUserId(auth) && HasOrganizationId(CallerRow(auth, db))
    ensures r.Done? ==>
              var org := CallerRow(auth, db).value.organizationId.value;
              && r.code == Ok && r.db == db
              && SortedDesc(NotesOf(r.body), NoteCreatedAt)
              && (forall x :: multiset(NotesOf(r.body))[x] == if Listed(x, org, db) then multiset(db.notes)[x] else 0)
              && (forall i :: 0 <= i < |r.body| ==>
                    forall x :: multiset(r.body[i].items)[x] == if x.noteId == r.body[i].note.id then multiset(db.checklistItems)[x] else 0)
  {
    if !HasUserId(auth) then Fail(Unauthorized)
    else
      var user := CallerRow(auth, db);
      if !HasOrganizationId(user) then Fail(Forbidden)
      else
        var org := user.value.organizationId.value;
        var ns := SortDesc(Select(db.notes, (n: Note) => Listed(n, org, db)), NoteCreatedAt);
        Done(Ok, AttachChecklists(ns, db.checklistItems), db)
  }

  /**
   * `GET` as written: the same replies and the same notes, but the items
   * come from the first-note-only fetch, so a note whose id differs from
   * the first listed note's is listed with no items.
   */
  function ListNotesAsWritten(auth: AuthSession, db: Db): (r: Reply<seq<NoteView>>)
    ensures r.Fail? ==> r == ListNotes(auth, db)
    ensures r.Done? <==> ListNotes(auth, db).Done?
    ensures r.Done? ==>
              && r.code == Ok && r.db == db
              && NotesOf(r.body) == NotesOf(ListNotes(auth, db).body)
              && (forall i :: 0 <= i < |r.body| && r.body[i].note.id != r.body[0].note.id ==> r.body[i].items == [])
              && (forall i :: 0 <= i < |r.body| && r.body[i].note.id == r.body[0].note.id ==>
                    forall x :: multiset(r.body[i].items)[x] == if x.noteId == r.body[i].note.id then multiset(db.checklistItems)[x] else 0)
  {
    match ListNotes(auth, db)
    case Fail(code) => Fail(code)
    case Done(code, views, d) => Done(code, AttachChecklistsAsWritten(NotesOf(views), d.checklistItems), d)
  }

  datatype NoteBody = NoteBody(content: Json, color: Json, boardId: Json)

  /**
   * The colour of a new note: the requested one if truthy; otherwise the
   * palette entry the random draw picks; with an empty palette the draw
   * yields `undefined` and the column default applies.
   */
  function PickColor(color: Json, palette: seq<string>, draw: nat): (c: string)
    requires |palette| == 0 || draw < |palette|
    ensures Truthy(color) ==> c == ParamText(color).value
    ensures !Truthy(color) && |palette| > 0 ==> c in palette
    ensures !Truthy(color) && |palette| == 0 ==> c == DefaultNoteColor
  {
    if Truthy(color) then ParamText(color).value
    else if |palette| > 0 then palette[draw]
    else DefaultNoteColor
  }

  /**
   * `POST`: 401, then 500 for an unreadable body, then 400 for a falsy
   * content or board id, 403 without an organisation id, 404 for an unknown
   * board, 403 for another organisation's board; then the note is inserted
   * (500 when the id is taken) and returned with 201 and no items. The
   * board id is compared, and the content and colour stored, as the text
   * node-postgres sends for them.
   */
  function CreateNote(auth: AuthSession, body: Option<NoteBody>, palette: seq<string>, draw: nat,
                      id: Id, now: Time, db: Db): (r: Reply<NoteView>)
    requires |palette| == 0 || draw < |palette|
    ensures !HasUserId(auth) ==> r == Fail(Unauthorized)
    ensures HasUserId(auth) && body.None? ==> r == Fail(ServerError)
    ensures HasUserId(auth) && body.Some? && !(Truthy(body.value.content) && Truthy(body.value.boardId)) ==> r == Fail(BadRequest)
    ensures (HasUserId(auth) && body.Some? && Truthy(body.value.content) && Truthy(body.value.boardId)
             && !HasOrganizationId(CallerRow(auth, db))) ==> r == Fail(Forbidden)
    ensures (HasUserId(auth) && body.Some? && Truthy(body.value.content) && Truthy(body.value.boardId)
             && HasOrganizationId(CallerRow(auth, db))
             && Find(db.boards, BoardId, ParamText(body.value.boardId).value).None?) ==> r == Fail(NotFound)
    ensures (HasUserId(auth) && body.Some? && Truthy(body.value.content) && Truthy(body.value.boardId)
             && HasOrganizationId(CallerRow(auth, db))
             && Find(db.boards, BoardId, ParamText(body.value.boardId).value).Some?
             && Find(db.boards, BoardId, ParamText(body.value.boardId).value).value.organizationId
                != CallerRow(auth, db).value.organizationId.value) ==> r == Fail(Forbidden)
    ensures (HasUserId(auth) && body.Some? && Truthy(body.value.content) && Truthy(body.value.boardId)
             && HasOrganizationId(CallerRow(auth, db))
             && Find(db.boards, BoardId, ParamText(body.value.boardId).value).Some?
             && Find(db.boards, BoardId, ParamText(body.value.boardId).value).value.organizationId
                == CallerRow(auth, db).value.organizationId.value
             && HasKey(db.notes, NoteId, id)) ==> r == Fail(ServerError)
    ensures r.Done? <==>
              && HasUserId(auth) && body.Some? && Truthy(body.value.content) && Truthy(body.value.boardId)
              && HasOrganizationId(CallerRow(auth, db))
              && Find(db.boards, BoardId, ParamText(body.value.boardId).value).Some?
              && Find(db.boards, BoardId, ParamText(body.value.boardId).value).value.organizationId
                 == CallerRow(auth, db).value.organizationId.value
              && !HasKey(db.notes, NoteId, id)
    ensures r.Done? ==>
              && r.code == Created
              && r.body == NoteView(Note(id, ParamText(body.value.content).value, PickColor(body.value.color, palette, draw), None,
                                         ParamText(body.value.boardId).value, CallerId(auth), now, None), [])
              && r.db == db.(notes := db.notes + [r.body.note])
              && OnOrgBoard(db.boards, r.body.note.boardId, CallerRow(auth, db).value.organizationId.value)
    ensures r.Done? && Valid(db) ==> Valid(r.db)
  {
    if !HasUserId(auth) then Fail(Unauthorized)
    else if body.None? then Fail(ServerError)
    else if !Truthy(body.value.content) || !Truthy(body.value.boardId) then Fail(BadRequest)
    else
      var user := CallerRow(auth, db);
      if !HasOrganizationId(user) then Fail(Forbidden)
      else
        var boardId := ParamText(body.value.boardId).value;
        match Find(db.boards, BoardId, boardId)
        case None => Fail(NotFound)
        case Some(board) =>
          if board.organizationId != user.value.organizationId.value then Fail(Forbidden)
          else
            var note := Note(id, ParamText(body.value.content).value, PickColor(body.value.color, palette, draw), None,
                             boardId, CallerId(auth), now, None);
            match InsertNote(db, note)
            case Failure(_) => Fail(ServerError)
            case Success(db1) => Done(Created, NoteView(note, []), db1)
  }

  /**
   * A board id sent as an array is looked up as a Postgres array literal
   * (`["b1"]` as `{"b1"}`), which no id that does not begin with `{` (a
   * `crypto.randomUUID` never does) matches: the reply is 404, whatever
   * the array holds.
   */
  lemma ArrayBoardIdNotFound(auth: AuthSession, content: Json, color: Json, es: seq<Json>, palette: seq<string>, draw: nat,
                             id: Id, now: Time, db: Db)
    requires |palette| == 0 || draw < |palette|
    requires HasUserId(auth) && Truthy(content) && HasOrganizationId(CallerRow(auth, db))
    requires forall j :: 0 <= j < |db.boards| ==> db.boards[j].id == [] || db.boards[j].id[0] != '{'
    ensures CreateNote(auth, Some(NoteBody(content, color, Arr(es))), palette, draw, id, now, db) == Fail(NotFound)
  {
    var key := ParamText(Arr(es)).value;
    assert !HasKey(db.boards, BoardId, key) by {
      forall j | 0 <= j < |db.boards| ensures BoardId(db.boards[j]) != key {
        if db.boards[j].id != [] {
          assert db.boards[j].id[0] != key[0];
        }
      }
    }
  }

  /** A note just created is live, so the next listing for the same caller shows it. */
  lemma CreatedNoteListed(auth: AuthSession, body: Option<NoteBody>, palette: seq<string>, draw: nat,
                          id: Id, now: Time, db: Db)
    requires |palette| == 0 || draw < |palette|
    requires CreateNote(auth, body, palette, draw, id, now, db).Done?
    ensures var r := CreateNote(auth, body, palette, draw, id, now, db);
            && ListNotes(auth, r.db).Done?
            && r.body.note in NotesOf(ListNotes(auth, r.db).body)
  {
    var r := CreateNote(auth, body, palette, draw, id, now, db);
    var org := CallerRow(auth, db).value.organizationId.value;
    assert r.db.users == db.users && r.db.boards == db.boards;
    assert HasKey(db.users, UserId, CallerId(auth));
    assert Listed(r.body.note, org, r.db);
    var l := ListNotes(auth, r.db);
    assert r.body.note in multiset(r.db.notes);
    assert multiset(NotesOf(l.body))[r.body.note] == multiset(r.db.notes)[r.body.note];
  }
}
