/**
 * The dashboard page's client logic: where loading sends the user, the
 * board form's validation, how each board request's outcome updates the
 * board list or opens the error dialog, and who may manage a board.
 */
module Dashboard {
  import opened Wrappers
  import opened Js
  import opened Table
  import opened Schema

  /** A board as the dashboard holds it. */
  datatype ClientBoard = ClientBoard(id: Id, name: string, description: Option<string>, isPublic: bool, createdBy: Id, noteCount: nat)

  /** The signed-in user as `/api/user` describes them. */
  datatype ClientUser = ClientUser(id: Id, name: Option<string>, isAdmin: bool, hasOrganization: bool)

  // ---------------------------------------------------------------------
  // Loading

  /** The `/api/user` response: 401, another non-OK status, or OK with the user. */
  datatype UserResponse = UserUnauthorized | UserNotOk | UserOk(user: ClientUser)

  datatype Redirect = ToSignIn | ToProfile | ToSetupOrganization

  /** The page after `fetchUserAndBoards`: a redirect, if any, the boards shown, and the loading flag. */
  datatype Loaded = Loaded(redirect: Option<Redirect>, boards: seq<ClientBoard>, loading: bool)

  /**
   * `fetchUserAndBoards`: 401 redirects to sign-in; an OK user without a
   * name goes to profile setup, one without an organisation to organisation
   * setup; otherwise the boards are fetched (also after a non-OK, non-401
   * user response) and shown when that response is OK (`boardsResponse`
   * None otherwise). The loading flag is cleared on every path.
   */
  function Load(userResponse: UserResponse, boardsResponse: Option<seq<ClientBoard>>): (r: Loaded)
    ensures !r.loading
    ensures r.redirect == Some(ToSignIn) <==> userResponse.UserUnauthorized?
    ensures r.redirect == Some(ToProfile) <==> userResponse.UserOk? && !Present(userResponse.user.name)
    ensures r.redirect == Some(ToSetupOrganization) <==>
              userResponse.UserOk? && Present(userResponse.user.name) && !userResponse.user.hasOrganization
    ensures r.redirect.Some? ==> r.boards == []
    ensures r.redirect.None? ==> r.boards == (if boardsResponse.Some? then boardsResponse.value else [])
  {
    match userResponse
    case UserUnauthorized => Loaded(Some(ToSignIn), [], false)
    case UserOk(u) =>
      if !Present(u.name) then Loaded(Some(ToProfile), [], false)
      else if !u.hasOrganization then Loaded(Some(ToSetupOrganization), [], false)
      else Loaded(None, boardsResponse.GetOr([]), false)
    case UserNotOk => Loaded(None, boardsResponse.GetOr([]), false)
  }

  /**
   * A failing user request other than 401 does not stop the boards from
   * loading: the page ends as it does for a user with a name and an
   * organisation.
   */
  lemma UserErrorStillLoadsBoards(boardsResponse: Option<seq<ClientBoard>>, u: ClientUser)
    requires Present(u.name) && u.hasOrganization
    ensures Load(UserNotOk, boardsResponse) == Load(UserOk(u), boardsResponse)
    ensures Load(UserNotOk, boardsResponse).boards == boardsResponse.GetOr([])
  {
  }

  // ---------------------------------------------------------------------
  // The board form

  /** `z.string().min(1)` on the name; the description is optional and unchecked. */
  predicate BoardFormValid(name: string) {
    |name| >= 1
  }

  /**
   * The name is not trimmed before the length test: any non-empty name
   * passes, including one made only of whitespace, which trims to "".
   */
  lemma BlankNameAccepted(name: string)
    ensures BoardFormValid(name) <==> name != ""
    ensures name != "" && Blank(name) ==> BoardFormValid(name) && Trim(name) == ""
  {
    TrimEmptyIffBlank(name);
  }

  // ---------------------------------------------------------------------
  // List updates

  /** `boards.map(b => b.id === id ? board : b)`. */
  function ReplaceById(bs: seq<ClientBoard>, id: Id, board: ClientBoard): (r: seq<ClientBoard>)
    ensures |r| == |bs|
    ensures forall i :: 0 <= i < |bs| ==> r[i] == if bs[i].id == id then board else bs[i]
  {
    seq(|bs|, i requires 0 <= i < |bs| => if bs[i].id == id then board else bs[i])
  }

  /** `[board, ...boards]`. */
  function Prepend(board: ClientBoard, bs: seq<ClientBoard>): (r: seq<ClientBoard>)
    ensures |r| == |bs| + 1 && r[0] == board && r[1..] == bs
  {
    [board] + bs
  }

  /** `boards.filter(b => b.id !== id)`. */
  function RemoveById(bs: seq<ClientBoard>, id: Id): (r: seq<ClientBoard>)
    ensures forall i :: 0 <= i < |r| ==> r[i].id != id
    ensures |r| <= |bs|
  {
    if bs == [] then []
    else (if bs[0].id != id then [bs[0]] else []) + RemoveById(bs[1..], id)
  }

  /** Every board without the id is kept as often as it occurred; none with the id is. */
  lemma {:induction false} RemoveByIdCounts(bs: seq<ClientBoard>, id: Id)
    ensures forall x :: multiset(RemoveById(bs, id))[x] == if x.id != id then multiset(bs)[x] else 0
    decreases |bs|
  {
    if bs != [] {
      RemoveByIdCounts(bs[1..], id);
      assert bs == [bs[0]] + bs[1..];
    }
  }

  /** Removing keeps the order of the boards that stay: it distributes over concatenation. */
  lemma {:induction false} RemoveByIdAppend(a: seq<ClientBoard>, b: seq<ClientBoard>, id: Id)
    ensures RemoveById(a + b, id) == RemoveById(a, id) + RemoveById(b, id)
    decreases |a|
  {
    if a == [] {
      assert a + b == b;
    } else {
      var head := if a[0].id != id then [a[0]] else [];
      assert (a + b)[0] == a[0] && (a + b)[1..] == a[1..] + b;
      RemoveByIdAppend(a[1..], b, id);
      calc {
        RemoveById(a + b, id);
        head + RemoveById(a[1..] + b, id);
        head + (RemoveById(a[1..], id) + RemoveById(b, id));
        (head + RemoveById(a[1..], id)) + RemoveById(b, id);
      }
    }
  }

  /** Removing an id no board has changes nothing. */
  lemma {:induction false} RemoveMissing(bs: seq<ClientBoard>, id: Id)
    requires forall i :: 0 <= i < |bs| ==> bs[i].id != id
    ensures RemoveById(bs, id) == bs
    decreases |bs|
  {
    if bs != [] {
      RemoveMissing(bs[1..], id);
      assert bs[0].id != id;
      assert RemoveById(bs, id) == [bs[0]] + RemoveById(bs[1..], id);
      assert bs == [bs[0]] + bs[1..];
    }
  }

  /** Creating a board and then deleting it gives back the list as it was, when its id was new. */
  lemma DeleteUndoesCreate(board: ClientBoard, bs: seq<ClientBoard>)
    requires forall i :: 0 <= i < |bs| ==> bs[i].id != board.id
    ensures RemoveById(Prepend(board, bs), board.id) == bs
  {
    RemoveByIdAppend([board], bs, board.id);
    RemoveMissing(bs, board.id);
    assert RemoveById([board], board.id) == [] by {
      assert [board][1..] == [];
    }
  }

  /** `boards.map(b => b.id === id ? { ...b, isPublic } : b)`. */
  function SetPublic(bs: seq<ClientBoard>, id: Id, isPublic: bool): (r: seq<ClientBoard>)
    ensures |r| == |bs|
    ensures forall i :: 0 <= i < |bs| ==> r[i] == if bs[i].id == id then bs[i].(isPublic := isPublic) else bs[i]
  {
    seq(|bs|, i requires 0 <= i < |bs| => if bs[i].id == id then bs[i].(isPublic := isPublic) else bs[i])
  }

  /** Flipping a board's switch and flipping it back restores the list. */
  lemma ToggleRoundTrip(bs: seq<ClientBoard>, id: Id, isPublic: bool)
    requires forall i :: 0 <= i < |bs| && bs[i].id == id ==> bs[i].isPublic == isPublic
    ensures SetPublic(SetPublic(bs, id, !isPublic), id, isPublic) == bs
  {
  }

  // ---------------------------------------------------------------------
  // Handlers

  /** The outcome of a board request: OK with the returned board, a non-OK status with the body's `error`, or a throw. */
  datatype Outcome = Succeeded(board: ClientBoard) | Rejected(error: Option<string>) | Threw

  datatype ErrorDialog = ErrorDialog(title: string, description: string)

  /** The page state the handlers touch. */
  datatype DashState = DashState(boards: seq<ClientBoard>, editing: Option<Id>, formOpen: bool, error: Option<ErrorDialog>)

  /** `errorData.error || fallback`. */
  function ErrorText(e: Option<string>, fallback: string): (t: string)
    ensures Present(e) ==> t == e.value
    ensures !Present(e) ==> t == fallback
  {
    if Present(e) then e.value else fallback
  }

  /**
   * `handleAddBoard`: while editing, an OK reply replaces the edited board
   * and closes the form; otherwise an OK reply puts the new board first and
   * closes the form. A rejection or a throw leaves the list and form as they
   * were and opens the dialog titled for the operation.
   */
  function AddBoard(s: DashState, outcome: Outcome): (r: DashState)
    ensures outcome.Succeeded? && s.editing.Some? ==>
              r == s.(boards := ReplaceById(s.boards, s.editing.value, outcome.board), formOpen := false, editing := None)
    ensures outcome.Succeeded? && s.editing.None? ==>
              r == s.(boards := Prepend(outcome.board, s.boards), formOpen := false)
    ensures !outcome.Succeeded? ==> r.boards == s.boards && r.editing == s.editing && r.formOpen == s.formOpen
    ensures !outcome.Succeeded? ==>
              (r.error.Some? && r.error.value.title == (if s.editing.Some? then "Failed to update board" else "Failed to create board"))
    ensures outcome.Rejected? ==>
              r.error.value.description == ErrorText(outcome.error, r.error.value.title)
    ensures outcome.Threw? ==> r.error.value.description == r.error.value.title
  {
    var title := if s.editing.Some? then "Failed to update board" else "Failed to create board";
    match outcome
    case Succeeded(board) =>
      if s.editing.Some? then s.(boards := ReplaceById(s.boards, s.editing.value, board), formOpen := false, editing := None)
      else s.(boards := Prepend(board, s.boards), formOpen := false)
    case Rejected(e) => s.(error := Some(ErrorDialog(title, ErrorText(e, title))))
    case Threw => s.(error := Some(ErrorDialog(title, title)))
  }

  /** `confirmDeleteBoard`: an OK reply drops the board; anything else opens the delete-failure dialog. */
  function ConfirmDelete(s: DashState, id: Id, outcome: Outcome): (r: DashState)
    ensures outcome.Succeeded? ==> r == s.(boards := RemoveById(s.boards, id))
    ensures !outcome.Succeeded? ==> (r.boards == s.boards && r.error.Some? && r.error.value.title == "Failed to delete board")
    ensures outcome.Rejected? ==> r.error.value.description == ErrorText(outcome.error, "Failed to delete board")
    ensures outcome.Threw? ==> r.error.value.description == "Failed to delete board"
  {
    match outcome
    case Succeeded(_) => s.(boards := RemoveById(s.boards, id))
    case Rejected(e) => s.(error := Some(ErrorDialog("Failed to delete board", ErrorText(e, "Failed to delete board"))))
    case Threw => s.(error := Some(ErrorDialog("Failed to delete board", "Failed to delete board")))
  }

  /**
   * `handleTogglePublic`: an OK reply sets the flag on that board only; a
   * rejection opens the dialog; a throw is only logged, so the page does
   * not change at all.
   */
  function TogglePublic(s: DashState, id: Id, isPublic: bool, outcome: Outcome): (r: DashState)
    ensures outcome.Succeeded? ==> r == s.(boards := SetPublic(s.boards, id, isPublic))
    ensures outcome.Rejected? ==>
              r == s.(error := Some(ErrorDialog("Failed to update board", ErrorText(outcome.error, "Failed to update board settings"))))
    ensures outcome.Threw? ==> r == s
  {
    match outcome
    case Succeeded(_) => s.(boards := SetPublic(s.boards, id, isPublic))
    case Rejected(e) => s.(error := Some(ErrorDialog("Failed to update board", ErrorText(e, "Failed to update board settings"))))
    case Threw => s
  }

  // ---------------------------------------------------------------------
  // Permissions

  /** `user?.id === board.createdBy || user?.isAdmin`: the edit and delete buttons are shown. */
  predicate ControlsShown(user: Option<ClientUser>, board: ClientBoard) {
    (user.Some? && user.value.id == board.createdBy) || (user.Some? && user.value.isAdmin)
  }

  /** `user?.id !== board.createdBy && !user?.isAdmin`: the public switch is disabled. */
  predicate SwitchDisabled(user: Option<ClientUser>, board: ClientBoard) {
    !(user.Some? && user.value.id == board.createdBy) && !(user.Some? && user.value.isAdmin)
  }

  /** The switch is enabled exactly when the edit and delete controls are shown: the creator or an admin. */
  lemma PermissionAgrees(user: Option<ClientUser>, board: ClientBoard)
    ensures !SwitchDisabled(user, board) <==> ControlsShown(user, board)
    ensures ControlsShown(user, board) <==> user.Some? && (user.value.id == board.createdBy || user.value.isAdmin)
  {
  }
}
