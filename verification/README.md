# Coldboard organisations, invites and boards: a Dafny model

This project models the multi-tenant core of Coldboard, a notes-board web
application:

- **Organisations.** The setup action creates an organisation, makes its creator the admin, and invites team addresses. The setup form edits the list of invitee addresses. The settings handler renames the organisation and sets its Slack webhook.
- **Invitations.** An admin issues an email invite, or resets an old one. The invite landing page lets the addressee accept or decline it. A visitor without a session gets auto-verification, and the set-session endpoint turns the session it issues into a cookie.
- **Self-serve links.** An admin creates named invite links with an end-of-day expiry and a usage limit; members list the active ones.
- **Boards and notes.** The boards API lists boards with note counts and creates boards. The all-notes API lists the organisation's live notes with their checklist items and creates notes.
- **Dashboard.** The dashboard page's client logic covers load routing, board form validation, list updates, error dialogs and who may manage a board.
- **Routing.** The middleware and the navigation shell decide where a visitor is sent.

The database is a set of tables, each a sequence of rows in storage order
(`Table`, `Schema`):

- A lookup `where … limit 1` is the first matching row.
- A primary key or unique constraint is `Unique` over a key function.
- An insert that would break one fails, which the handlers turn into 500.

Handlers are pure functions from the session, the request body and the store to a `Reply`. A `Reply` is either `Fail(code)`, which writes nothing, or `Done(code, body, store)`. JavaScript semantics the handlers rely on are written out in `Js`:

- truthiness and `String(v)`;
- `trim` with the full ECMAScript whitespace set;
- ASCII `toLowerCase`;
- `parseInt`.

The text a request value becomes when it is handed to the store is node-postgres's parameter conversion, written out in `Pg`. It differs from `String(v)` for arrays and objects.

Ids, tokens, random draws and the clock are parameters.

Module layout:

| module | file | covers |
|---|---|---|
| `Wrappers` | wrappers.dfy | `Option`, `Result` |
| `Js` | js.dfy | JavaScript value semantics used by the handlers |
| `Pg` | pg.dfy | the text node-postgres sends for a query parameter |
| `Table` | table.dfy | rows, keys, lookups, updates, selects, counts, descending order |
| `Schema` | schema.dfy | the tables of `lib/db/schema.ts`, their keys and inserts |
| `Http` | http.dfy | sessions, status codes, the caller's row |
| `InviteIssue` | invite_issue.dfy | `POST /api/organization/invite` |
| `InviteAccept` | invite_accept.dfy | the invite page, accept/decline, auto-verify |
| `InviteLifecycle` | invite_lifecycle.dfy | issue → accept/decline → reissue |
| `SetSession` | set_session.dfy | `GET /api/auth/set-session` |
| `OrgSetup` | org_setup.dfy | `createOrganization` and the setup page |
| `SetupForm` | setup_form.dfy | the organisation setup form |
| `OrgSettings` | org_settings.dfy | `PUT /api/organization` |
| `SelfServe` | self_serve.dfy | self-serve invite links |
| `BoardsApi` | boards_api.dfy | `/api/boards` |
| `AllNotes` | all_notes.dfy | `/api/boards/all-notes/notes` |
| `Dashboard` | dashboard.dfy | the dashboard page's client logic |
| `Routing` | routing.dfy | middleware and navigation shell |

## Model

| member | source | states |
|---|---|---|
| Schema.InsertUser | lib/db/schema.ts:50-60 | a user insert succeeds iff neither the id nor the email is taken; the row is appended and the store stays consistent |
| Schema.InsertOrganization | lib/db/schema.ts:62-68 | an organisation insert succeeds iff its id is new; the row is appended |
| Schema.InsertBoard | lib/db/schema.ts:70-86 | a board insert succeeds iff its id is new; the row is appended |
| Schema.InsertNote | lib/db/schema.ts:88-107 | a note insert succeeds iff its id is new; the row is appended |
| Schema.InsertInvite | lib/db/schema.ts:127-140 | an invite insert succeeds iff its id is new and no invite exists for the same (email, organisation) pair |
| Schema.InsertSelfServeInvite | lib/db/schema.ts:142-153 | a link insert succeeds iff its id is new, its token, when set, is not held by another link, and its usage limit, when set, fits the 32-bit `integer` column; an out-of-range limit is its own failure |
| Schema.InsertSession | lib/db/schema.ts:39-48 | a session insert succeeds iff its id and its token are both new |
| Schema.AtMostOneInvitePerPair | lib/db/schema.ts:138 | on a consistent store at most one invite exists per (email, organisation) pair |
| Schema.AtMostOneUserPerEmail | lib/db/schema.ts:53 | on a consistent store at most one user holds an email |
| Js.TrimEmptyIffBlank | app/api/organization/route.ts:43-44 | `trim()` yields the empty string exactly for whitespace-only input |
| Js.TrimIdempotent | app/api/organization/route.ts:43 | trimming a trimmed string changes nothing |
| Js.NormalizeEmailIdempotent | app/api/organization/invite/route.ts:25 | `trim().toLowerCase()` applied twice is applied once |
| Js.ParseIntOfNumber | app/api/organization/self-serve-invites/route.ts:142 | `parseInt` of a whole JSON number that a JavaScript number holds exactly returns that number |
| Js.ParseIntOfNonNumeric | app/api/organization/self-serve-invites/route.ts:142 | `parseInt` of a boolean, null or plain object is NaN |
| Js.ParseIntOfSingletonArray | app/api/organization/self-serve-invites/route.ts:142 | `parseInt` of a one-integer array gives the integer back, for integers a JavaScript number holds exactly |
| Pg.ParamText | lib/db.ts:1-14 | node-postgres's parameter text: a string as is, a number or boolean as `String` writes it, an object as its JSON text, an array as a braced literal, undefined and null as SQL NULL |
| Pg.UnescapeEscape | lib/db.ts:1-14 | escaping an array element's text loses nothing: reading it back gives the original |
| Pg.StringArrayText | lib/db.ts:1-14 | a one-string array is sent as the literal `{"…"}`, never as the string that `String` would make of it |
| InviteIssue.CheckInvite | app/api/organization/invite/route.ts:15-82 | the checks run in source order, each pinned to its code: 401, 500 on an unreadable body, 400, 404, 403, 400 for an existing member, 400 for an outstanding PENDING invite; success iff all pass |
| InviteIssue.WriteInvite | app/api/organization/invite/route.ts:84-107 | an existing invite for the pair is reset in place to PENDING with the new time, and every row with another id is unchanged; otherwise a new PENDING invite is inserted; only a taken fresh id fails |
| InviteIssue.IssueInvite | app/api/organization/invite/route.ts:11-139 | 201 with the invite iff the checks and the write succeed; a failed check gives its code, a failed write 500 |
| InviteIssue.IssuedInviteIsOnlyPending | app/api/organization/invite/route.ts:80-107 | after success on a consistent store the pair holds exactly one invite, and it is PENDING |
| InviteIssue.NormalizedEmailsAgree | app/api/organization/invite/route.ts:25 | addresses equal after trimming and lower-casing give identical results |
| InviteIssue.BlankEmailInvitesEmptyAddress | app/api/organization/invite/route.ts:21-25 | a whitespace-only address passes the 400 check and is invited as "" |
| InviteIssue.MemberElsewhereInvitable | app/api/organization/invite/route.ts:55-65 | a user of another organisation does not block the invite |
| InviteIssue.SecondIssueRefused | app/api/organization/invite/route.ts:80-82 | issuing the same invite twice: the second call is 400 and writes nothing |
| InviteAccept.AcceptInvite | app/invite/accept/page.tsx:9-69 | accept fails with the first failed check (not authenticated, unknown invite, wrong email, not PENDING); success moves the caller into the organisation and marks the invite ACCEPTED, and nothing else changes |
| InviteAccept.DeclineInvite | app/invite/accept/page.tsx:71-110 | decline has the same checks minus the status one, so any invite addressed to the caller becomes DECLINED |
| InviteAccept.LookupAfterStatusSet | app/invite/accept/page.tsx:63-66 | after a status update the invite is found at the same place with the new status |
| InviteAccept.AcceptIsOneShot | app/invite/accept/page.tsx:52-54 | accepting twice reports the second as already processed |
| InviteAccept.DeclinedNeverAccepted | app/invite/accept/page.tsx:52-54 | a declined invite can no longer be accepted |
| InviteAccept.DeclineAfterAccept | app/invite/accept/page.tsx:71-110 | declining an accepted invite succeeds and leaves the user in the organisation |
| InviteAccept.InvitePage | app/invite/accept/page.tsx:193-418 | the page views in order, each by an iff: no token, unknown invite, no session, wrong account, processed, form; the views carry the invite's email, the status label and the `verified=true` flag |
| InviteAccept.ProcessedLabelExact | app/invite/accept/page.tsx:332-353 | the already-processed view shows "Accepted" iff ACCEPTED and "Declined" iff DECLINED |
| InviteAccept.FormIffAcceptSucceeds | app/invite/accept/page.tsx:303-355 | with a non-empty session email, the page shows the form exactly when accepting would succeed |
| InviteAccept.EmptyEmailGap | app/invite/accept/page.tsx:13-14 | with an empty session email the page offers the form but accepting fails |
| InviteAccept.MarkUserVerified | app/invite/accept/page.tsx:149-157 | marking a user verified keeps every other row, and lookups by email still find the same user |
| InviteAccept.EnsureVerifiedUser | app/invite/accept/page.tsx:116-158 | an unknown address gets a new verified user; an existing one is marked verified; it fails only when the new id is taken |
| InviteAccept.AutoVerifyEffects | app/invite/accept/page.tsx:116-171 | the action's writes: a verified user for the address, then a 30-day session for that user |
| InviteAccept.AutoVerifyTry | app/invite/accept/page.tsx:116-176 | the `try` block always ends by throwing: the redirect signal for set-session exactly when the session row was written, otherwise the store's error |
| InviteAccept.AutoVerifyAsWritten | app/invite/accept/page.tsx:173-185 | as written, the `try` block followed by a `catch` that sends every throw to sign-in; the writes are those of the intended action |
| InviteAccept.AsWrittenAlwaysSignsIn | app/invite/accept/page.tsx:173-185 | for every input the as-written action ends at the sign-in fallback, which differs from the intended destination whenever the session was written |
| InviteAccept.AutoVerifySessionDiscarded | app/invite/accept/page.tsx:173-185 | on an empty store the session is written and the user verified, yet the visitor is sent to sign-in |
| InviteAccept.AutoVerify | app/invite/accept/page.tsx:112-185 | corrected, with a `catch` that passes the redirect signal on: the visitor goes to set-session iff the session row was written, otherwise to sign-in with nothing written to sessions |
| InviteAccept.AutoVerifyKeepsVerifiedUser | app/invite/accept/page.tsx:149 | an already verified user's row is not touched |
| InviteLifecycle.IssueThenAccept | app/invite/accept/page.tsx:9-69 | on a consistent store the invitee can accept an issued invite and joins the organisation |
| InviteLifecycle.ReissueAfterDecline | app/api/organization/invite/route.ts:86-95 | a declined invite can be issued again: the same row returns to PENDING with the new time |
| SetSession.JoinedSession | app/api/auth/set-session/route.ts:18-31 | the session found by token is returned only when its user row exists |
| SetSession.SetSessionCookie | app/api/auth/set-session/route.ts:7-54 | a cookie redirect happens iff both parameters are non-empty, the session exists with a user, it has not expired and the target parses; the cookie is "authjs.session-token", http-only, lax, path "/", secure only in production, and expires with the session |
| SetSession.ExpiryBoundary | app/api/auth/set-session/route.ts:33 | a session is accepted at its expiry instant and refused one millisecond later |
| SetSession.AutoVerifiedSessionAccepted | app/invite/accept/page.tsx:160-176 | a session issued by auto-verify is accepted by set-session throughout its 30-day lifetime |
| SetSession.InvitePageUnguarded | middleware.ts:24-26 | the invite page that set-session redirects to is not guarded by the middleware |
| OrgSetup.InviteEach | app/setup/organization/page.tsx:49-88 | one insert is tried per address in order and failures are swallowed, so the appended rows are the attempted invites (the id, address, organisation, inviter and time of each) with some left out and the rest in list order; with fresh ids every address ends up invited; when the ids are fresh and the addresses are distinct and new to the organisation, the appended rows are exactly the attempted invites |
| OrgSetup.PromoteUser | app/setup/organization/page.tsx:39-46 | the creator becomes an admin of the new organisation; no other row changes |
| OrgSetup.SetupWrites | app/setup/organization/page.tsx:27-88 | the writes fail iff the organisation id is taken |
| OrgSetup.CreateOrganization | app/setup/organization/page.tsx:15-91 | no caller id sends the visitor to sign-in; a blank name is refused before any write; otherwise the trimmed-name organisation exists, the creator is its admin, and each address is invited |
| OrgSetup.SetupPage | app/setup/organization/page.tsx:93-122 | the setup page sends the visitor, in order, to sign-in, to the profile, or to the dashboard when already in an organisation; otherwise it shows the form |
| OrgSetup.SetupPageAfterCreate | app/setup/organization/page.tsx:93-122 | after setup succeeds the page sends the creator to the dashboard, so setup cannot run twice |
| SetupForm.AddEmailField | app/setup/organization/form.tsx:18-20 | one empty field is appended; the others stay |
| SetupForm.RemoveEmailField | app/setup/organization/form.tsx:22-26 | with more than one field the indexed one is dropped; the last field can never be removed |
| SetupForm.UpdateEmail | app/setup/organization/form.tsx:28-32 | only the indexed field changes |
| SetupForm.RemoveUndoesAdd | app/setup/organization/form.tsx:18-26 | removing the field just added restores the list |
| SetupForm.EditsNeverEmpty | app/setup/organization/form.tsx:15-32 | from the initial state no sequence of edits empties the list |
| SetupForm.ValidIffHasAt | app/setup/organization/form.tsx:35 | an address is valid exactly when it contains "@" |
| SetupForm.ValidEmailsExactly | app/setup/organization/form.tsx:44 | the submitted addresses are exactly the valid fields |
| SetupForm.ValidEmailsAppend | app/setup/organization/form.tsx:44 | filtering keeps the fields' order |
| SetupForm.ValidEmailsIdempotent | app/setup/organization/form.tsx:44 | filtering twice is filtering once |
| SetupForm.HasValidEmailsIff | app/setup/organization/form.tsx:34-36 | `hasValidEmails` holds iff some field contains "@" |
| SetupForm.ButtonLabel | app/setup/organization/form.tsx:103-104 | the button reads "Creating..." iff submitting, "Save & Send Invites" iff some field has "@", else "Save" |
| SetupForm.HandleSubmit | app/setup/organization/form.tsx:38-50 | a blank name does nothing; otherwise the trimmed name and the valid addresses are submitted; the flag resets only on a throw |
| SetupForm.FormSubmissionNeverNameless | app/setup/organization/form.tsx:38-50 | a form submission never gets the action's name-required refusal |
| OrgSettings.WebhookValue | app/api/organization/route.ts:44 | undefined, null or blank is stored as null; another string is trimmed; a non-string throws (500) |
| OrgSettings.ApplySettings | app/api/organization/route.ts:40-46 | only the caller's organisation row changes, and keys stay unique |
| OrgSettings.UpdateSettings | app/api/organization/route.ts:7-72 | the checks in order are 401, 500, 400, 404, 403, then 500 for a non-string webhook; success updates only the organisation row and returns it |
| OrgSettings.UpdateSettingsIdempotent | app/api/organization/route.ts:40-46 | the same settings applied twice give the same store as applying them once |
| OrgSettings.SettingsReadBack | app/api/organization/route.ts:49-67 | the reply carries the trimmed name and the stored webhook |
| SelfServe.EndOfDay | app/api/organization/self-serve-invites/route.ts:128-129 | the expiry moves to the last millisecond of its day, no earlier than the given instant |
| SelfServe.EndOfDaySameDay | app/api/organization/self-serve-invites/route.ts:128-129 | instants of the same day share the end of day, and the end of a day is a fixed point |
| SelfServe.CheckExpiry | app/api/organization/self-serve-invites/route.ts:124-138 | no expiry is accepted as none; otherwise 400 unless the date parses and its end of day is after now |
| SelfServe.CheckUsageLimit | app/api/organization/self-serve-invites/route.ts:140-150 | undefined or null means no limit; otherwise 400 unless `parseInt` gives at least 1 |
| SelfServe.NumericLimit | app/api/organization/self-serve-invites/route.ts:141-147 | a JSON whole number that a JavaScript number holds exactly is a limit exactly when it is positive |
| SelfServe.NonNumericLimitRefused | app/api/organization/self-serve-invites/route.ts:141-147 | booleans and plain objects are refused with 400 |
| SelfServe.ArrayLimit | app/api/organization/self-serve-invites/route.ts:141-150 | an array is joined before `parseInt`: `[n]` is accepted with limit n exactly when n is at least 1, and `[]` is refused with 400 |
| SelfServe.CreateLink | app/api/organization/self-serve-invites/route.ts:78-200 | the checks in order are 401, 500, 400, 404, 403, 400, 400; the link is created exactly when every check passes, its id and token are not taken and its limit fits the integer column, and otherwise the failed insert gives 500; the stored link carries a 32-character URL-safe token, the trimmed name, usage 0, and is active |
| SelfServe.LimitBeyondInt4 | app/api/organization/self-serve-invites/route.ts:141-199 | a limit of 2147483648 passes the positive-number check, but its insert into the 32-bit column fails and the reply is 500 |
| SelfServe.BlankNameStoredEmpty | app/api/organization/self-serve-invites/route.ts:88-89 | a whitespace-only name passes and is stored as "" |
| SelfServe.ListLinks | app/api/organization/self-serve-invites/route.ts:14-75 | only 401 and 404 on a missing organisation id; the listing is exactly the organisation's active links, newest first |
| SelfServe.CreatedLinkListed | app/api/organization/self-serve-invites/route.ts:14-75 | a link just created appears in the creator's listing |
| SelfServe.ListingLooserThanCreation | app/api/organization/self-serve-invites/route.ts:39-40 | a caller whose organisation row is gone can list but cannot create |
| BoardsApi.WithCounts | app/api/boards/route.ts:35-40 | each board's count is the number of its notes, deleted and archived ones included |
| BoardsApi.ListBoards | app/api/boards/route.ts:7-56 | 401, then 404 without an organisation id; the listing is exactly the organisation's boards, newest first, with counts |
| BoardsApi.CreateBoard | app/api/boards/route.ts:58-118 | the checks in order are 401, 500, 400 on a falsy name, 404; the board is inserted with the creator, organisation and note count 0 |
| BoardsApi.PublicOnlyWhenAsked | app/api/boards/route.ts:84-95 | a board is public iff the request's `isPublic` is truthy |
| BoardsApi.CreatedBoardListed | app/api/boards/route.ts:7-56 | a created board appears in the next listing, with count 0 |
| AllNotes.AttachChecklistsAsWritten | app/api/boards/all-notes/notes/route.ts:59-70 | as written, items are fetched only for the first note |
| AllNotes.SecondNoteLosesItems | app/api/boards/all-notes/notes/route.ts:59-70 | a second note with items is listed with none |
| AllNotes.AttachChecklists | app/api/boards/all-notes/notes/route.ts:59-70 | corrected: each note carries exactly its own items |
| AllNotes.ListNotes | app/api/boards/all-notes/notes/route.ts:8-77 | corrected items fetch: 401, then 403 without an organisation id; the listing is exactly the live notes with an author on the organisation's boards, newest first, each with exactly its own items |
| AllNotes.ListNotesAsWritten | app/api/boards/all-notes/notes/route.ts:8-77 | as written: the same replies and notes as the corrected listing; every note whose id differs from the first listed note's has no items, and every note with that id has exactly its own items |
| AllNotes.PickColor | app/api/boards/all-notes/notes/route.ts:117 | a truthy colour is kept; otherwise a palette entry is drawn |
| AllNotes.CreateNote | app/api/boards/all-notes/notes/route.ts:79-163 | the checks in order are 401, 500, 400, 403, 404, then 403 for another organisation's board; the note is inserted, with no items, exactly when every check passes and its id is new, and a taken id gives 500 |
| AllNotes.ArrayBoardIdNotFound | app/api/boards/all-notes/notes/route.ts:103-111 | a board id sent as an array is compared as a Postgres array literal, so with ids that do not begin with `{` the reply is 404 |
| AllNotes.CreatedNoteListed | app/api/boards/all-notes/notes/route.ts:8-77 | a created note appears in the next listing |
| Dashboard.Load | app/dashboard/page.tsx:127-158 | 401 goes to sign-in; a user without a name goes to profile setup; one without an organisation goes to organisation setup; otherwise boards load; loading always ends |
| Dashboard.UserErrorStillLoadsBoards | app/dashboard/page.tsx:135-152 | a non-401 failure of the user request ends as a complete user does: the fetched boards, or none |
| Dashboard.BlankNameAccepted | app/dashboard/page.tsx:54-57 | the board name is not trimmed: a name is valid iff non-empty, so a whitespace-only name passes though it trims to "" |
| Dashboard.ReplaceById | app/dashboard/page.tsx:181 | boards with the id are replaced; the others stay in place |
| Dashboard.Prepend | app/dashboard/page.tsx:207 | the new board comes first, followed by the old list |
| Dashboard.RemoveById | app/dashboard/page.tsx:253 | no board with the id remains |
| Dashboard.RemoveByIdCounts | app/dashboard/page.tsx:253 | every board without the id is kept with its multiplicity, and none with the id |
| Dashboard.RemoveByIdAppend | app/dashboard/page.tsx:253 | removal keeps the order of the remaining boards |
| Dashboard.DeleteUndoesCreate | app/dashboard/page.tsx:207-253 | deleting a just-created board with a new id restores the list |
| Dashboard.SetPublic | app/dashboard/page.tsx:283 | only boards with the id change, and only their public flag |
| Dashboard.ToggleRoundTrip | app/dashboard/page.tsx:272-295 | flipping a switch and flipping it back restores the list |
| Dashboard.AddBoard | app/dashboard/page.tsx:164-227 | success replaces the edited board or prepends the new one and closes the form; a failure leaves the list and opens the dialog titled for edit or create |
| Dashboard.ConfirmDelete | app/dashboard/page.tsx:246-270 | success drops the board; a failure leaves the list and opens "Failed to delete board" |
| Dashboard.TogglePublic | app/dashboard/page.tsx:272-295 | success sets the flag; a rejection opens the dialog; a throw changes nothing |
| Dashboard.PermissionAgrees | app/dashboard/page.tsx:476-520 | the public switch is enabled exactly when edit and delete are shown: for the creator or an admin |
| Routing.Decide | middleware.ts:8-22 | no cookie on a protected page goes to sign-in; a cookie on an auth page goes to the dashboard; otherwise next |
| Routing.Middleware | middleware.ts:4-26 | on the matched paths, the dashboard needs a cookie and the auth/login pages need its absence; every other path passes |
| Routing.NoRedirectLoop | middleware.ts:13-19 | a redirect target is never redirected again for the same visitor |
| Routing.MatcherNarrowsGuard | middleware.ts:8-26 | "/authors" counts as an auth page but is not matched; board pages are protected but not matched |
| Routing.NavFetch | components/navigation.tsx:22-42 | a 401 pushes sign-in unless on an auth page; an OK stores the user; loading always ends |
| Routing.NavView | components/navigation.tsx:48-80 | the shell is bare on auth pages and "/", shows the loader while loading, else the header |
| Routing.LoaderEnds | components/navigation.tsx:39-55 | once the request settles the loader is never shown |
| Routing.HomeStillRedirects | components/navigation.tsx:25-31 | on "/", the middleware lets a visitor without a cookie through, yet the shell's 401 handling still pushes sign-in |

## Left out

- **Real I/O.** Email delivery, the Slack webhook and the Resend client are out. A failed invitation email is caught and does not change any reply, so it needs no model.
- **Exceptions thrown by the store or the network.** They are the handlers' catch-all 500 or sign-in redirect. Only the unique-key failures of inserts are modelled.
- **Concurrency and races between requests.** Every handler runs atomically on one store.
- **Generated values and the clock.** `crypto.randomUUID`, `nanoid`, `Math.random` and the clock are parameters. The `nanoid(32)` token is required to have nanoid's shape.
- **Date parsing and time zones.** `new Date(expiresAt)` is given as the parameter `expiresInstant`. End of day is taken on the local-time line with the offset left out.
- **JavaScript strings.** `toLowerCase` is ASCII-only, and strings are sequences of characters rather than UTF-16 code units.
- **Floating point.** JSON numbers are integers, so `parseInt` of fractional numbers is not modelled. `String` of an integer is written in plain decimal at every magnitude. JavaScript numbers are doubles, so they lose precision beyond 2^53, and from 10^21 `String` switches to exponent notation.
- **Session field names.** The code reads and writes `sessionToken`/`expires` on sessions, while lib/db/schema.ts:39-48 names the columns `token`/`expiresAt`. The model uses one `token` and one `expiresAt` field. `emailVerified` is written with a date but declared boolean; the model uses a boolean.
- **node-postgres itself.** The driver is not part of this model's sources. `Pg` writes out its parameter conversion from its documented behaviour: `JSON.stringify` for objects and the array-literal escaping. Buffers and dates never reach a text column from a request body, so they are left out. The server's own parsing of the text is not modelled.
- **The note palette.** lib/constants.ts is not part of this model, so the palette is a parameter.
- **Join multiplicity.** The model lets a join hit at most one row. That is exact under the unique keys `Valid` states and approximate on an inconsistent store.
- **Unmodelled handlers and pages.** The board page with its masonry layout and undo, auth.ts and the better-auth configuration, the archive, profile, member and single-board handlers, and the UI rendering beyond what each view decides.
- **Checklist item columns.** The items' `checked`/`order` defaults are not modelled; items carry only what the listing uses.
- SetupForm.UpdateEmail: requires the index to be in range. An out-of-range write would extend a JavaScript array, but the form only calls it on rendered fields.
- AllNotes.PickColor: requires the random draw to index the palette. `Math.floor(Math.random() * n)` always does.
- SelfServe.CreateLink: requires the token to have nanoid's shape (32 URL-safe characters), because `nanoid(32)` always returns one.
- SetSession.SetSessionCookie: URL resolution of `redirectTo` is given as the parameter `redirectUrl` (None when `new URL` throws).
- AllNotes.ListNotes: attaches checklist items with the corrected fetch of every listed note's items, as the inline comment at route.ts:64 asks; the handler as written is AllNotes.ListNotesAsWritten (see Findings).
- Js.ToJsString: writes an integer in plain decimal at every magnitude. For integers beyond 2^53 JavaScript first rounds to a double, and from 10^21 it writes exponent notation.
- Js.ParseIntOfNumber: stated only for integers a JavaScript number holds exactly (magnitude at most 2^53). Beyond that the double is rounded, and from 10^21 `parseInt` reads only the digit before the exponent.
- Js.ParseIntOfSingletonArray: stated only for integers a JavaScript number holds exactly, for the same reason as Js.ParseIntOfNumber.
- SelfServe.NumericLimit: stated only for integers a JavaScript number holds exactly, for the same reason as Js.ParseIntOfNumber.
- SelfServe.ArrayLimit: stated only for integers a JavaScript number holds exactly, for the same reason as Js.ParseIntOfNumber.
- Pg.ParamText: writes numbers as Js.ToJsString does, so it carries the same magnitude limit. An object's JSON text is part of the value (`Obj(json)`) rather than computed from the object's members.
- OrgSetup.InviteEach: an address's invite is guaranteed only when the invite ids are fresh, because a taken id makes that insert fail and the loop swallows the failure.

## Findings

| source | as written | input that shows it | evidently intended | confidence | as-written member | corrected member |
|---|---|---|---|---|---|---|
| app/invite/accept/page.tsx:173-185 | `redirect(…)` is called inside `try`. Next's redirect works by throwing, so the `catch` always runs and sends the visitor to sign-in even after the session was written. | empty store, address "a@b": the user and session rows are written, yet the visitor lands on `/auth/signin` | go to set-session when the session was written, and to sign-in only when a write failed | medium (not executed) | InviteAccept.AutoVerifySessionDiscarded | InviteAccept.AutoVerify |
| app/api/boards/all-notes/notes/route.ts:59-64 | checklist items are fetched with `eq(noteId, noteIds[0])`, i.e. for the first note only | two listed notes, one item on the second: the second note is listed with no items | `inArray(noteId, noteIds)`, as the inline comment says | high (not executed) | AllNotes.SecondNoteLosesItems | AllNotes.AttachChecklists |
