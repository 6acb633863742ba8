# College allotment portal: record store and navigation rules in Dafny

This project models the two pieces of the classroom/exam allotment portal
whose behaviour can be stated precisely:

- **The record store of the Flask back end** (`backend/app.py`). The global
  `db_state` is the class `Store.Database`, one `seq` field per table. The
  four POST handlers are methods that change only their own table:
  `update_section` and `approve_leave` overwrite fields of the first matching
  row, and `swap_invigilation` and `apply_leave` append a pending row. The
  three GET handlers are methods that only read. Each handler's new table is
  given by a specification function (`UpdatedSections`, `DecidedLeaves`,
  `SwapEntry`, `LeaveEntry`), and lemmas state what the handler promises:
  which row changes, which fields it keeps, the error reply when no row
  matches, idempotence, and that approving right after applying always
  finds a request. The search-and-update loop is written once, generically,
  in `Tables`. `Tables.UpdateFirst` mirrors the loop with its early return,
  and the lemma `UpdateFirstChangesFirstMatch` ties it to the index that
  `Tables.FirstMatch` finds.
- **The session, navigation and presentation rules of the front end**
  (`frontend/js/script.js`), taken away from the DOM:
  - Pages, tab triggers and content panes are `Dom.Element` values: a key
    (the id or `data-tab` value) plus the two classes the code toggles,
    `active` and `hidden`.
  - `showPage` and the tab click handler flip those classes in loops over
    arrays (`Portal.App.ShowPage`, `Tabs.TabGroup.Click`). They are proved
    equal to the functions `Dom.ShownPages`, `Dom.SelectedTriggers` and
    `Dom.RevealedPanes`, whose lemmas give the exactly-one-visible rules.
  - `Portal.App` holds the globals `currentUser` and `currentTheme`, the
    stored theme, the active role tab, the login form, the toast stack and
    the scheduled navigations.
  - `getRoleDetails` (`Roles`) and the utilization colour rule (`Rooms`) are
    pure functions.

A delayed navigation (`setTimeout(..., 1000)`) is an entry in
`App.timers`. `App.RunTimer` fires the oldest one. Every delay is the same
and none is ever cancelled, so a queue in scheduling order is exact. A
navigation scheduled by a login therefore still happens after a later
logout, as the code allows.

Behaviours of the code a reader may not expect:

- `showPage` with an id that no page has, or with the empty id, is not a
  no-op. Every page has already been hidden when the lookup fails, so no
  page is visible afterwards (`Dom.ShowPageUnknownHidesAll`).
- A failed login leaves `currentUser` as it was. It does not force a
  logged-out state, so a failed second login keeps an earlier session.
- The utilization bar gets the class `bg-destructive` above 85,
  `bg-warning` above 70 up to 85, and `bg-success` otherwise; the
  constructors of `Rooms.Bucket` stand for these three classes.
- `approve_leave` updates the first request with the same student and
  date. After `apply_leave` for a date on which 23CSE001 already has a
  request, the older request is decided and the new one stays pending
  (`Store.ApplyThenApprove`).

## Model

| member | source | states |
|---|---|---|
| Tables.FirstMatch | backend/app.py:80-81 | the index of the first row satisfying the match condition: it matches and no earlier row does; None exactly when no row matches |
| Tables.IndexOfFirst | backend/app.py:80-81 | the search loop with early return finds exactly the index FirstMatch specifies |
| Tables.UpdateFirstChangesFirstMatch | backend/app.py:80-86 | updating in the loop changes exactly the first matching row, and nothing when no row matches |
| Tables.UpdateFirstIdempotent | backend/app.py:80-85 | when the update keeps the row matching and is itself idempotent, running the update twice equals running it once |
| Store.UpdateSectionFound | backend/app.py:80-85 | the first section with the request's branch and section gets its type and class teacher; branch, section and year stay; every other row and the length are unchanged; reply "Section updated successfully." |
| Store.UpdateSectionMissing | backend/app.py:86 | with no matching section the table is unchanged and the reply is the error "Section not found." |
| Store.UpdateSectionIdempotent | backend/app.py:80-86 | repeating an update_section request changes nothing further and gives the same reply |
| Store.ApproveLeaveFound | backend/app.py:118-121 | the first request with the decision's student and date gets the new status, its other fields stay, every other request is unchanged; reply "Leave request updated." |
| Store.ApproveLeaveMissing | backend/app.py:122 | with no matching request the table is unchanged and the reply is the error "Leave request not found." |
| Store.SwapEntry | backend/app.py:93-99 | the appended invigilation row is named "Request from " followed by the requesting faculty, has the request's subject, date and room, and status "Pending" |
| Store.LeaveEntry | backend/app.py:106-111 | the appended leave request is filed under 23CSE001 with the application's reason and date and status "Pending" |
| Store.ApplyThenApprove | backend/app.py:106-121 | after apply_leave with date d, approve_leave for 23CSE001 on d always succeeds; it decides an earlier request of 23CSE001 on d when one exists (the new one stays pending), otherwise the new one |
| Store.Database.constructor | backend/app.py:11-43 | the store starts holding the given rows of its seven tables |
| Store.Database.GetStudentData | backend/app.py:49-55 | returns the timetable and exam tables as stored, changing no table |
| Store.Database.GetFacultyData | backend/app.py:58-65 | returns the timetable, invigilation and leave tables as stored, changing no table |
| Store.Database.GetAdminData | backend/app.py:68-73 | returns the section and leave tables as stored, changing no table |
| Store.Database.UpdateSection | backend/app.py:76-86 | the sections table becomes UpdatedSections of the old one and the reply is SectionReply; no other table may change |
| Store.Database.SwapInvigilation | backend/app.py:89-100 | the invigilations table grows by exactly SwapEntry(request) at its end; the reply is "Swap request submitted."; no other table may change |
| Store.Database.ApplyLeave | backend/app.py:103-112 | the leave table grows by exactly LeaveEntry(application) at its end; the reply is "Leave request submitted."; no other table may change |
| Store.Database.ApproveLeave | backend/app.py:115-122 | the leave table becomes DecidedLeaves of the old one and the reply is DecisionReply; no other table may change |
| Roles.GetRoleDetails | frontend/js/script.js:110-141 | defined exactly on the keys student, faculty and admin; only faculty's input type is "email", the others' is "text"; every entry has a sample-credential hint |
| Roles.Details | frontend/js/script.js:86-89 | the lookup of a role tab's own key always finds an entry |
| Roles.SwitchRoleShowsRole | frontend/js/script.js:81-104 | after switching to a role, the form's title, label, placeholder, input type and visible sample hint are exactly that role's, whatever the form showed before |
| Rooms.UtilizationBucket | frontend/js/script.js:528 | destructive exactly when u > 85, warning exactly when 70 < u <= 85, success exactly when u <= 70 |
| Rooms.BucketMonotone | frontend/js/script.js:528 | a higher utilization never gets a less severe bucket |
| Dom.ShowPageShowsOnlyNamed | frontend/js/script.js:51-65 | with distinct ids, after showPage(id) a page is active exactly when id is non-empty and is its id, and hidden exactly when it is not; ids unchanged |
| Dom.ShowPageUnknownHidesAll | frontend/js/script.js:53-64 | showPage with the empty id or an id no page has leaves every page hidden and none active |
| Dom.ShowPageVisibleCount | frontend/js/script.js:51-65 | when some page has the non-empty id, exactly one page is visible afterwards, even if ids repeat |
| Dom.TabClickSelectsOne | frontend/js/script.js:199-202 | after a click the clicked trigger is the only active trigger of its group; keys and hidden flags unchanged |
| Dom.TabClickRevealsTarget | frontend/js/script.js:205-212 | with distinct ids, after a click a pane of the group is hidden exactly when its id is not the tab id plus "-tab"; active flags unchanged |
| Tabs.TabGroup.Click | frontend/js/script.js:193-213 | the group's triggers become SelectedTriggers and its panes RevealedPanes for the clicked trigger's tab id; only this group's arrays may change |
| Portal.InitialTheme | frontend/js/script.js:11-24 | the start-up theme is the stored name, or "light" when the key is missing or empty; the dark class is set exactly when that name is "dark" |
| Portal.InitialThemeConsistent | frontend/js/script.js:11-24 | when storage holds nothing, "", "light" or "dark", the start-up theme name matches the dark class |
| Portal.Toggle | frontend/js/script.js:36-48 | the dark class flips; the current and the stored theme both become the name of the new state |
| Portal.ToggleTwice | frontend/js/script.js:36-48 | toggling twice restores the dark class and stores its name, and restores the current theme name when it matched the class |
| Portal.App.constructor | frontend/js/script.js:9-28 | start-up: no session, theme from storage, empty form, no toasts or timers, and the pages as showPage("login-page") leaves them |
| Portal.App.ToggleTheme | frontend/js/script.js:36-48 | the theme state becomes Toggle of the old one; nothing else may change |
| Portal.App.ShowPage | frontend/js/script.js:51-65 | the page array becomes ShownPages of the old one: all pages concealed, then the first page with the given non-empty id shown |
| Portal.App.SwitchRole | frontend/js/script.js:81-104 | the given role's tab becomes the active one and the login form becomes Reconfigure with that role's metadata |
| Portal.App.HandleLogin | frontend/js/script.js:144-168 | with both fields non-empty: session {identifier, active role}, a success toast, the role's dashboard scheduled; otherwise the session is unchanged, an error toast, nothing scheduled |
| Portal.App.HandleLogout | frontend/js/script.js:178-187 | the session is cleared, a "Logged Out" toast is added, and the return to the login page is scheduled |
| Portal.App.RunTimer | frontend/js/script.js:162-186 | the oldest scheduled navigation fires: its dashboard is shown, or the login page is shown with the form fields emptied; no timers means no change |

## Left out

- Store.Database: each handler is one atomic step. The development server started by `app.run` serves requests on several threads, so two handlers can interleave; for instance two `update_section` requests for the same section can leave one request's type with the other's class teacher. The proved properties hold only when requests are handled one at a time.
- Flask routing, `jsonify`, request parsing and `app.run` are framework I/O. Requests are well-formed records with every key present and string values. The `KeyError` on a missing key is not modelled.
- The sample rows in `db_state` and in the `load*Data` functions are not modelled. The constructors take the initial rows, pages, stored theme, active role and login form as parameters.
- The markup templates of the `load*Data` functions and the `lucide.createIcons()` calls are rendering and a foreign library. Only the utilization colour rule is kept.
- Toasts are created but never removed. Their removal after 3 seconds is a timer with no effect on the modelled state.
- Timer delays are abstracted to a queue in scheduling order. Real time and the order of navigation timers relative to toast removal are not modelled.
- `localStorage` is a plain field. Storage errors and values written by other pages are not modelled.
- The Accept and Decline buttons of a swap request have no handler, so there is no behaviour to model.
- The event wiring in `setupThemeToggle`, `setupLoginForm`, `setupTabs` and `setupLogoutButtons` is not modelled; only the handlers it installs are.
- `Portal.App.EnterCredentials` stands for the user typing into the form. It is the browser's part, not the page's code.
- Portal.App.ShowPage: `getElementById` may find an element that is not a `.page-content` page. The model looks the id up among the pages only.
- Tabs.TabGroup.Click: the tab-id lookup may find a non-pane element, and nested tab groups and CSS escaping of the tab id are not modelled. The panes searched are the group's own, and other groups are untouched by the frame of the method rather than by an ensures clause.
- Roles.GetRoleDetails: keys inherited from JavaScript's object prototype (such as "constructor") do not return undefined in the original. The model returns None for every key other than the three roles.
- Portal.App.HandleLogin: the role tabs' `active` classes are abstracted to the single field `activeRole`. The case where no role tab is active, which throws in the original, is not modelled. Form fields are strings; a missing field read as null is not modelled.
- Rooms.UtilizationBucket: utilization is a real number; NaN and non-numeric values of a JavaScript number are not modelled.
