# Toolbox Talk meeting record — a Dafny model

The Toolbox Talk app is a single Streamlit page for recording a site safety
meeting. An admin opens a *room* under a room code, listing the team members
as a comma-separated text. Members are meant to join with the code and a
listed name (see "## Findings"). Inside the room, every page run records
the user as an attendee. The admin edits the meeting info (date, place,
time, work), adds discussion items (risk and measure) and action items
(person, duty, deadline), and writes free-text notes. Everyone can confirm
that they reviewed the record. The admin sees a signature overview.

This project pulls that shared state out of the widget calls and models it
as pure functions over immutable values:

- `Text` (`text.dfy`): Python's `str.split(",")`, `str.strip()` (with
  Python's whitespace set) and `",".join`, and the member-list parser built
  from them.
- `Rooms` (`rooms.dfy`): the `Room` record and its updates: attendance, info
  and notes overwrite, guarded appends of discussion and action items,
  idempotent confirmation, and the confirmation summary.
- `RoomStore` (`store.dfy`): the `map<string, Room>` of rooms keyed by code,
  with room creation (which overwrites), lookup and the join check.
- `Sessions` (`session.dfy`): login as admin or member, and one page run
  of a logged-in user. A run records attendance first, then applies at most
  one form action; admin-only sections are ignored for members. It also
  proves the room invariant these runs keep: no duplicate attendees or
  signers, and every signer is an attendee.
- `Browser` (`browser.dfy`): one browser session as the script actually
  keeps it, with a room table of its own. It shows that a member can never
  log in (see "## Findings").
- `Wrappers` (`wrappers.dfy`): `Option` and `Result`.

Notes on following the code:

- The admin's summary shows `len(confirmations) / len(members)`. That count
  is not limited to members. An admin who is not on the member list and
  confirms is counted, even though no member is ticked. The model keeps the
  code's count. `Rooms.SummaryCountsNonMembers` exhibits the difference.
  `Rooms.SummaryCountMatchesTicks` gives the conditions under which the
  count equals the number of ticked members.
- Attendees and confirmations are Python lists guarded by a membership
  test, so they are modelled as sequences without duplicates, kept in
  insertion order.
- The script keeps its room table in `st.session_state`, which Streamlit
  keeps per browser session. Each visitor therefore has a table of their
  own, and a member's join check always runs against an empty table.
  `Browser` models that. Everything else treats the table as one store
  shared by all visitors, which is evidently what was intended.

## Model

| member | source | states |
|---|---|---|
| Text.Strip | streamlit_meeting_form.py:29 | `strip()` returns the slice of its input that starts after the leading whitespace and stops before the trailing whitespace. The result neither starts nor ends with whitespace, and it is empty iff the input is all whitespace. |
| Text.StripKeepsChars | streamlit_meeting_form.py:29 | Stripping introduces no character, so a stripped field has no comma. |
| Text.StripOfPadded | streamlit_meeting_form.py:29 | Stripping `a + t + b`, with `a` and `b` whitespace and `t` free of edge whitespace, gives exactly `t`. So the contract of `Strip` determines its result. |
| Text.StripIdempotent | streamlit_meeting_form.py:29 | Stripping an already stripped name changes nothing. |
| Text.Split | streamlit_meeting_form.py:29 | `split(",")` yields one field more than the text has commas, empty fields included. No field contains a comma. |
| Text.JoinSplit | streamlit_meeting_form.py:29 | Joining the fields of `split(",")` with commas gives back the original text. |
| Text.SplitJoin | streamlit_meeting_form.py:29 | Splitting a comma-joined list of comma-free fields gives back the fields. |
| Text.ParseMembers | streamlit_meeting_form.py:29 | The member list has one entry per comma-separated field, in order. Each entry is its field stripped, contains no comma and has no edge whitespace. |
| Text.ParseJoined | streamlit_meeting_form.py:29 | A list of clean names written as "a,b,c" parses back to the same list. |
| Text.ParsePaddedJoin | streamlit_meeting_form.py:29 | Whitespace around each name in the text does not change the parsed list. |
| Text.MemberOfParsed | streamlit_meeting_form.py:29 | A name is in the parsed list iff some comma-separated field strips to it. |
| RoomStore.CreateRoom | streamlit_meeting_form.py:27-36 | After creation the code is present, with the given admin, the parsed members, empty attendee, confirmation, discussion and task lists, no info and empty notes. Other codes keep their rooms and no code disappears. |
| RoomStore.CreateOverwrites | streamlit_meeting_form.py:27-36 | Creating at an existing code discards the earlier room entirely. |
| RoomStore.GetRoom | streamlit_meeting_form.py:56 | A lookup finds a room iff the code is a key, and then returns that room. |
| RoomStore.JoinRoom | streamlit_meeting_form.py:44-51 | A join succeeds iff the code exists and the name is in that room's members. On success it yields the stored room; otherwise it yields the single authorization error. |
| RoomStore.JoinAfterCreate | streamlit_meeting_form.py:27-51 | Right after creation, a name can join iff it is one of the stripped fields of the admin's member text. |
| Rooms.RecordAttendance | streamlit_meeting_form.py:61-62 | Afterwards the user is an attendee. The list only grows, by at most the user. An already-present user changes nothing. The user's count becomes 1 if absent. No duplicates are introduced. No other field changes. |
| Rooms.AttendTimesOnce | streamlit_meeting_form.py:61-62 | After any positive number of visits by one user, that user is listed exactly once. The earlier list is kept as a prefix. |
| Rooms.SetInfo | streamlit_meeting_form.py:76 | The meeting info is replaced wholesale by the submitted record. Nothing else changes. |
| Rooms.SetNotes | streamlit_meeting_form.py:100 | The notes are replaced by the submitted text. Nothing else changes. |
| Rooms.SetInfoLastWins | streamlit_meeting_form.py:76 | Two info submissions in a row leave only the second; nothing of the first is merged in. |
| Rooms.SetNotesLastWins | streamlit_meeting_form.py:100 | Two notes submissions in a row leave only the second text. |
| Rooms.AddDiscussion | streamlit_meeting_form.py:91-92 | The discussion grows by one item iff risk and measure are both non-empty, and that item is `(risk, measure)`. Earlier items are kept. No other field changes. |
| Rooms.AddTask | streamlit_meeting_form.py:111-112 | The tasks grow by one item iff person and duty are both non-empty, whatever the deadline. The new item is `(person, duty, deadline)`. Earlier items are kept. No other field changes. |
| Rooms.Confirm | streamlit_meeting_form.py:119-124 | The section shows "already confirmed" iff the user had signed, and then nothing changes. Otherwise the button signs the user by appending them. Confirmations never shrink. No duplicates are introduced. No other field changes. |
| Rooms.ConfirmTimesOnce | streamlit_meeting_form.py:119-124 | Over n ≥ 1 runs of the confirmation section by one user, the user is signed exactly once. The first run signs them and every later run shows "already confirmed". |
| Rooms.Statuses | streamlit_meeting_form.py:129-131 | There is one flag per member, in member order. Flag i is true iff member i has confirmed. |
| Rooms.ConfirmationSummary | streamlit_meeting_form.py:128-131 | The shown count is the number of confirmations and the total is the number of members. The per-member flags line up with the members. |
| Rooms.SummaryCountMatchesTicks | streamlit_meeting_form.py:128-131 | If members and signers have no repeats and only members sign, the shown count equals the number of ticked members. |
| Rooms.SummaryCountsNonMembers | streamlit_meeting_form.py:128-131 | An admin outside the member list who confirms is counted: 1 of 2 is shown while no member is ticked. |
| Sessions.Login | streamlit_meeting_form.py:24-51 | An admin always gets in, and the store becomes the store after room creation. A member gets in iff the join check passes, and the store is unchanged either way. A success yields the session (name, role, code) for an existing code. |
| Sessions.Perform | streamlit_meeting_form.py:68-124 | Each action takes effect: a visit changes nothing, confirming leaves the user signed (appended if new, and changing nothing if they had already signed), and for an admin the info and notes become the submitted values and a discussion or action item is appended exactly when its guarded fields are filled in. A form action never changes admin, members or attendees, and never shrinks confirmations, discussion or tasks. Only the acting user can be added as signer. For a member it leaves info, notes, discussion and tasks unchanged. Every other section is left alone: only confirming changes confirmations, and each admin action changes only its own section. |
| Sessions.Act | streamlit_meeting_form.py:55-124 | A page run records attendance, adding at most the user to the attendees, and then the action takes effect on the session's room, with the same per-action results as `Perform`; a confirm by a user who has already signed leaves the signers as they were. It changes only that room and keeps the set of codes. The user ends up an attendee. Attendees, confirmations, discussion and tasks only grow. Admin and members are fixed. A member leaves the admin's sections untouched. Only confirming changes confirmations, and each admin action changes only its own section; attendance is the only other change. |
| Sessions.LoginPreservesConsistency | streamlit_meeting_form.py:24-51 | Logging in keeps every room free of duplicate attendees and signers, with every signer an attendee. |
| Sessions.ActPreservesConsistency | streamlit_meeting_form.py:61-124 | One page run keeps that invariant in every room. |
| Sessions.RunPreserves | streamlit_meeting_form.py:55-124 | Any sequence of page runs by one session keeps the invariant and leaves other rooms alone. The session room's lists only grow. A member never changes the admin's sections. |
| Sessions.KimOpensA1 | streamlit_meeting_form.py:27-36 | Admin Kim opening A1 with "Kim,Park,Lee" yields exactly one fresh room with those three members. |
| Sessions.A1Joins | streamlit_meeting_form.py:44-51 | In that room Park may join and Choi may not; the member login leaves the store as it was. |
| Browser.Step | streamlit_meeting_form.py:10-62 | Logged out, a page run does nothing unless the login button is pressed, and a press succeeds exactly when `Login` does, leaving the page unchanged on failure. Logged in, the session never changes and each run is a room run. Each run keeps `AsWritten`: logged out means an empty table, logged in means an admin with a room. |
| Browser.ReplayKeepsAsWritten | streamlit_meeting_form.py:10-62 | Any sequence of page runs in one browser session keeps `AsWritten`. |
| Browser.MemberNeverJoins | streamlit_meeting_form.py:10-51 | From a fresh browser session, no sequence of runs ends logged in as a member, and a member's login press is always refused. |
| Browser.ParkRefusedInOwnBrowser | streamlit_meeting_form.py:10-51 | Park's join press in a fresh browser session is refused, while Kim's admin login in another one succeeds. |
| Browser.MemberJoinsSharedTable | streamlit_meeting_form.py:24-51 | With one shared table, after the admin opens a room a member may join it iff their name is one of the stripped fields of the admin's member list. |
| Sessions.A1Meeting | streamlit_meeting_form.py:55-131 | The admin's info and discussion item are stored as entered. Park's confirmation is the only signature and shows as 1 of 3. |

## Left out

- Streamlit widgets, layout, headers and the `st.experimental_rerun` / `st.stop` calls (lines 6, 19-22, 41, 49, 52). The `logged_in` flag and the per-session table are modelled in `Browser`; the rest of the model uses only the create and join transitions. Because the rerun right after a successful login (lines 41, 49) is not modelled, a `Browser` page just logged in holds a user who is not yet an attendee and, for an admin, a room with no info. The script never shows that state: its rerun at once records attendance (line 62) and writes the info (line 76). In the model, both wait for the next page run.
- The rendering of each section as markdown, including the member view of the meeting info (lines 78-80, 84, 94-95, 102, 114-115). These lines only display room fields that the model exposes directly.
- The HTML print preview (lines 134-154). It is presentation only and reads the room without changing it.
- Clock and timezone (`datetime.now` with the Asia/Seoul zone, lines 7 and 59, and the form defaults at lines 71, 74 and 110). Dates, times and deadlines are strings passed in.
- Widget default values (the sample member list, place and work description). They are inputs, not behaviour.
- Sessions.Act: an admin's page run in the script rewrites the info and the notes with the form's current values on every run, and at most one button fires. The model splits that into separate actions, one per run. A run that submits the unchanged form values is the same as a `View`. One consequence: the script writes the info on every admin run, including the run right after login, so once the admin has opened the room its info is never empty. An admin `View` on a new room keeps `info` as `None`, a state the script does not reach.
- Role trust: the role is whatever the login form declares, and nothing checks it further. Concurrency and locking are also left out, since the script has none.
- RoomStore.GetRoom: the script indexes the table directly (line 56) and would raise on a missing code. The model returns `None`, and `Act` requires the session's code to be present. `Login` establishes that, and no operation removes a code.

## Findings

| source | as written | input that shows it | evidently intended | confidence | as-written member | corrected member |
|---|---|---|---|---|---|---|
| streamlit_meeting_form.py:10-15 | The room table is created in `st.session_state`, which is per browser session. The only write (line 27) is immediately followed by logging in as admin (line 40), and there is no logout. So a logged-out session always has an empty table, and the member check at line 44 always fails. | Kim opens room A1 listing Park; Park, in a browser of their own, enters "Park" and "A1" and presses the join button: it is refused. | One room table shared by all browser sessions, so listed members can join. | medium, not executed | Browser.MemberNeverJoins | Browser.MemberJoinsSharedTable |
