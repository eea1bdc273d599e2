# Event tracker: a verified model of its core rules

The event tracker is a small web application. Administrators create events. Anyone may join an event with a name, a team and a phone number, up to a capacity of twenty. Signed-in users may leave again, and administrators may remove attendees.

It has four parts:

- a REST server over two PostgreSQL tables, `events` and `attendees`, where an attendee row references its event with `ON DELETE CASCADE`;
- a React client that routes on URL paths, keeps the signed-in user, and holds the event form and the event detail screen;
- a bot that gathers events into named groups by criteria;
- text helpers (trim, lower-casing, `includes`, digits).

This Dafny project models each of those parts as the source writes it:

| module | file | what it models |
|---|---|---|
| `Common` | common.dfy | `Option` (for JavaScript `null`/`undefined`), the order-keeping `filter`, `map`, and a sort by key that orders the rows an `ORDER BY` returns |
| `Text` | text.dfy | ASCII `trim`, `toLowerCase`, `includes`, `startsWith`, the first index of a character, `/^\d+$/`, `x \|\| d` on strings, and decimal digits |
| `UserSession` | user_session.dfy | the user context: permission predicates, plus a `Session` class whose `login`, `logout`, `changePassword` and start-up restore update `user` |
| `Attendance` | attendance.dfy | the event detail screen: the join checks in order, the leave and remove filters, `isUserAttending`, the `formatJoinTime` buckets, and an `EventDetailView` class whose handlers update the screen state |
| `Store` | store.dfy | the database queries: an `EventStore` class holding both tables as sequences of rows plus the id sequence; `updateEvent`'s attendee loop is a `while` loop; NOT NULL failures are an error result |
| `Api` | api.dfy | `validateEventData`, the status code each route answers with, and the HTTPS redirect |
| `Groups` | groups.dfy | the bot's `EventGroupBot` class: a map of groups plus the insertion order of its keys, and the criteria filter |
| `Routing` | routing.dfy | the client's path classification, and a `Navigation` class holding the screen state and the tab's history (a list of paths with a current position) |
| `EventForm` | event_form.dfy | `formatDateForInput` and an `EventFormView` class: loading, field changes, and the submit rules |
| `EndToEnd` | end_to_end.dfy | how the list the client sends after a join is stored by `updateEvent` |

What the client, the server or the bot reads from outside is a parameter of the operation:

- the server's reply and whether a request succeeded;
- the browser's `confirm` answer;
- the current time;
- the events file's contents;
- what `localStorage` held.

The rest of the model works on values.

### Behaviour the proofs bring out

- **Editing through the form clears the capacity.** The form's body never carries `maxAttendees` (`EventForm.PayloadOf`), and the UPDATE writes every column. So saving an edited event sets its capacity to NULL (`EventForm.EditClearsCapacity`).
- **An update with bare-name attendees leaves a partial state.** An attendee list containing a bare-name entry (the old string format) stops the re-insertion at that entry with a database error. The rows inserted before it stay, because the statements are not in a transaction (`Store.EventStore.UpdateEvent`, `EndToEnd.InsertedUpToFirstLegacy`).
- **The detail screen has no path of its own.** The path `showEventDetail` pushes, `/event/<id>`, opens the event list on a reload or a return through the history, and is rewritten to `/` (`Routing.DetailPathNotRestored`).
- **Joining with the untouched form fails for a signed-in user.** Only the name is pre-filled, so such a request is always turned down for the missing team and phone (`Attendance.EmptyFormRejectedForSignedInUser`).

### Where the code and the design description differ (the model follows the code)

- **Join order.**
  - The code gives a new attendee `joinOrder = attendees.length + 1` (frontend/src/components/EventDetail.js:143,153). The design asks for the largest join order plus one, never reused.
  - After a removal, the code therefore repeats a join order that is already taken.
- **`updateEvent` and the attendee list.**
  - The design says `updateEvent` never touches the attendee list.
  - The code deletes and re-inserts the event's attendee rows whenever the body carries an `attendees` array (backend/database.js:185-205). Every client join, leave and removal relies on that.
- **Event list order.** The design lists events by date, soonest first. The query orders them by `created_at` descending (backend/database.js:57).
- **Capacity on creation.**
  - The design has `createEvent` default the capacity to 20. The code stores a missing capacity as NULL.
  - The client reads a missing or zero capacity as 20: `Math.min(maxAttendees || 20, 20)`.
- **`PUT` validation.** The design validates updated fields. `PUT /api/events/:id` validates nothing; a missing NOT NULL column surfaces as a 500.
- **Zero capacity.** A capacity of 0 passes validation, because the range check is guarded by the value being truthy.

## Model

| member | source | states |
|---|---|---|
| Common.Filter | frontend/src/components/EventDetail.js:235 | `filter` keeps exactly the accepted elements, each as often as in the input, in their original order |
| Common.FilterAll | bot/createGroup.js:65-101 | a filter that accepts every element returns its input unchanged |
| Common.MapSeq | bot/createGroup.js:44 | `map` keeps the length and applies the function at every position |
| Common.Insert | backend/database.js:103 | one insertion step of the sort by key keeps every element and adds the new one |
| Common.InsertAscending | backend/database.js:103 | inserting into an ascending sequence keeps it ascending |
| Common.InsertAfterAll | backend/database.js:103 | an element whose key is not below any other goes last; this is how the model's sort places rows, and SQL itself promises no order among equal keys |
| Common.SortBy | backend/database.js:103 | `ORDER BY key ASC`: a permutation of the rows in ascending key order |
| Common.SortBySorted | backend/database.js:103 | rows already in key order come back unchanged |
| Text.Trim | backend/index.js:40 | `trim()` is a blank-bounded infix of the input, without white space at either end, and empty exactly when the input is blank |
| Text.ToLower | bot/createGroup.js:80 | `toLowerCase()` keeps the length and lower-cases each character |
| Text.Includes | bot/createGroup.js:80 | `includes(sub)` holds exactly when `sub` occurs at some position |
| Text.IndexOfChar | frontend/src/components/EventForm.js:10-12 | the first position of the character, or the length when it is absent |
| Text.Or | backend/database.js:142 | `o \|\| d`: a non-empty string wins, and a missing or empty one gives way to `d` |
| Text.NatToString | frontend/src/App.js:207 | a number interpolated into a path is a non-empty run of digits |
| Text.DigitsValueOfNatToString | frontend/src/App.js:36 | the digits written for a number read back as that number |
| UserSession.IsGuest | frontend/src/contexts/UserContext.js:116-118 | being a guest is exactly not being authenticated |
| UserSession.CanView | frontend/src/contexts/UserContext.js:120-122 | everybody may view |
| UserSession.CanJoinEvent | frontend/src/contexts/UserContext.js:124-126 | everybody may join, signed in or not |
| UserSession.CanCreate | frontend/src/contexts/UserContext.js:128-130 | creating is allowed exactly for a user whose role is `admin`, and only when signed in |
| UserSession.CanEdit | frontend/src/contexts/UserContext.js:132-134 | editing is allowed exactly for a user whose role is `admin`, and only when signed in |
| UserSession.CanDelete | frontend/src/contexts/UserContext.js:136-138 | deleting is allowed exactly for a user whose role is `admin`, and only when signed in |
| UserSession.PermissionsAgree | frontend/src/contexts/UserContext.js:108-110 | create, edit and delete permission all equal `isAdmin` |
| UserSession.Session.constructor | frontend/src/contexts/UserContext.js:23-33 | the stored user is restored; unparsable text leaves a guest session |
| UserSession.Session.Login | frontend/src/contexts/UserContext.js:35-73 | a successful reply signs in its user, stamped with the login time; a failed reply keeps the session and answers with the server's message or `Login failed`; a network error keeps the session |
| UserSession.Session.Logout | frontend/src/contexts/UserContext.js:75-78 | afterwards nobody is signed in |
| UserSession.Session.ChangePassword | frontend/src/contexts/UserContext.js:80-106 | without a user nothing is sent and the answer is `Not authenticated`; otherwise the user's id and the new password are sent and the server's answer is passed on |
| Attendance.EffectiveCapacity | frontend/src/components/EventDetail.js:195 | never above 20; exactly 20 for a missing, zero or larger limit; otherwise the limit itself |
| Attendance.PrefillName | frontend/src/components/EventDetail.js:86-94 | the pre-filled name is never empty, and it is `<username> (Admin)` when there is a username |
| Attendance.NewAttendee | frontend/src/components/EventDetail.js:133-155 | name and phone are trimmed and the team is not; join order is count + 1, stamped now; the role is `guest` for a guest and otherwise the user's role or `admin`; a signed-in user's name is never empty |
| Attendance.MissingFields | frontend/src/components/EventDetail.js:159-173 | each empty field is named, in form order, and the list is empty exactly when none is empty |
| Attendance.Join | frontend/src/components/EventDetail.js:116-205 | the join succeeds exactly when all four checks pass; on success it appends one attendee and keeps the earlier entries; the join order is length + 1; the list never exceeds the effective capacity, and unique phones stay unique |
| Attendance.JoinChecksInOrder | frontend/src/components/EventDetail.js:159-200 | each rejection reason holds exactly when its own check is the first to fail, in the order fields, phone format, duplicate phone, capacity; a full event reports the effective capacity |
| Attendance.JoinRejectsMissingFields | frontend/src/components/EventDetail.js:159-173 | an empty required field rejects the join before any other check, naming exactly the empty fields |
| Attendance.TeamNotTrimmed | frontend/src/components/EventDetail.js:139 | a team of only spaces passes the required-field check |
| Attendance.EmptyFormRejectedForSignedInUser | frontend/src/components/EventDetail.js:136-173 | a signed-in user submitting the untouched form is rejected for team and phone |
| Attendance.Leave | frontend/src/components/EventDetail.js:231-247 | leaving keeps exactly the entries it does not match (by phone if the user has one, else by the three names), in order and with their multiplicity |
| Attendance.AttendingIffSomeEntryDropped | frontend/src/components/EventDetail.js:303-321 | for a user with a phone or a username, `isUserAttending` holds exactly when leaving would match some entry |
| Attendance.LeaveEndsAttendance | frontend/src/components/EventDetail.js:221-258 | after leaving, the user is not attending, and every unmatched entry is still there |
| Attendance.LeaveChangesIffAttending | frontend/src/components/EventDetail.js:221-258 | leaving changes the list exactly when the user is attending |
| Attendance.RemoveAttendee | frontend/src/components/EventDetail.js:272-289 | removal keeps exactly the entries that do not match the target, in order; afterwards the target is gone, and for a record target so is its phone |
| Attendance.FormatJoinTime | frontend/src/components/EventDetail.js:340-356 | `Unknown` without a time; `Just now` under a minute; whole minutes under an hour; whole hours under a day; after that the date |
| Attendance.EventDetailView.constructor | frontend/src/components/EventDetail.js:7-16 | the screen starts with the loaded event, an empty form, and the form closed |
| Attendance.EventDetailView.OpenJoinForm | frontend/src/components/EventDetail.js:86-94 | opening the form for a signed-in user without a phone pre-fills the name and nothing else |
| Attendance.EventDetailView.HandleJoinEvent | frontend/src/components/EventDetail.js:116-219 | a rejected join sends nothing and changes nothing; an accepted one sends the event with the longer list; the screen adopts it, closes and clears the form only once the server has stored it |
| Attendance.EventDetailView.HandleLeaveEvent | frontend/src/components/EventDetail.js:221-258 | a guest, or a user who does not confirm, sends nothing; otherwise the list without the user's entries is sent, and it is adopted once stored |
| Attendance.EventDetailView.HandleRemoveAttendee | frontend/src/components/EventDetail.js:260-301 | only a confirmed administrator sends the list without the target, and it is adopted once stored |
| Store.FindEvent | backend/database.js:95-99 | the first row with the id, or the table's length exactly when no row has it |
| Store.RowsOf | backend/database.js:63 | an event's attendee rows are exactly the rows referencing it, each as often as stored |
| Store.AttendeesOf | backend/database.js:102-105 | an event's attendees come back in ascending join order, a permutation of its rows |
| Store.ViewOf | backend/database.js:107-126 | the returned event carries the row's columns and its attendees in join order |
| Store.InsertablePrefix | backend/database.js:190-204 | the number of leading entries that fill every NOT NULL column, up to the first that does not |
| Store.NewRow | backend/database.js:192-203 | an inserted row takes the entry's fields; the role defaults to `guest`, and a missing or zero join order becomes position + 1 |
| Store.NewRows | backend/database.js:190-204 | the rows the loop inserts, one per entry, in order |
| Store.NewRowsNext | backend/database.js:190-204 | one more loop iteration appends exactly that entry's row |
| Store.Overwrite | backend/database.js:163-178 | the UPDATE writes all seven columns from the body, missing values as NULL, refreshes `updated_at` and keeps `id` and `created_at` |
| Store.UpdateRows | backend/database.js:163-178 | the rows with the id are overwritten and every other row is kept |
| Store.ViewsOf | backend/database.js:60-88 | each event row with its attendees, in storage order |
| Store.NewestFirst | backend/database.js:57 | `ORDER BY created_at DESC`: a permutation in non-increasing creation time |
| Store.FilterConcat | backend/database.js:187-204 | filtering distributes over concatenation |
| Store.RowsOfAllMatching | backend/database.js:63 | when every row references the event, the event's rows are all of them |
| Store.RowsOfNoneMatching | backend/database.js:63 | when no row references the event, it has no rows |
| Store.ReplaceRowsOf | backend/database.js:185-205 | after the delete and re-insert, the event's rows are exactly the new rows in order, and every other event keeps its rows |
| Store.FilterOfFilter | backend/database.js:187 | deleting one event's rows leaves every other event's rows unchanged |
| Store.InsertKeepsValid | backend/database.js:130-143 | a new row with the next id keeps ids unique, bounded and referenced; the new event has no attendees and is found at its id |
| Store.UpdateKeepsValid | backend/database.js:163-178 | the UPDATE keeps the tables valid and the same ids present |
| Store.ReplaceKeepsValid | backend/database.js:185-205 | replacing an existing event's rows keeps the foreign key |
| Store.DeleteKeepsValid | backend/database.js:31 | deleting with the cascade keeps the tables valid; it leaves neither the event nor its rows, and other events keep their rows |
| Store.UpdateKeepsIds | backend/database.js:163-178 | overwriting columns keeps the set of ids and their uniqueness |
| Store.EventStore.constructor | backend/database.js:11-36 | both tables start empty, with the id sequence at 1 |
| Store.EventStore.GetEventById | backend/database.js:94-127 | null exactly when no row has the id; otherwise that row with its attendees, in ascending join order |
| Store.EventStore.GetAllEvents | backend/database.js:51-91 | every event once, with its attendees, newest first |
| Store.EventStore.CreateEvent | backend/database.js:130-159 | a new row with the next id and the status defaulting to `planned`, returned with no attendees and found again by id; a body missing a NOT NULL column fails and adds no row |
| Store.EventStore.UpdateEvent | backend/database.js:162-208 | an unknown id returns null and changes nothing; the columns are overwritten; without `attendees` the rows are kept; with them, the event's rows become the entries up to the first one that misses a column, and such an entry gives an error |
| Store.EventStore.ReplaceAttendees | backend/database.js:185-205 | the event's rows are replaced by the insertable prefix of the list, and it succeeds exactly when that prefix is the whole list |
| Store.EventStore.InsertRows | backend/database.js:190-204 | the loop appends one row per entry until an entry misses a NOT NULL column, and returns how many went in |
| Store.EventStore.DeleteEvent | backend/database.js:211-214 | true exactly when the event existed; the event and, by the cascade at backend/database.js:31, its attendee rows are gone, and nothing else changes |
| Api.TrimsToNothing | backend/index.js:40 | `s.trim().length === 0` exactly when `s` is white space only |
| Api.FailingChecks | backend/index.js:37-61 | at most five checks fail |
| Api.FailingChecksExactly | backend/index.js:37-61 | a check is listed exactly when it fails |
| Api.FailingChecksInOrder | backend/index.js:38-60 | failing checks come in the order title, date, time, location, capacity, none twice |
| Api.ValidateEventData | backend/index.js:37-61 | one message per failing check, in order; there are none exactly when title and location are non-blank, date and time are non-empty, and the capacity is missing, zero or within 1..1000 |
| Api.MessagesDistinct | backend/index.js:40-58 | different checks have different messages |
| Api.ReportedIffFails | backend/index.js:37-61 | a message is reported exactly when its check fails |
| Api.AcceptedFitsColumns | backend/index.js:115-123 | a body that passes validation fills every NOT NULL column of `events` |
| Api.ZeroCapacityNotChecked | backend/index.js:56-58 | a capacity of 0 produces no range error |
| Api.BlankDateAccepted | backend/index.js:40-50 | a white-space date and time pass validation, while a white-space title is reported |
| Api.ParseId | backend/index.js:100 | the id parameter reads as an integer exactly when it is digits whose value is within PostgreSQL's `integer` range, and then as that value |
| Api.ParseIdOfNatToString | backend/database.js:147 | an id written in decimal reads back as itself |
| Api.GetEventsRoute | backend/index.js:87-95 | 200 with every event, newest first |
| Api.GetEventRoute | backend/index.js:98-109 | 200 with the event exactly when it exists; 404 exactly when the parameter is an integer naming no event; 500 for a non-integer parameter |
| Api.PostEventRoute | backend/index.js:112-130 | invalid bodies get 400 with the messages as details and change nothing; valid ones get 201 with a new event carrying the body's title, date, time, location and `status \|\| 'planned'`; it is stored as one more row under the next id and found again at that id, and every other row of both tables is kept |
| Api.PutEventRoute | backend/index.js:133-148 | 404 exactly for an integer id naming no event, with no change; 200 with the stored event exactly when the body fills the columns and every attendee entry can be inserted; otherwise 500; for an existing event the columns are overwritten and its attendee rows become the insertable prefix of the list, even when a later entry makes the answer 500; a body missing a column changes nothing |
| Api.DeleteEventRoute | backend/index.js:151-164 | 404 exactly when the event did not exist; otherwise the confirmation; afterwards no event has the id, and the event's row and its attendee rows are all that is gone |
| Api.ForceHttps | backend/index.js:13-15 | a 301 to `https://` + host + url exactly in production when the forwarded protocol is not `https` |
| Groups.Accepts | bot/createGroup.js:65-101 | an event is kept exactly when it meets every truthy criterion: date range, equal status, location and keyword contained (case ignored), and minimum attendees |
| Groups.FilterEventsByCriteria | bot/createGroup.js:64-102 | exactly the accepted events, each as often as in the input, in their original order |
| Groups.NoCriteriaKeepsAll | bot/createGroup.js:65-101 | with no truthy criterion every event is kept, in order |
| Groups.ToLowerIdempotent | bot/createGroup.js:80 | lower-casing twice is lower-casing once |
| Groups.CriteriaIgnoreCase | bot/createGroup.js:80-89 | location and keyword criteria select the same events as their lower-cased forms |
| Groups.IndexOf | bot/createGroup.js:142 | `indexOf`: -1 exactly when absent, otherwise the first position holding the id |
| Groups.RemoveFirst | bot/createGroup.js:144 | `splice(indexOf(x), 1)` removes one occurrence of the id, and nothing when it is absent |
| Groups.RemoveFirstSplits | bot/createGroup.js:142-144 | the removed occurrence is the first one; putting it back at that position restores the list |
| Groups.RemoveAfterAppend | bot/createGroup.js:122-145 | removing an id just added to a list that lacked it restores the list |
| Groups.ReplaceGroupKeepsValid | bot/createGroup.js:145 | a group replaced with the same id and an up-to-date count keeps the collection valid |
| Groups.DeleteGroupKeepsValid | bot/createGroup.js:196 | deleting a key from the map and from the key order keeps them in step |
| Groups.EventGroupBot.constructor | bot/createGroup.js:8-10 | the bot starts with no groups |
| Groups.EventGroupBot.GetGroup | bot/createGroup.js:105-107 | the group stored under the id, or nothing |
| Groups.EventGroupBot.ListGroups | bot/createGroup.js:110-112 | every group once, in insertion order |
| Groups.EventGroupBot.CreateGroup | bot/createGroup.js:35-61 | the new group holds the filtered ids in order and their count, and is stored under its id; a new id goes last in the order |
| Groups.EventGroupBot.AddEventToGroup | bot/createGroup.js:115-132 | false with no change when the group is missing or already has the id; otherwise the id is appended and counted |
| Groups.EventGroupBot.RemoveEventFromGroup | bot/createGroup.js:135-153 | false with no change when the group or the id is absent; otherwise the first occurrence is cut out and the count updated |
| Groups.EventGroupBot.GetGroupEvents | bot/createGroup.js:156-165 | the events whose ids the group holds, each as often as in the file, in file order; nothing for a missing group |
| Groups.EventGroupBot.UpdateGroupCriteria | bot/createGroup.js:168-186 | false with no change for a missing group; otherwise the new criteria, exactly the newly filtered ids, and their count |
| Groups.EventGroupBot.DeleteGroup | bot/createGroup.js:189-199 | true exactly when the group existed; only that key is removed and every other group is unchanged |
| Routing.InitialView | frontend/src/App.js:18-64 | `/login` and `/create` open their screens; a `/edit/` path with a digit suffix opens the editor; everything else opens the list, and no path opens the detail screen |
| Routing.RedirectsHome | frontend/src/App.js:33-63 | the current entry is rewritten to `/` exactly when the path leads to the list without being `/` |
| Routing.InitialEventIds | frontend/src/App.js:67-83 | only a valid edit path carries an editing id, and it is the path's own suffix; the viewing id is always null |
| Routing.EditPathRoundTrip | frontend/src/App.js:197-207 | the path `showEditEvent` pushes for a digit id opens the editor for that same id again |
| Routing.EditPathOfNumericId | frontend/src/App.js:207 | every numeric event id round-trips through its edit path |
| Routing.DetailPathNotRestored | frontend/src/App.js:47-54 | the path `showEventDetail` pushes opens the list and is rewritten to `/` |
| Routing.Navigation.constructor | frontend/src/App.js:85-90 | the first render's screen and ids are what the loaded path opens, and the entry is rewritten to `/` when needed |
| Routing.Navigation.PushState | frontend/src/App.js:179 | `pushState` drops the forward entries, appends the path, and makes it current |
| Routing.Navigation.HandlePopState | frontend/src/App.js:111-158 | after a history move, the screen, the ids and the rewrite are those of a fresh load of the entry's path |
| Routing.Navigation.Traverse | frontend/src/App.js:111-158 | moving to any history entry restores what that entry's path opens |
| Routing.Navigation.ShowEvents | frontend/src/App.js:172-181 | the list with both ids cleared, and `/` pushed |
| Routing.Navigation.ShowLogin | frontend/src/App.js:183-188 | the login screen with `/login` pushed; the ids are kept |
| Routing.Navigation.ShowCreateEvent | frontend/src/App.js:190-195 | the create screen with `/create` pushed; the ids are kept |
| Routing.Navigation.ShowEditEvent | frontend/src/App.js:197-208 | the editor for the id with `/edit/<id>` pushed; for a digit id the state is what that path reopens |
| Routing.Navigation.ShowEventDetail | frontend/src/App.js:210-216 | the detail screen with `/event/<id>` pushed; the editing id is kept; the pushed path does not reopen this screen |
| EventForm.FormatDateForInput | frontend/src/components/EventForm.js:6-17 | empty for a missing or empty value; otherwise a prefix of the input without any `T`, ending just before the first `T` if there is one, and the whole input if not |
| EventForm.FormatDateIdempotent | frontend/src/components/EventForm.js:6-17 | cutting an already cut date changes nothing |
| EventForm.WithField | frontend/src/components/EventForm.js:118-124 | the named input takes the value and the others are kept |
| EventForm.FormFromEvent | frontend/src/components/EventForm.js:72-79 | missing text becomes empty, a missing status becomes `planned`, and the date is `formatDateForInput` of the fetched date, so it carries no `T` |
| EventForm.PayloadOf | frontend/src/components/EventForm.js:141-148 | the body has exactly the six inputs, no capacity and no attendees, and fills the NOT NULL columns |
| EventForm.FormPayloadAccepted | frontend/src/components/EventForm.js:141-148 | the server accepts a submitted form exactly when title and location are non-blank and date and time are non-empty |
| EventForm.EditClearsCapacity | frontend/src/components/EventForm.js:154-156 | saving an edit through the form sets the event's capacity to NULL |
| EventForm.EventFormView.constructor | frontend/src/components/EventForm.js:30-41 | an empty form with status `planned`, no messages, and a count of zero |
| EventForm.EventFormView.HasPermission | frontend/src/components/EventForm.js:46 | edit permission when editing, create permission otherwise: both are exactly being an administrator |
| EventForm.EventFormView.LoadData | frontend/src/components/EventForm.js:59-106 | an editing form takes the fetched event, or the load error; a creating form takes the event count, or zero on failure |
| EventForm.EventFormView.HandleChange | frontend/src/components/EventForm.js:118-124 | one input changes and the rest of the state does not |
| EventForm.EventFormView.HandleSubmit | frontend/src/components/EventForm.js:126-180 | a fourth creation is refused before anything is sent; otherwise the six inputs go out as an update or a create, and the reply sets the success or error message |
| EndToEnd.ToInput | frontend/src/components/EventDetail.js:202-207 | a record entry reaches the server with all its fields; a bare-name entry has none to fill a column with |
| EndToEnd.ToPayload | frontend/src/components/EventDetail.js:202-207 | the update body is the held event with the new list |
| EndToEnd.InsertedUpToFirstLegacy | backend/database.js:190-204 | the server inserts a client list up to its first bare-name entry |
| EndToEnd.JoinStoredWhole | backend/database.js:185-205 | after a successful join on a list of records, the whole list is stored, and the new row keeps join order length + 1 |

## Left out

- Store.AttendeesOf: SQL leaves attendees with equal join orders in no fixed order, and such ties occur, since join order is the list length + 1. The model returns tied rows in storage order, and `Store.ViewOf` and `Store.EventStore.GetEventById` inherit that choice.
- Text.Trim, Text.ToLower and Attendance.IsValidPhone use ASCII white space and ASCII case only. JavaScript's `trim`, `\s` and `toLowerCase` are Unicode-aware. So a title of a single no-break space is rejected by the server but accepted by `Api.ValidateEventData`; a phone containing a no-break space passes the client's pattern but not the model's; and a bot criterion `zürich` matches a location `ZÜRICH` in the source but not in `Groups.Accepts`.
- Network, storage and dialogs are not modelled. These are `fetch` and axios requests, `localStorage` writes, `alert`, `console` logging and the React rendering. Server replies, the `confirm` answer, the time and the stored user text are parameters.
- The detail screen's timers are not modelled. These are auto-sync every 10 s and the live clock every 30 s. They are timing and concurrency, as are two clients racing on the whole-list update; each operation is one sequential step.
- The event detail screen's `loadEvent` and `handleDelete` are not modelled, nor the rest of the client: the list, the header, the footer, the login screen and the HTTP service wrapper.
- The server's header middleware, static file serving, `/api/status`, `/api/db-integrity` and start-up are not modelled.
- The connection pool, the SQL text and the `initializeDatabase` statements are not modelled. The tables' NOT NULL and cascade rules are modelled; column types, `VARCHAR` lengths and the `attendee_count` column of the list query are not.
- Event and attendee ids are integers; the server returns event ids as strings, which the model does not capture. Dates and times are strings or millisecond integers. Time zones, `Date` parsing and locale formatting are not modelled. The date label of `formatJoinTime` is left to the browser, so `Attendance.LabelText` gives no text for it.
- `GET /api/events` answers 500 when the database fails. That failure, and any other failure of the database itself, is not modelled.
- Api.ParseId: PostgreSQL also accepts a sign and surrounding white space in an integer parameter; the model reads digits only, and treats anything else as the query error.
- A request body whose fields are not strings is not modelled. On the server a non-string title makes `trim` throw, which the model does not represent.
- The bot's file reading and writing, its `Date.now()` group ids, `main` and its logging are not modelled. The events and the timestamps are parameters, so `createGroup`'s null result on a failed read is not modelled either.
- The bot's event dates and criteria dates are timestamps the caller has already parsed. An event without a title, a description or an attendee list, which would throw in `filterEventsByCriteria`, is not modelled.
- Groups are values in the bot's map, so the aliasing of a group object a caller still holds is not modelled.
- Routing.Navigation.ShowEditEvent: the id is the text the path is built from; an id passed as a number is represented by its decimal digits.
- EventForm.EventFormView.HandleChange: only the six inputs of the form; an input with any other `name` would add a field and is not modelled.
- The `confirm` prompts carry the event title and the attendee name; only the answer is modelled.
