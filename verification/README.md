# Room booking: availability, selection and admission

A Telegram web app for reserving shared rooms (a tennis room and three
"боталки") for a time window on a given day. The page (`app/static/script.js`)
marks each room busy or free for the chosen interval, keeps one selected
room, draws the selected room's day timeline and checks a request before
sending it. The server (`app/main.py`) authenticates the caller from the
Telegram init data and admits a booking only after a fixed chain of guards:
not in the past, not more than seven days ahead, end after start, at least
15 minutes, at most 4 hours, fewer than two active bookings, and the room
free. The store (`app/crud.py`) holds users and bookings and answers the
queries behind these checks.

The model:

- `Clock` — instants, "HH:MM" clock strings and the local/UTC mapping.
- `Overlap` — the half-open conflict test that the page and the store share.
- `Availability` — the page's busy/free classification.
- `Timeline` — the timeline segments.
- `Validator` — the submit checks.
- `Page` — the page state and its event handlers, as a class.
- `Store` — the store queries, plus a class for the three operations that change the store.
- `Api` — the endpoints.
- `Agreement` — lemmas about how the page's advisory checks relate to the server's.

Three scenario methods in `Page` run a selection through the handlers:

- `SelectionScenario` builds the page and loads a booking of room A from 11:00 to 12:00.
- `SelectAtTen` selects room A, which is free from 10:00 to 10:15.
- `MoveStartPastBooking` then moves the start into the booking. The selection is dropped with a warning.

The page keeps the timeline it last drew in a field. Only the handlers that redraw it change it, so clearing the date leaves the old timeline on screen.

Where the code falls short of the invariants the page is meant to keep, the model follows the code:

- **Busy selection.** A selected room should never stay selected once it is busy. The code clears it only in the start-time handler (`script.js:230-239`). The end-time handler (`script.js:321-324`) and the date refresh (`script.js:85-94`) re-mark the rooms but keep a busy selection. The submit check (`script.js:259-263`) is what stops such a request. `HandleEndTimeChange` and `RefreshDayBookings` state this behaviour.
- **Default end near midnight.** The defaults should never make the start equal to or later than the end. From 23:45 on, the clamp to 23:59 makes the default end less than 15 minutes after the start, and at 23:59 it equals the start (`Page.LateDefaultEndTooShort`).
- **Four-hour cap.** The 4-hour maximum is only the end input's offered bound on the page. The submit handler never refuses a longer request. The server does (`Agreement.FourHourCapOnlyOnServer`). Whether the browser's own check of the input's `max` blocks the submit first depends on `index.html`, which is not part of this model.
- **Overnight bookings on the timeline.** A slot is placed by its wall-clock minutes alone. For a booking from 23:00 to 01:00 the next day the page computes a negative width (`Timeline.OvernightSlotRunsBackwards`), which a browser would not accept as a CSS width.

## Model

| member | source | states |
|---|---|---|
| Clock.TimeToMinutes | app/static/script.js:50-53 | the minute of the day of an "HH:MM" string is in 0..1439; its hours and minutes are the two digit pairs |
| Clock.FormatClock | app/static/script.js:213-215 | zero-padded "HH:MM" of a minute of the day is a clock string that reads back as that minute |
| Clock.ClockStringRoundTrip | app/static/script.js:50-53 | every clock string is the formatting of its own minute value, so parsing is one-to-one |
| Clock.NineOClock | app/static/script.js:50-53 | "09:00" is minute 540 |
| Clock.DayStart | app/crud.py:22-23 | the start of a UTC day is a whole multiple of 86400 seconds, and dividing it back gives the day |
| Clock.LocalMinuteOf | app/static/script.js:165-168 | the local hours*60+minutes of any instant is in 0..1439 |
| Clock.LocalToInstant | app/static/script.js:141-142 | the instant of a local (date, time) reads back as that day and that minute, at zero seconds, for every day and zone |
| Overlap.Conflicts | app/static/script.js:149 | for non-empty intervals, a conflict means the later start comes before the earlier end, so the intervals intersect |
| Overlap.ConflictsSymmetric | app/static/script.js:149 | the conflict test does not depend on the order of the two intervals |
| Overlap.TouchingIsNotConflict | app/static/script.js:149 | back-to-back intervals do not conflict, in either order |
| Overlap.ConflictsIffCommonInstant | app/crud.py:33-34 | two non-empty half-open intervals conflict iff some instant lies in both |
| Availability.RoomBookings | app/static/script.js:145 | the filter keeps exactly the bookings of that room, each no more often than in the snapshot |
| Availability.AnyConflict | app/static/script.js:146-150 | true iff some booking of the list conflicts with the candidate |
| Availability.RoomBusy | app/static/script.js:145-150 | a room is busy iff one of its bookings in the snapshot conflicts with the candidate |
| Availability.Mark | app/static/script.js:143-153 | after classification each rendered room is marked exactly RoomBusy, and no other mark changes |
| Availability.EmptySnapshotAllFree | app/static/script.js:143-153 | with no bookings for the day every room is marked free |
| Availability.NineToTenBooking | app/static/script.js:146-150 | a 09:00-10:00 booking makes the room busy at 09:10-09:20 and free at 10:00-10:30 |
| Timeline.SlotOf | app/static/script.js:164-185 | a booking's slot starts at its local start minute (0..1439) and ends at its local end minute |
| Timeline.SlotOfLocalTimes | app/static/script.js:167-176 | a booking typed as local times sm and em is drawn at sm/1440 with width (em-sm)/1440, on whatever days and in whatever zone |
| Timeline.Slots | app/static/script.js:164-186 | one slot per booking, in snapshot order |
| Timeline.Project | app/static/script.js:156-196 | hidden iff no room is selected or no date is set; otherwise the slots of the selected room's bookings, then the user's overlay iff both times are set |
| Timeline.OnlySelectedRoomShown | app/static/script.js:163-186 | every booking slot shown belongs to the selected room, and the only other segment is the overlay, shown last |
| Timeline.NineToTenSlot | app/static/script.js:167-176 | a 09:00-10:00 booking is drawn at 540/1440 with width 60/1440, in any zone |
| Timeline.OvernightSlotRunsBackwards | app/static/script.js:165-176 | for a booking from 23:00 to 01:00 the next day the page computes offset 1380/1440 and a negative width of -1320/1440 |
| Validator.ValidateSubmission | app/static/script.js:253-281 | each rejection happens exactly when its check is the first to fail; success exactly when all pass and the date and times are set; the request carries the room, a duration of the minute difference, the typed local times on the chosen local day, the room number, and an absent reason for "" |
| Validator.IsRoomNumber | app/static/script.js:269-270 | a room number is three or four ASCII digits, so it reads as a decimal number below 10000 |
| Validator.TooShortInputs | app/static/script.js:264 | an empty time input never fails the 15-minute check, since the NaN difference compares false |
| Validator.NoUpperBoundAtSubmission | app/static/script.js:264-274 | a request longer than 240 minutes passes the submit handler's checks |
| Validator.SubmissionBoundaries | app/static/script.js:264-274 | 15 minutes passes and 10 minutes fails the length check; "1234" is a room number, "12" and "12345" are not |
| Page.DefaultEnd | app/static/script.js:205-211 | the default end is start+15, or 23:59 when that would pass midnight; never before the start |
| Page.MaxEnd | app/static/script.js:218-222 | the offered maximum end is start+240, or 23:59 when that would pass midnight; at most 240 minutes after the start |
| Page.LateDefaultEndTooShort | app/static/script.js:206-211 | from 23:45 on the default end is 23:59, less than 15 minutes after the start, and the submit check refuses it |
| Page.BookingPage.Candidate | app/static/script.js:140-142 | the candidate interval exists iff the date and both times are set; its ends are the typed local times on the chosen local day |
| Page.BookingPage.constructor | app/static/script.js:386-399 | start-up state: today's date, the current time as start, empty end, nothing selected, no timeline |
| Page.BookingPage.UpdateRoomsVisualState | app/static/script.js:139-154 | with date and times set, the marks become the classification of every room (see Mark); otherwise unchanged |
| Page.BookingPage.HandleTimeChange | app/static/script.js:199-241 | default end when the end is empty or before the start; end bounds [start, MaxEnd]; rooms re-marked; warns and clears the selection iff the selected room is now busy; afterwards no busy room is selected; the timeline is redrawn; with no start nothing changes |
| Page.BookingPage.HandleEndTimeChange | app/static/script.js:321-324 | re-marks the rooms, redraws the timeline and keeps the selection |
| Page.BookingPage.HandleRoomClick | app/static/script.js:243-251 | a click on a free room selects it and redraws the timeline; a click on a busy room or outside the rooms changes nothing |
| Page.BookingPage.RefreshDayBookings | app/static/script.js:85-94 | without a date or on a failed fetch nothing changes; otherwise the snapshot is replaced, the rooms re-marked and the timeline redrawn |
| Page.BookingPage.HandleDateChange | app/static/script.js:319 | the new date, then the refresh for it; the selection is kept; clearing the date leaves the marks and the timeline as they were |
| Page.BookingPage.HandleFormSubmit | app/static/script.js:253-299 | the verdict is ValidateSubmission of the current state; a refused or failed submission changes nothing; an accepted one re-marks the rooms for the submitted interval against the refetched bookings, then resets to today with empty times, no selection and a hidden timeline; the offered end bounds never change |
| Page.BookingPage.ResetAfterBooking | app/static/script.js:287-294 | the refetched bookings replace the snapshot and the rooms are re-marked for the submitted interval; then the date is today, the times are empty, nothing is selected and the timeline is hidden |
| Page.SelectAtTen | app/static/script.js:199-251 | with the start at 10:00 and room A booked 11:00-12:00, the end defaults to 10:15, A stays free and a click selects it |
| Store.GetUser | app/crud.py:5-6 | absent iff no user has that id; otherwise a stored user with that id |
| Store.UserBookings | app/crud.py:15-19 | exactly the user's bookings that end after now, each no more often than stored, so the count the server reads is bounded by the stored ones |
| Store.UserBookingsAppend | app/crud.py:15-19 | the active-bookings filter distributes over appending bookings |
| Store.BookingsByDate | app/crud.py:21-28 | exactly the bookings starting in [UTC midnight, next UTC midnight), each no more often than stored |
| Store.Excludes | app/crud.py:36-37 | a booking is left out of the conflict query iff the excluded id is present, non-zero and its own |
| Store.ConflictCount | app/crud.py:31-39 | the count is zero iff no booking matches the conflict query |
| Store.IsRoomAvailable | app/crud.py:30-39 | available iff no booking of the room, other than the excluded one, conflicts with [start, end) |
| Store.ZeroExcludesNothing | app/crud.py:36-37 | excluding id 0 is the same as excluding nothing |
| Store.ExcludeOnlyConflict | app/crud.py:36-37 | excluding the only conflicting booking makes the room available |
| Store.BackToBackAllowed | app/crud.py:33-34 | bookings that only touch the interval leave the room available |
| Store.FindOwned | app/crud.py:49-52 | absent iff no booking has that id and owner; otherwise the position of one that has |
| Store.UserClash | app/models.py:8-9 | true iff a stored user has the same id or the same username |
| Store.BookingStore.CreateUser | app/crud.py:8-13 | the user is added iff neither its id nor its username is taken; otherwise an integrity error and no change |
| Store.BookingStore.CreateBooking | app/crud.py:41-46 | one booking with the request's fields, the owner and a fresh id is appended; nothing else changes |
| Store.BookingStore.DeleteBooking | app/crud.py:48-58 | the booking with that id and owner is removed and returned; absent, and no change, iff there is none |
| Api.GetRooms | app/main.py:84-86 | four distinct rooms, the tennis room first |
| Api.Admit | app/main.py:106-123 | passes iff no guard fails; a refusal names a failing guard with every earlier guard passing |
| Api.AdmitPassIff | app/main.py:106-123 | admitted iff now <= start <= now+7 days, 15 min <= length <= 4 h, fewer than 2 active bookings, and the room free |
| Api.FourHourCapEnforced | app/main.py:115-116 | a request within the date window but longer than 4 hours is refused as too long |
| Api.AdmitKeepsNoDoubleBooking | app/main.py:122-125 | adding an admitted booking keeps every room free of conflicting bookings |
| Api.AdmitKeepsActiveCap | app/main.py:118-125 | after an admitted booking the user has at most 2 active bookings |
| Api.RemoveKeepsNoDoubleBooking | app/main.py:133 | removing a booking keeps every room free of conflicting bookings |
| Api.CreateBooking | app/main.py:100-125 | 400 with the first failing guard's message and no change; otherwise the created booking is appended; no double booking and the active cap are preserved |
| Api.DeleteBooking | app/main.py:127-136 | 404 iff the caller owns no booking with that id; otherwise exactly one such booking is removed and the others stay in order; no double booking is preserved |
| Api.DefaultUsername | app/main.py:75 | the default username starts with "user_" |
| Api.DefaultUsernameInjective | app/main.py:75 | different ids never get the same default username |
| Api.GetUserFromWebAppData | app/main.py:64-82 | 401 without init data, 403 when it does not validate, the stored user when known, otherwise the new user added (500 on a clash) |
| Decimal.ShowNat | app/main.py:75 | a natural number is written as at least one decimal digit |
| Decimal.ReadShowNat | app/main.py:75 | the decimal writing of a natural number reads back as that number |
| Decimal.ShowInt | app/main.py:75 | the writing of an integer starts with '-' iff it is negative |
| Decimal.ShowIntInjective | app/main.py:75 | different integers are written differently |
| Agreement.BusyIffUnavailable | app/crud.py:30-39 | on the same bookings the page's busy mark is exactly the store's "not available" |
| Agreement.BusyImpliesUnavailable | app/static/script.js:145-150 | when every booking the page holds is stored, a room the page calls busy is one the server refuses |
| Agreement.SnapshotMissesOvernightBooking | app/crud.py:21-28 | a booking from 23:00 to 01:00 the day before is missing from the day's snapshot: the page shows the room free at 00:00-00:30 but the server refuses it |
| Agreement.ClientRequestClearsLengthGuards | app/main.py:111-114 | a request the page sends never fails the server's end-after-start or 15-minute guard |
| Agreement.FourHourCapOnlyOnServer | app/main.py:115-116 | a 10:00-15:00 request passes the submit handler's checks and is refused by the server as too long |

## Left out

- Rendering: the room map layout, the DOM classes, the tooltip and its positioning, the contact link, and `renderMyBookings` are left out. The model keeps only the busy/free marks, the selection and the timeline segments.
- The network: fetches are not modelled. What a handler receives is a parameter, and a failed fetch is an absent value. The two parallel refreshes after a submit are one step. The page's own "my bookings" list is not part of the page state.
- Deletion on the page (`script.js:301-316`): the confirm dialog and the request are left out. The server side of a deletion is modelled.
- Popups, haptics and error message texts on the page are not modelled. `HandleTimeChange` returns `warned` in their place, and the submit returns a `Rejection`.
- Time zones: the browser's zone is a fixed offset in seconds, so daylight-saving changes are not modelled. Dates are day numbers. Times are whole seconds, so microseconds are not modelled. The server reads the current time three times for one booking request (`main.py:107`, `main.py:109` and `crud.py:18` through `main.py:118`). The model uses one `now` for all three.
- Clock.TimeToMinutes: it is defined only on well-formed "HH:MM" strings, which is what a time input holds. The NaN that an empty input yields is modelled where it matters, in the submit checks.
- The HTML `min`/`max`/`required` constraints on the inputs are not modelled. `index.html` is not part of this model. `HandleTimeChange` states which bounds it offers, not what the browser does with them.
- Init-data validation (HMAC with the bot token, `app/utils.py`) is a function parameter. Malformed JSON or a missing `user` field, which the server turns into a 500, is not modelled.
- Database sessions, commits and joins are left out. Store order stands for the database's unspecified row order. Booking ids come from a counter. The user foreign key is not checked.
- Page.BookingPage.HandleFormSubmit: the submit is modelled as one atomic step. The page waits twice, at the booking request (`script.js:283`) and at the two refreshes (`script.js:287`), and other handlers can run while it waits. The state is reset only after the second wait. So a second submit during the request passes the same checks and sends a second request. A time or date change during the wait makes the refresh re-mark the rooms for the new inputs instead of the submitted interval.
- Page.BookingPage.ResetAfterBooking: it requires the candidate interval to still be the submitted one. This assumes that no handler ran during the two waits of the submit (`script.js:283`, `script.js:287`), so the effects named for `HandleFormSubmit` are not captured.
- Api.CreateBooking: each request is modelled as one atomic step. In the server, the handler runs in a worker thread with its own session. The availability and active-bookings checks (`main.py:118-123`) and the insert (`main.py:125`) have no lock or constraint between them. Two concurrent requests can both pass and then double-book a room or exceed the cap of two. `Api.AdmitKeepsNoDoubleBooking` and `Api.AdmitKeepsActiveCap` hold only when requests run one after another.
- The bot, the webhook and the start-up and shutdown hooks are left out.
- Api.GetRooms: it states the list's size, its distinctness and its first entry. The other names are in the body only.
- The `/api/bookings-by-date` and `/api/my-bookings` endpoints are not separate members. They are authentication followed by `Store.BookingsByDate` and `Store.UserBookings`.
