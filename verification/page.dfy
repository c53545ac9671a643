/** The booking page's mutable state and its event handlers: the selected room,
    the date and time inputs, the busy/free mark of every rendered room, and
    the day's bookings. Rendering, the network and the host's popups and
    haptics are outside; what the handlers receive from them arrives as
    parameters. */
module Page {
  import opened Wrappers
  import opened Clock
  import opened Bookings
  import opened Overlap
  import opened Availability
  import Timeline
  import opened Validator

  /** The longest booking the end-time input offers, in minutes. */
  const MaxDurationMinutes := 240

  /** The end time filled in when the end input is empty or before the start:
      15 minutes after the start, clamped to 23:59. */
  function DefaultEnd(startMinutes: int): (m: int)
    requires 0 <= startMinutes <= LastMinute
    ensures startMinutes <= m <= LastMinute
    ensures m == startMinutes + MinDurationMinutes || (m == LastMinute && startMinutes + MinDurationMinutes > LastMinute)
  {
    if startMinutes + MinDurationMinutes >= MinutesPerDay then LastMinute
    else startMinutes + MinDurationMinutes
  }

  /** The latest end time the end input offers: four hours after the start,
      clamped to 23:59. */
  function MaxEnd(startMinutes: int): (m: int)
    requires 0 <= startMinutes <= LastMinute
    ensures startMinutes <= m <= LastMinute && m - startMinutes <= MaxDurationMinutes
    ensures m == startMinutes + MaxDurationMinutes || (m == LastMinute && startMinutes + MaxDurationMinutes > LastMinute)
  {
    if startMinutes + MaxDurationMinutes >= MinutesPerDay then LastMinute
    else startMinutes + MaxDurationMinutes
  }

  /** Near midnight the clamp makes the default end less than 15 minutes
      after the start (at 23:59, equal to it), so the submit check refuses
      the defaults as too short. */
  lemma LateDefaultEndTooShort(s: int)
    requires LastMinute - MinDurationMinutes < s <= LastMinute
    ensures DefaultEnd(s) == LastMinute && DefaultEnd(s) - s < MinDurationMinutes
    ensures TooShortInputs(FormatClock(s), FormatClock(DefaultEnd(s)))
    ensures s == LastMinute ==> DefaultEnd(s) == s
  {
  }

  class BookingPage {
    /** Room names in map order, as the room list returned them. */
    var rooms: seq<string>
    /** The bookings fetched for the chosen date. */
    var dailyBookings: seq<BookingPublic>
    var selectedRoom: Option<string>
    /** The date input: a local day number, or empty. */
    var date: Option<int>
    /** The time inputs: "HH:MM" or "" when empty. */
    var startInput: string
    var endInput: string
    /** The bounds the end input offers ("" until first set). */
    var endMin: string
    var endMax: string
    /** The busy (true) or free (false) mark of each room block; a room that
        was never classified has neither. */
    var busy: map<string, bool>
    /** The timeline on screen: hidden (None) or the segments last drawn.
        It changes only when a handler redraws or hides it. */
    var timeline: Option<seq<Timeline.Segment>>
    /** The browser's zone, in seconds east of UTC. */
    const tzOffset: int

    ghost predicate Valid()
      reads this
    {
      && (startInput == "" || IsClockString(startInput))
      && (endInput == "" || IsClockString(endInput))
      && (selectedRoom.Some? ==> selectedRoom.value in rooms)
    }

    /** The candidate interval as instants, when the date and both times are
        set: the instants of the two typed local times on the chosen day. */
    function Candidate(): (c: Option<Interval>)
      reads this
      requires Valid()
      ensures c.Some? <==> date.Some? && startInput != "" && endInput != ""
      ensures c.Some? ==>
        && LocalDayOf(c.value.start, tzOffset) == date.value
        && LocalMinuteOf(c.value.start, tzOffset) == TimeToMinutes(startInput)
        && (c.value.start + tzOffset) % SecondsPerMinute == 0
        && LocalDayOf(c.value.end, tzOffset) == date.value
        && LocalMinuteOf(c.value.end, tzOffset) == TimeToMinutes(endInput)
        && (c.value.end + tzOffset) % SecondsPerMinute == 0
    {
      if date.None? || startInput == "" || endInput == "" then None
      else Some(Interval(LocalToInstant(date.value, TimeToMinutes(startInput), tzOffset),
                         LocalToInstant(date.value, TimeToMinutes(endInput), tzOffset)))
    }

    /** What a redraw of the timeline shows for the current state. */
    function CurrentTimeline(): Option<seq<Timeline.Segment>>
      reads this
      requires Valid()
    {
      Timeline.Project(selectedRoom, date, dailyBookings, startInput, endInput, tzOffset)
    }

    /** The page after start-up: today's date, the current time as start, an
        empty end, nothing selected, nothing classified and no timeline yet. */
    constructor (roomNames: seq<string>, today: int, nowMinute: int, zone: int)
      requires 0 <= nowMinute <= LastMinute
      ensures Valid()
      ensures rooms == roomNames && dailyBookings == [] && selectedRoom == None
      ensures date == Some(today) && startInput == FormatClock(nowMinute) && endInput == ""
      ensures endMin == "" && endMax == "" && busy == map[] && tzOffset == zone
      ensures timeline == None
    {
      rooms := roomNames;
      dailyBookings := [];
      selectedRoom := None;
      date := Some(today);
      startInput := FormatClock(nowMinute);
      endInput := "";
      endMin := "";
      endMax := "";
      busy := map[];
      timeline := None;
      tzOffset := zone;
    }

    /** The user types into the start or the end input (no handler runs). */
    method EnterTimes(start: string, end: string)
      requires Valid()
      requires start == "" || IsClockString(start)
      requires end == "" || IsClockString(end)
      modifies this`startInput, this`endInput
      ensures Valid() && startInput == start && endInput == end
    {
      startInput, endInput := start, end;
    }

    /** Re-marks every room busy or free for the candidate interval; does
        nothing while the date or a time is empty. */
    method UpdateRoomsVisualState()
      requires Valid()
      modifies this`busy
      ensures Valid()
      ensures busy == match Candidate()
                      case None => old(busy)
                      case Some(c) => Mark(old(busy), rooms, dailyBookings, c)
    {
      if date.None? || startInput == "" || endInput == "" {
        return;
      }
      var candidate := Interval(LocalToInstant(date.value, TimeToMinutes(startInput), tzOffset),
                                LocalToInstant(date.value, TimeToMinutes(endInput), tzOffset));
      var i := 0;
      while i < |rooms|
        invariant 0 <= i <= |rooms|
        invariant Mark(busy, rooms[i..], dailyBookings, candidate)
                  == Mark(old(busy), rooms, dailyBookings, candidate)
      {
        var room := rooms[i];
        assert rooms[i..][1..] == rooms[i + 1..];
        busy := busy[room := RoomBusy(dailyBookings, room, candidate)];
        i := i + 1;
      }
    }

    /** The start-time change handler. Fills in a default end when the end is
        empty or before the start, sets the offered end bounds, re-marks the
        rooms, drops the selection (with one warning) when the selected room is
        now marked busy, and redraws the timeline. */
    method HandleTimeChange() returns (warned: bool)
      requires Valid()
      modifies this
      ensures Valid()
      ensures rooms == old(rooms) && dailyBookings == old(dailyBookings) && date == old(date)
      ensures startInput == old(startInput)
      ensures old(startInput) == "" ==>
        !warned && endInput == old(endInput) && endMin == old(endMin) && endMax == old(endMax)
        && busy == old(busy) && selectedRoom == old(selectedRoom) && timeline == old(timeline)
      ensures old(startInput) != "" ==>
        var s := TimeToMinutes(startInput);
        && endInput == (if old(endInput) == "" || TimeToMinutes(old(endInput)) < s
                        then FormatClock(DefaultEnd(s)) else old(endInput))
        && endMin == startInput
        && endMax == FormatClock(MaxEnd(s))
        && busy == (match Candidate()
                    case None => old(busy)
                    case Some(c) => Mark(old(busy), rooms, dailyBookings, c))
        && (warned <==> old(selectedRoom).Some? && MarkedBusy(busy, old(selectedRoom).value))
        && selectedRoom == (if warned then None else old(selectedRoom))
        && (selectedRoom.Some? ==> !MarkedBusy(busy, selectedRoom.value))
        && timeline == CurrentTimeline()
    {
      warned := false;
      if startInput == "" {
        return;
      }
      var startMinutes := TimeToMinutes(startInput);
      if endInput == "" || TimeToMinutes(endInput) < startMinutes {
        endInput := FormatClock(DefaultEnd(startMinutes));
      }
      endMin := startInput;
      endMax := FormatClock(MaxEnd(startMinutes));
      UpdateRoomsVisualState();
      if selectedRoom.Some? && MarkedBusy(busy, selectedRoom.value) {
        selectedRoom := None;
        warned := true;
      }
      timeline := CurrentTimeline();
    }

    /** The end-time change handler: re-marks the rooms and redraws the
        timeline. It keeps the selection even when the selected room is now
        marked busy; the submit checks catch that case. */
    method HandleEndTimeChange()
      requires Valid()
      modifies this`busy, this`timeline
      ensures Valid()
      ensures busy == match Candidate()
                      case None => old(busy)
                      case Some(c) => Mark(old(busy), rooms, dailyBookings, c)
      ensures timeline == CurrentTimeline()
    {
      UpdateRoomsVisualState();
      timeline := CurrentTimeline();
    }

    /** A click on the room map: `clicked` is the room block under the click,
        if any. A click on a busy room or outside the rooms changes nothing;
        otherwise that room becomes the one selected room and the timeline is
        redrawn for it. */
    method HandleRoomClick(clicked: Option<string>)
      requires Valid()
      requires clicked.Some? ==> clicked.value in rooms
      modifies this`selectedRoom, this`timeline
      ensures Valid()
      ensures selectedRoom == if clicked.Some? && !MarkedBusy(busy, clicked.value) then clicked
                              else old(selectedRoom)
      ensures selectedRoom.Some? && selectedRoom != old(selectedRoom) ==> !MarkedBusy(busy, selectedRoom.value)
      ensures timeline == if clicked.Some? && !MarkedBusy(busy, clicked.value) then CurrentTimeline()
                          else old(timeline)
    {
      if clicked.None? || MarkedBusy(busy, clicked.value) {
        return;
      }
      selectedRoom := clicked;
      timeline := CurrentTimeline();
    }

    /** Replaces the day's bookings with a fetched list, re-marks the rooms
        and redraws the timeline. Without a date nothing is fetched; a failed
        fetch (`fetched` absent) leaves everything as it was. */
    method RefreshDayBookings(fetched: Option<seq<BookingPublic>>)
      requires Valid()
      modifies this`dailyBookings, this`busy, this`timeline
      ensures Valid()
      ensures date.None? || fetched.None? ==>
        dailyBookings == old(dailyBookings) && busy == old(busy) && timeline == old(timeline)
      ensures date.Some? && fetched.Some? ==>
        && dailyBookings == fetched.value
        && busy == (match Candidate()
                    case None => old(busy)
                    case Some(c) => Mark(old(busy), rooms, dailyBookings, c))
        && timeline == CurrentTimeline()
    {
      if date.None? || fetched.None? {
        return;
      }
      dailyBookings := fetched.value;
      UpdateRoomsVisualState();
      timeline := CurrentTimeline();
    }

    /** The date change handler: the new date, then the bookings fetched for
        it. Clearing the date leaves the marks and the timeline on screen as
        they were. */
    method HandleDateChange(newDate: Option<int>, fetched: Option<seq<BookingPublic>>)
      requires Valid()
      modifies this`date, this`dailyBookings, this`busy, this`timeline
      ensures Valid()
      ensures date == newDate && selectedRoom == old(selectedRoom)
      ensures newDate.None? || fetched.None? ==>
        dailyBookings == old(dailyBookings) && busy == old(busy) && timeline == old(timeline)
      ensures newDate.Some? && fetched.Some? ==>
        && dailyBookings == fetched.value
        && busy == (match Candidate()
                    case None => old(busy)
                    case Some(c) => Mark(old(busy), rooms, dailyBookings, c))
        && timeline == CurrentTimeline()
    {
      date := newDate;
      RefreshDayBookings(fetched);
    }

    /** The submit handler. Runs the checks; a refused submission changes
        nothing. When the request goes out and the server accepts it
        (`accepted`), the day's bookings are refetched (`refreshed`) and the
        rooms re-marked for the submitted interval, then the form is reset:
        empty times, today's date, no selection, the timeline hidden. The
        bounds offered on the end input are never touched. */
    method HandleFormSubmit(roomNumber: string, reason: string, accepted: bool,
                            refreshed: Option<seq<BookingPublic>>, today: int)
      returns (r: Result<BookingCreate, Rejection>)
      requires Valid()
      modifies this`selectedRoom, this`date, this`startInput, this`endInput,
               this`dailyBookings, this`busy, this`timeline
      ensures Valid()
      ensures r == ValidateSubmission(old(selectedRoom), old(busy), old(date), old(startInput),
                                      old(endInput), roomNumber, reason, tzOffset)
      ensures rooms == old(rooms) && endMin == old(endMin) && endMax == old(endMax)
      ensures r.Failure? || !accepted ==>
        && selectedRoom == old(selectedRoom) && date == old(date)
        && startInput == old(startInput) && endInput == old(endInput)
        && dailyBookings == old(dailyBookings) && busy == old(busy) && timeline == old(timeline)
      ensures r.Success? && accepted ==>
        && selectedRoom == None && date == Some(today)
        && startInput == "" && endInput == ""
        && dailyBookings == (if refreshed.Some? then refreshed.value else old(dailyBookings))
        && busy == (if refreshed.Some? then Mark(old(busy), rooms, refreshed.value, Interval(r.value.start, r.value.end))
                    else old(busy))
        && timeline == None
    {
      r := ValidateSubmission(selectedRoom, busy, date, startInput, endInput, roomNumber, reason, tzOffset);
      if r.Failure? || !accepted {
        return;
      }
      assert Candidate() == Some(Interval(r.value.start, r.value.end));
      ResetAfterBooking(Interval(r.value.start, r.value.end), refreshed, today);
    }

    /** What follows an accepted booking of the interval `submitted`: the
        day's bookings are refetched and the rooms re-marked, then the form is
        reset and the timeline hidden. */
    method ResetAfterBooking(submitted: Interval, refreshed: Option<seq<BookingPublic>>, today: int)
      requires Valid() && Candidate() == Some(submitted)
      modifies this`selectedRoom, this`date, this`startInput, this`endInput,
               this`dailyBookings, this`busy, this`timeline
      ensures Valid()
      ensures selectedRoom == None && date == Some(today)
      ensures startInput == "" && endInput == ""
      ensures dailyBookings == (if refreshed.Some? then refreshed.value else old(dailyBookings))
      ensures busy == (if refreshed.Some? then Mark(old(busy), rooms, refreshed.value, submitted)
                       else old(busy))
      ensures timeline == None
    {
      RefreshDayBookings(refreshed);
      startInput := "";
      endInput := "";
      date := Some(today);
      selectedRoom := None;
      timeline := None;
    }
  }

  /** The selection scenario: select a free room, then move the start time so
      that the room is booked for the new interval; the selection is dropped
      with a warning. */
  method SelectionScenario(day: int)
  {
    var page := new BookingPage(["A", "B"], day, 600, 0);
    var taken := BookingPublic(1, "A", LocalToInstant(day, 660, 0), LocalToInstant(day, 720, 0),
                               "101", None, "bob");
    page.RefreshDayBookings(Some([taken]));
    SelectAtTen(page, day, taken);
    MoveStartPastBooking(page, day, taken);
  }

  /** The first half of the scenario: with the start at 10:00 the end
      defaults to 10:15, room A is free, and a click selects it. */
  method SelectAtTen(page: BookingPage, day: int, taken: BookingPublic)
    requires page.Valid() && page.tzOffset == 0 && page.date == Some(day)
    requires page.rooms == ["A", "B"] && page.dailyBookings == [taken]
    requires taken.room == "A"
    requires taken.start == LocalToInstant(day, 660, 0) && taken.end == LocalToInstant(day, 720, 0)
    requires page.startInput == FormatClock(600) && page.endInput == ""
    modifies page
    ensures page.Valid() && page.tzOffset == 0 && page.date == Some(day)
    ensures page.rooms == ["A", "B"] && page.dailyBookings == [taken]
    ensures page.selectedRoom == Some("A") && page.endInput == FormatClock(615)
  {
    var warned := page.HandleTimeChange();
    assert !MarkedBusy(page.busy, "A") by {
      assert page.startInput == FormatClock(600) && page.endInput == FormatClock(615);
      var c := page.Candidate().value;
      assert c == Interval(LocalToInstant(day, 600, 0), LocalToInstant(day, 615, 0));
      assert !RoomBusy([taken], "A", c);
    }
    page.HandleRoomClick(Some("A"));
  }

  /** The second half of the scenario: the start moves to 11:30, inside the
      booking of room A from 11:00 to 12:00. */
  method MoveStartPastBooking(page: BookingPage, day: int, taken: BookingPublic)
    requires page.Valid() && page.tzOffset == 0 && page.date == Some(day)
    requires page.rooms == ["A", "B"] && page.dailyBookings == [taken]
    requires taken.room == "A"
    requires taken.start == LocalToInstant(day, 660, 0) && taken.end == LocalToInstant(day, 720, 0)
    requires page.selectedRoom == Some("A") && page.endInput == FormatClock(615)
    modifies page
  {
    page.EnterTimes(FormatClock(690), page.endInput);
    assert TimeToMinutes(page.startInput) == 690 && TimeToMinutes(page.endInput) == 615;
    ghost var marks := page.busy;
    var warned := page.HandleTimeChange();
    assert MarkedBusy(page.busy, "A") by {
      assert page.endInput == FormatClock(705);
      var c := page.Candidate().value;
      assert c == Interval(LocalToInstant(day, 690, 0), LocalToInstant(day, 705, 0));
      assert taken in [taken] && Conflicts(c, Span(taken));
    }
    assert warned && page.selectedRoom == None;
  }
}
