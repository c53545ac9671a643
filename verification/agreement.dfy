/** How the page's advisory checks relate to the server's authoritative ones:
    the same conflict test on the same bookings gives the same answer, the
    day snapshot can miss a booking that started the day before, and the
    page's request always clears the server's ordering and minimum-length
    guards but not its four-hour cap. */
module Agreement {
  import opened Wrappers
  import opened Clock
  import opened Bookings
  import opened Overlap
  import opened Availability
  import opened Validator
  import opened Store
  import opened Api

  /** A published booking that shows a stored one: same room, same times. */
  predicate Shows(d: BookingPublic, b: Booking) {
    d.room == b.room && d.start == b.start && d.end == b.end
  }

  /** The page's "busy" for a room and interval is the server's "not
      available" when the page holds the same bookings, one for one. */
  lemma {:induction false} BusyIffUnavailable(ds: seq<BookingPublic>, bs: seq<Booking>,
                                              room: string, start: Instant, end: Instant)
    requires |ds| == |bs|
    requires forall i :: 0 <= i < |ds| ==> Shows(ds[i], bs[i])
    ensures RoomBusy(ds, room, Interval(start, end)) <==> !IsRoomAvailable(bs, room, start, end, None)
  {
    var c := Interval(start, end);
    if RoomBusy(ds, room, c) {
      var d :| d in ds && d.room == room && Conflicts(c, Span(d));
      var i :| 0 <= i < |ds| && ds[i] == d;
      assert bs[i] in bs && bs[i].room == room && Conflicts(c, Interval(bs[i].start, bs[i].end));
    }
    if !IsRoomAvailable(bs, room, start, end, None) {
      var b :| b in bs && b.room == room && !Excludes(None, b.id) && Conflicts(c, Interval(b.start, b.end));
      var i :| 0 <= i < |bs| && bs[i] == b;
      assert ds[i] in ds && ds[i].room == room && Conflicts(c, Span(ds[i]));
    }
  }

  /** When every booking the page holds shows a stored one, a room the page
      marks busy is one the server would refuse: the page never calls busy a
      room the server calls free. */
  lemma {:induction false} BusyImpliesUnavailable(ds: seq<BookingPublic>, bs: seq<Booking>,
                                                  room: string, start: Instant, end: Instant)
    requires forall d :: d in ds ==> exists b :: b in bs && Shows(d, b)
    requires RoomBusy(ds, room, Interval(start, end))
    ensures !IsRoomAvailable(bs, room, start, end, None)
  {
    var c := Interval(start, end);
    var d :| d in ds && d.room == room && Conflicts(c, Span(d));
    var b :| b in bs && Shows(d, b);
    assert b.room == room && !Excludes(None, b.id) && Conflicts(c, Interval(b.start, b.end));
  }

  /** The converse fails: the page only holds the bookings that start on the
      chosen UTC day, so a booking from 23:00 to 01:00 the night before is not
      in the snapshot; the page shows the room free at 00:00-00:30 while the
      server refuses it. */
  lemma {:induction false} SnapshotMissesOvernightBooking()
    ensures var b := Booking(1, 1, "Тенниска", DayStart(1) - 3600, DayStart(1) + 3600, "101", None);
      && BookingsByDate([b], 1) == []
      && !RoomBusy([], "Тенниска", Interval(DayStart(1), DayStart(1) + 1800))
      && !IsRoomAvailable([b], "Тенниска", DayStart(1), DayStart(1) + 1800, None)
  {
    var b := Booking(1, 1, "Тенниска", DayStart(1) - 3600, DayStart(1) + 3600, "101", None);
    assert b in [b] && Clashes(b, "Тенниска", DayStart(1), DayStart(1) + 1800, None);
  }

  /** A request the page sends always ends after it starts and lasts at least
      15 minutes, so the server never refuses it for either reason. */
  lemma ClientRequestClearsLengthGuards(selected: Option<string>, busy: map<string, bool>,
      date: Option<int>, startInput: string, endInput: string, roomNumber: string,
      reason: string, tzOffset: int, bs: seq<Booking>, userId: int, now: Instant)
    requires startInput == "" || IsClockString(startInput)
    requires endInput == "" || IsClockString(endInput)
    requires ValidateSubmission(selected, busy, date, startInput, endInput, roomNumber, reason, tzOffset).Success?
    ensures var req := ValidateSubmission(selected, busy, date, startInput, endInput,
                                          roomNumber, reason, tzOffset).value;
      !GuardFails(EndNotAfterStart, req, bs, userId, now) && !GuardFails(AdmissionError.TooShort, req, bs, userId, now)
  {
  }

  /** The four-hour cap is only offered by the page's end input, not checked
      by its submit handler: a 10:00-15:00 request passes the handler's checks,
      and the server refuses it as too long. */
  lemma {:induction false} FourHourCapOnlyOnServer(day: int, tzOffset: int, bs: seq<Booking>, userId: int)
    ensures var r := ValidateSubmission(Some("Тенниска"), map[], Some(day), "10:00", "15:00",
                                        "123", "", tzOffset);
      && r.Success?
      && Admit(r.value, bs, userId, r.value.start) == Fail(TooLong)
  {
    assert TimeToMinutes("10:00") == 600 && TimeToMinutes("15:00") == 900;
    assert IsRoomNumber("123");
  }
}
