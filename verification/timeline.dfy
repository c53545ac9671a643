/** The day timeline of the selected room: one segment per booking of that room
    and one overlay for the user's own pending interval, each placed on a
    1440-minute day. Fractions of the day are kept as numerators over
    Clock.MinutesPerDay. */
module Timeline {
  import opened Wrappers
  import opened Clock
  import opened Bookings
  import opened Availability

  /** `offset` / 1440 is the left edge and `width` / 1440 the width. */
  datatype Segment =
    | Slot(offset: int, width: int, username: string, userRoomNumber: string,
           startMinute: int, endMinute: int, reason: Option<string>)
    | Selection(offset: int, width: int)

  /** The segment of one existing booking, placed by its local wall-clock
      minutes and carrying what the hover text and the contact link show. */
  function SlotOf(b: BookingPublic, tzOffset: int): (s: Segment)
    ensures s.Slot? && 0 <= s.offset <= LastMinute
    ensures s.offset == LocalMinuteOf(b.start, tzOffset)
    ensures s.offset + s.width == LocalMinuteOf(b.end, tzOffset)
  {
    var startMinutes := LocalMinuteOf(b.start, tzOffset);
    var endMinutes := LocalMinuteOf(b.end, tzOffset);
    Slot(startMinutes, endMinutes - startMinutes, b.username, b.userRoomNumber,
         startMinutes, endMinutes, b.reason)
  }

  /** One slot per booking, in order. */
  function Slots(bs: seq<BookingPublic>, tzOffset: int): (r: seq<Segment>)
    ensures |r| == |bs|
    ensures forall i :: 0 <= i < |bs| ==> r[i] == SlotOf(bs[i], tzOffset)
  {
    if bs == [] then [] else [SlotOf(bs[0], tzOffset)] + Slots(bs[1..], tzOffset)
  }

  /** What the timeline shows: nothing (hidden) without a selected room and a
      date; otherwise the selected room's bookings, followed by the user's
      overlay when both time inputs are set. */
  function Project(selected: Option<string>, date: Option<int>, bs: seq<BookingPublic>,
                   startInput: string, endInput: string, tzOffset: int): (r: Option<seq<Segment>>)
    requires startInput == "" || IsClockString(startInput)
    requires endInput == "" || IsClockString(endInput)
    ensures r.None? <==> selected.None? || date.None?
    ensures r.Some? ==>
      var own := RoomBookings(bs, selected.value);
      var overlay := startInput != "" && endInput != "";
      && |r.value| == |own| + (if overlay then 1 else 0)
      && (forall i :: 0 <= i < |own| ==> r.value[i] == SlotOf(own[i], tzOffset))
      && (overlay ==>
            r.value[|own|] == Selection(TimeToMinutes(startInput),
                                        TimeToMinutes(endInput) - TimeToMinutes(startInput)))
  {
    if selected.None? || date.None? then None
    else
      var slots := Slots(RoomBookings(bs, selected.value), tzOffset);
      if startInput != "" && endInput != "" then
        var s := TimeToMinutes(startInput);
        Some(slots + [Selection(s, TimeToMinutes(endInput) - s)])
      else Some(slots)
  }

  /** Every booking segment shown belongs to the selected room, and the only
      segment that is not a booking is the user's overlay, shown last. */
  lemma {:induction false} OnlySelectedRoomShown(selected: Option<string>, date: Option<int>,
      bs: seq<BookingPublic>, startInput: string, endInput: string, tzOffset: int)
    requires startInput == "" || IsClockString(startInput)
    requires endInput == "" || IsClockString(endInput)
    ensures var r := Project(selected, date, bs, startInput, endInput, tzOffset);
      r.Some? ==> forall i :: 0 <= i < |r.value| ==>
        if r.value[i].Slot? then
          exists b :: b in bs && b.room == selected.value && r.value[i] == SlotOf(b, tzOffset)
        else i == |r.value| - 1 && startInput != "" && endInput != ""
  {
    var r := Project(selected, date, bs, startInput, endInput, tzOffset);
    if r.Some? {
      var own := RoomBookings(bs, selected.value);
      forall i | 0 <= i < |r.value|
        ensures if r.value[i].Slot? then
            exists b :: b in bs && b.room == selected.value && r.value[i] == SlotOf(b, tzOffset)
          else i == |r.value| - 1 && startInput != "" && endInput != ""
      {
        if i < |own| {
          assert own[i] in own;
          assert r.value[i] == SlotOf(own[i], tzOffset);
        }
      }
    }
  }

  /** A booking typed as local times `startMinute` on day `startDay` and
      `endMinute` on day `endDay` is drawn at `startMinute`/1440 with a width
      of (`endMinute` - `startMinute`)/1440; the days play no part. */
  lemma SlotOfLocalTimes(b: BookingPublic, tzOffset: int,
                         startDay: int, startMinute: int, endDay: int, endMinute: int)
    requires 0 <= startMinute <= LastMinute && 0 <= endMinute <= LastMinute
    requires b.start == LocalToInstant(startDay, startMinute, tzOffset)
    requires b.end == LocalToInstant(endDay, endMinute, tzOffset)
    ensures SlotOf(b, tzOffset).offset == startMinute
    ensures SlotOf(b, tzOffset).width == endMinute - startMinute
  {
  }

  /** A booking from 09:00 to 10:00 local time is drawn at 540/1440 of the day
      with a width of 60/1440, in any zone and on any day. */
  lemma {:induction false} NineToTenSlot(day: int, tzOffset: int, room: string)
    ensures var b := BookingPublic(7, room, LocalToInstant(day, 540, tzOffset),
                                   LocalToInstant(day, 600, tzOffset), "101", None, "alice");
            var s := SlotOf(b, tzOffset);
            s.offset == 540 && s.width == 60
  {
  }

  /** A booking from 23:00 to 01:00 the next day is drawn from 23:00 with a
      negative width: the page places it by its wall-clock minutes alone. */
  lemma {:induction false} OvernightSlotRunsBackwards(day: int, tzOffset: int, room: string)
    ensures var b := BookingPublic(8, room, LocalToInstant(day, 1380, tzOffset),
                                   LocalToInstant(day + 1, 60, tzOffset), "101", None, "alice");
            var s := SlotOf(b, tzOffset);
            s.offset == 1380 && s.width == -1320
  {
  }
}
