/** The page's busy/free classification: a room is busy for the candidate
    interval when one of its bookings in the day snapshot conflicts with it. */
module Availability {
  import opened Wrappers
  import opened Clock
  import opened Bookings
  import opened Overlap

  function Span(b: BookingPublic): Interval {
    Interval(b.start, b.end)
  }

  /** The bookings of one room, in snapshot order. */
  function RoomBookings(bs: seq<BookingPublic>, room: string): (r: seq<BookingPublic>)
    ensures |r| <= |bs| && multiset(r) <= multiset(bs)
    ensures forall b :: b in r <==> b in bs && b.room == room
  {
    if bs == [] then []
    else
      assert bs == [bs[0]] + bs[1..];
      if bs[0].room == room then [bs[0]] + RoomBookings(bs[1..], room)
      else RoomBookings(bs[1..], room)
  }

  /** Whether some booking of `bs` conflicts with the candidate interval. */
  function AnyConflict(bs: seq<BookingPublic>, candidate: Interval): (found: bool)
    ensures found <==> exists b :: b in bs && Conflicts(candidate, Span(b))
  {
    if bs == [] then false
    else Conflicts(candidate, Span(bs[0])) || AnyConflict(bs[1..], candidate)
  }

  /** A room is busy iff one of its bookings overlaps the candidate interval. */
  function RoomBusy(bs: seq<BookingPublic>, room: string, candidate: Interval): (busy: bool)
    ensures busy <==> exists b :: b in bs && b.room == room && Conflicts(candidate, Span(b))
  {
    AnyConflict(RoomBookings(bs, room), candidate)
  }

  /** The marks after classifying `rooms` in order, starting from `marks`:
      each listed room carries exactly the busy/free mark of its bookings, and
      every other entry is as it was. */
  function Mark(marks: map<string, bool>, rooms: seq<string>, bs: seq<BookingPublic>,
                candidate: Interval): (m: map<string, bool>)
    ensures forall r :: r in rooms ==> r in m && m[r] == RoomBusy(bs, r, candidate)
    ensures forall r :: r !in rooms ==> (r in m <==> r in marks) && (r in marks ==> m[r] == marks[r])
    decreases |rooms|
  {
    if rooms == [] then marks
    else
      assert forall r :: r in rooms ==> r == rooms[0] || r in rooms[1..];
      Mark(marks[rooms[0] := RoomBusy(bs, rooms[0], candidate)], rooms[1..], bs, candidate)
  }

  /** With no bookings for the day every room is free, whatever the interval. */
  lemma EmptySnapshotAllFree(marks: map<string, bool>, rooms: seq<string>, candidate: Interval)
    ensures forall r :: r in rooms ==> r in Mark(marks, rooms, [], candidate) && !Mark(marks, rooms, [], candidate)[r]
  {
  }

  /** A booking from 09:00 to 10:00 makes its room busy for 09:10 to 09:20 and
      leaves it free from 10:00 to 10:30 (day 0 in a UTC zone). */
  lemma {:induction false} NineToTenBooking(room: string)
    ensures var b := BookingPublic(1, room, 540 * 60, 600 * 60, "101", None, "alice");
            && RoomBusy([b], room, Interval(550 * 60, 560 * 60))
            && !RoomBusy([b], room, Interval(600 * 60, 630 * 60))
  {
    var b := BookingPublic(1, room, 540 * 60, 600 * 60, "101", None, "alice");
    assert b in [b] && b.room == room && Conflicts(Interval(550 * 60, 560 * 60), Span(b));
  }
}
