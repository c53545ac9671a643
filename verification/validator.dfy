/** The page's checks before it sends a booking request, in the order it makes
    them, and the request it builds when they all pass. */
module Validator {
  import opened Wrappers
  import opened Clock
  import opened Bookings
  import opened Decimal

  /** Why the page refused to send a request. The last one is not a message
      the page shows: building the ISO timestamps from an empty date or time
      input throws, and the submission stops there. */
  datatype Rejection =
    | NoRoomSelected
    | SelectedRoomBusy
    | TooShort
    | BadRoomNumber
    | UnbuildableRequest

  const MinDurationMinutes := 15

  /** The room-number pattern: three or four ASCII digits and nothing else,
      so a room number is a decimal number below 10000. */
  predicate IsRoomNumber(s: string)
    ensures IsRoomNumber(s) ==> AllDigits(s) && ReadNat(s) < 10000
  {
    if 3 <= |s| <= 4 && AllDigits(s) then
      ReadNatBelow(s);
      assert Pow10(|s|) <= Pow10(4) by {
        assert Pow10(3) == 1000 && Pow10(4) == 10000;
      }
      true
    else false
  }

  /** Whether the room carries the busy mark from the last classification. */
  predicate MarkedBusy(busy: map<string, bool>, room: string) {
    room in busy && busy[room]
  }

  /** Whether the 15-minute check refuses the inputs. The page subtracts the
      two minute values; an empty input yields NaN, every comparison with
      NaN is false, so the check only refuses when both inputs are set. */
  predicate TooShortInputs(startInput: string, endInput: string)
    requires startInput == "" || IsClockString(startInput)
    requires endInput == "" || IsClockString(endInput)
    ensures startInput == "" || endInput == "" ==> !TooShortInputs(startInput, endInput)
  {
    startInput != "" && endInput != "" &&
    TimeToMinutes(endInput) - TimeToMinutes(startInput) < MinDurationMinutes
  }

  /** The submit handler's checks: a selected room, not marked busy, at least
      15 minutes, a valid room number; then the request, with an empty reason
      sent as absent. */
  function ValidateSubmission(selected: Option<string>, busy: map<string, bool>, date: Option<int>,
                              startInput: string, endInput: string,
                              roomNumber: string, reason: string, tzOffset: int)
    : (r: Result<BookingCreate, Rejection>)
    requires startInput == "" || IsClockString(startInput)
    requires endInput == "" || IsClockString(endInput)
    ensures r == Failure(NoRoomSelected) <==> selected.None?
    ensures r == Failure(SelectedRoomBusy) <==> selected.Some? && MarkedBusy(busy, selected.value)
    ensures r == Failure(TooShort) <==>
      selected.Some? && !MarkedBusy(busy, selected.value) && TooShortInputs(startInput, endInput)
    ensures r == Failure(BadRoomNumber) <==>
      selected.Some? && !MarkedBusy(busy, selected.value) && !TooShortInputs(startInput, endInput)
      && !IsRoomNumber(roomNumber)
    ensures r.Success? <==>
      selected.Some? && !MarkedBusy(busy, selected.value) && IsRoomNumber(roomNumber)
      && date.Some? && startInput != "" && endInput != ""
      && TimeToMinutes(endInput) - TimeToMinutes(startInput) >= MinDurationMinutes
    ensures r.Success? ==>
      && r.value.room == selected.value
      && r.value.end - r.value.start == (TimeToMinutes(endInput) - TimeToMinutes(startInput)) * SecondsPerMinute
      && LocalDayOf(r.value.start, tzOffset) == date.value
      && LocalMinuteOf(r.value.start, tzOffset) == TimeToMinutes(startInput)
      && (r.value.start + tzOffset) % SecondsPerMinute == 0
      && LocalDayOf(r.value.end, tzOffset) == date.value
      && LocalMinuteOf(r.value.end, tzOffset) == TimeToMinutes(endInput)
      && r.value.userRoomNumber == roomNumber
      && (r.value.reason.None? <==> reason == "")
      && (r.value.reason.Some? ==> r.value.reason.value == reason)
  {
    if selected.None? then Failure(NoRoomSelected)
    else if MarkedBusy(busy, selected.value) then Failure(SelectedRoomBusy)
    else if TooShortInputs(startInput, endInput) then Failure(TooShort)
    else if !IsRoomNumber(roomNumber) then Failure(BadRoomNumber)
    else if date.None? || startInput == "" || endInput == "" then Failure(UnbuildableRequest)
    else
      var s := TimeToMinutes(startInput);
      var e := TimeToMinutes(endInput);
      Success(BookingCreate(selected.value,
                            LocalToInstant(date.value, s, tzOffset),
                            LocalToInstant(date.value, e, tzOffset),
                            roomNumber,
                            if reason == "" then None else Some(reason)))
  }

  /** The page sets no upper bound at submission: a request of any length of
      at least 15 minutes goes out once the other checks pass. */
  lemma NoUpperBoundAtSubmission(selected: string, busy: map<string, bool>, date: int,
                                 startInput: string, endInput: string, roomNumber: string,
                                 reason: string, tzOffset: int)
    requires IsClockString(startInput) && IsClockString(endInput)
    requires !MarkedBusy(busy, selected) && IsRoomNumber(roomNumber)
    requires TimeToMinutes(endInput) - TimeToMinutes(startInput) > 240
    ensures ValidateSubmission(Some(selected), busy, Some(date), startInput, endInput,
                               roomNumber, reason, tzOffset).Success?
  {
  }

  /** 15 minutes passes the length check and 10 minutes does not; "1234" is a
      room number, "12" and "12345" are not. */
  lemma {:induction false} SubmissionBoundaries()
    ensures !TooShortInputs("10:00", "10:15") && TooShortInputs("10:00", "10:10")
    ensures IsRoomNumber("1234") && !IsRoomNumber("12") && !IsRoomNumber("12345")
  {
    assert TimeToMinutes("10:15") == 615 && TimeToMinutes("10:00") == 600;
    assert TimeToMinutes("10:10") == 610;
  }
}
