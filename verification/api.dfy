/** The server's endpoints over the store: who the caller is, the admission
    rules for a new booking, deletion by the owner, and the room list. The
    current time is a parameter. */
module Api {
  import opened Wrappers
  import opened Clock
  import opened Bookings
  import opened Overlap
  import opened Store
  import opened Decimal

  /** An HTTP error: its status code and its detail message. */
  datatype ApiError = ApiError(status: int, detail: string)

  const MaxDaysAhead := 7
  const MinDurationSeconds := 15 * SecondsPerMinute
  const MaxDurationSeconds := 4 * 60 * SecondsPerMinute
  const MaxActiveBookings := 2

  /** The four rooms, in the fixed order the room list returns them. */
  function GetRooms(): (r: seq<string>)
    ensures |r| == 4
    ensures forall i, j :: 0 <= i < j < |r| ==> r[i] != r[j]
    ensures r[0] == "Тенниска"
  {
    ["Тенниска", "Боталка в блоках", "Боталка в коридорах 2 этажа", "Боталка в коридорах 3 этажа"]
  }

  // ---------------------------------------------------------------------------
  // Admission of a new booking

  /** The booking endpoint's guards, in the order it checks them. */
  datatype AdmissionError =
    | InPast
    | TooFarAhead
    | EndNotAfterStart
    | TooShort
    | TooLong
    | TooManyActive
    | RoomTaken

  /** A guard's position in the chain. */
  function Rank(g: AdmissionError): nat {
    match g
    case InPast => 0
    case TooFarAhead => 1
    case EndNotAfterStart => 2
    case TooShort => 3
    case TooLong => 4
    case TooManyActive => 5
    case RoomTaken => 6
  }

  /** The message the endpoint answers each refusal with (status 400). */
  function Detail(g: AdmissionError): string {
    match g
    case InPast => "Нельзя бронировать в прошлом"
    case TooFarAhead => "Нельзя бронировать больше, чем на 7 дней вперед"
    case EndNotAfterStart => "Время окончания должно быть после времени начала"
    case TooShort => "Минимальная длительность брони - 15 минут."
    case TooLong => "Бронь не может длиться дольше 4 часов"
    case TooManyActive => "У вас может быть максимум 2 активные брони"
    case RoomTaken => "Эта комната уже занята на выбранное время."
  }

  /** Whether guard `g`, taken on its own, refuses the request. */
  predicate GuardFails(g: AdmissionError, req: BookingCreate, bs: seq<Booking>, userId: int, now: Instant) {
    match g
    case InPast => req.start < now
    case TooFarAhead => req.start > now + MaxDaysAhead * SecondsPerDay
    case EndNotAfterStart => req.end <= req.start
    case TooShort => req.end - req.start < MinDurationSeconds
    case TooLong => req.end - req.start > MaxDurationSeconds
    case TooManyActive => |UserBookings(bs, userId, now)| >= MaxActiveBookings
    case RoomTaken => !IsRoomAvailable(bs, req.room, req.start, req.end, None)
  }

  /** The guard chain of the booking endpoint. It passes when no guard
      refuses; otherwise the refusal is the failing guard that comes first. */
  function Admit(req: BookingCreate, bs: seq<Booking>, userId: int, now: Instant): (r: Outcome<AdmissionError>)
    ensures r.Pass? ==> forall g :: !GuardFails(g, req, bs, userId, now)
    ensures r.Fail? ==> GuardFails(r.error, req, bs, userId, now)
    ensures r.Fail? ==> forall g :: Rank(g) < Rank(r.error) ==> !GuardFails(g, req, bs, userId, now)
  {
    if req.start < now then Fail(InPast)
    else if req.start > now + MaxDaysAhead * SecondsPerDay then Fail(TooFarAhead)
    else if req.end <= req.start then Fail(EndNotAfterStart)
    else if req.end - req.start < MinDurationSeconds then Fail(TooShort)
    else if req.end - req.start > MaxDurationSeconds then Fail(TooLong)
    else if |UserBookings(bs, userId, now)| >= MaxActiveBookings then Fail(TooManyActive)
    else if !IsRoomAvailable(bs, req.room, req.start, req.end, None) then Fail(RoomTaken)
    else Pass
  }

  /** A request is admitted exactly when it starts between now and seven days
      from now (both ends included), lasts from 15 minutes to 4 hours (both
      included), the user has fewer than two active bookings and the room is
      free. */
  lemma {:induction false} AdmitPassIff(req: BookingCreate, bs: seq<Booking>, userId: int, now: Instant)
    ensures Admit(req, bs, userId, now).Pass? <==>
      && now <= req.start <= now + MaxDaysAhead * SecondsPerDay
      && MinDurationSeconds <= req.end - req.start <= MaxDurationSeconds
      && |UserBookings(bs, userId, now)| < MaxActiveBookings
      && IsRoomAvailable(bs, req.room, req.start, req.end, None)
  {
    if Admit(req, bs, userId, now).Pass? {
      assert !GuardFails(InPast, req, bs, userId, now);
      assert !GuardFails(TooFarAhead, req, bs, userId, now);
      assert !GuardFails(TooShort, req, bs, userId, now);
      assert !GuardFails(TooLong, req, bs, userId, now);
      assert !GuardFails(TooManyActive, req, bs, userId, now);
      assert !GuardFails(RoomTaken, req, bs, userId, now);
    }
  }

  /** The server does enforce the four-hour cap: a request that clears the
      date guards but runs longer than four hours is refused for its length. */
  lemma FourHourCapEnforced(req: BookingCreate, bs: seq<Booking>, userId: int, now: Instant)
    requires now <= req.start <= now + MaxDaysAhead * SecondsPerDay
    requires req.end - req.start > MaxDurationSeconds
    ensures Admit(req, bs, userId, now) == Fail(TooLong)
  {
  }

  /** No two bookings of the same room conflict. */
  ghost predicate NoDoubleBooking(bs: seq<Booking>) {
    forall i, j :: 0 <= i < j < |bs| && bs[i].room == bs[j].room ==>
      !Conflicts(Interval(bs[i].start, bs[i].end), Interval(bs[j].start, bs[j].end))
  }

  /** The booking the store adds for an admitted request. */
  function Created(req: BookingCreate, id: int, userId: int): Booking {
    Booking(id, userId, req.room, req.start, req.end, req.userRoomNumber, req.reason)
  }

  /** Adding an admitted booking keeps every room free of double bookings. */
  lemma {:induction false} AdmitKeepsNoDoubleBooking(req: BookingCreate, bs: seq<Booking>,
                                                     id: int, userId: int, now: Instant)
    requires NoDoubleBooking(bs)
    requires Admit(req, bs, userId, now).Pass?
    ensures NoDoubleBooking(bs + [Created(req, id, userId)])
  {
    var nb := Created(req, id, userId);
    var all := bs + [nb];
    assert !GuardFails(RoomTaken, req, bs, userId, now);
    forall i, j | 0 <= i < j < |all| && all[i].room == all[j].room
      ensures !Conflicts(Interval(all[i].start, all[i].end), Interval(all[j].start, all[j].end))
    {
      if j == |bs| {
        assert all[i] == bs[i] && bs[i] in bs && all[j] == nb;
        ConflictsSymmetric(Interval(req.start, req.end), Interval(bs[i].start, bs[i].end));
      } else {
        assert all[i] == bs[i] && all[j] == bs[j];
      }
    }
  }

  /** After an admitted booking the user has at most two active bookings. */
  lemma {:induction false} AdmitKeepsActiveCap(req: BookingCreate, bs: seq<Booking>,
                                               id: int, userId: int, now: Instant)
    requires Admit(req, bs, userId, now).Pass?
    ensures |UserBookings(bs + [Created(req, id, userId)], userId, now)| <= MaxActiveBookings
  {
    assert !GuardFails(TooManyActive, req, bs, userId, now);
    UserBookingsAppend(bs, [Created(req, id, userId)], userId, now);
    assert |UserBookings([Created(req, id, userId)], userId, now)| <= 1;
  }

  /** Removing a booking keeps every room free of double bookings. */
  lemma {:induction false} RemoveKeepsNoDoubleBooking(bs: seq<Booking>, k: nat)
    requires NoDoubleBooking(bs) && k < |bs|
    ensures NoDoubleBooking(bs[..k] + bs[k + 1..])
  {
    var rest := bs[..k] + bs[k + 1..];
    forall i, j | 0 <= i < j < |rest| && rest[i].room == rest[j].room
      ensures !Conflicts(Interval(rest[i].start, rest[i].end), Interval(rest[j].start, rest[j].end))
    {
      var i' := if i < k then i else i + 1;
      var j' := if j < k then j else j + 1;
      assert rest[i] == bs[i'] && rest[j] == bs[j'];
    }
  }

  // ---------------------------------------------------------------------------
  // Endpoints

  /** The booking endpoint: the guard chain, then the store's create. */
  method CreateBooking(store: BookingStore, req: BookingCreate, user: User, now: Instant)
    returns (r: Result<Booking, ApiError>)
    requires store.Valid()
    modifies store
    ensures store.Valid()
    ensures store.users == old(store.users)
    ensures r.Failure? <==> Admit(req, old(store.bookings), user.id, now).Fail?
    ensures r.Failure? ==>
      && r.error == ApiError(400, Detail(Admit(req, old(store.bookings), user.id, now).error))
      && store.bookings == old(store.bookings)
    ensures r.Success? ==>
      && r.value == Created(req, old(store.nextId), user.id)
      && store.bookings == old(store.bookings) + [r.value]
      && |UserBookings(store.bookings, user.id, now)| <= MaxActiveBookings
    ensures NoDoubleBooking(old(store.bookings)) ==> NoDoubleBooking(store.bookings)
  {
    var verdict := Admit(req, store.bookings, user.id, now);
    if verdict.Fail? {
      return Failure(ApiError(400, Detail(verdict.error)));
    }
    ghost var before := store.bookings;
    ghost var id := store.nextId;
    var b := store.CreateBooking(req, user.id);
    if NoDoubleBooking(before) {
      AdmitKeepsNoDoubleBooking(req, before, id, user.id, now);
    }
    AdmitKeepsActiveCap(req, before, id, user.id, now);
    r := Success(b);
  }

  const NotFoundDetail := "Бронь не найдена или у вас нет прав на её удаление"

  /** The deletion endpoint: 404 unless the caller owns a booking with that
      id, which is then removed. */
  method DeleteBooking(store: BookingStore, bookingId: int, user: User) returns (r: Outcome<ApiError>)
    requires store.Valid()
    modifies store
    ensures store.Valid()
    ensures store.users == old(store.users)
    ensures r.Fail? <==> forall b :: b in old(store.bookings) ==> !(b.id == bookingId && b.userId == user.id)
    ensures r.Fail? ==> r.error == ApiError(404, NotFoundDetail) && store.bookings == old(store.bookings)
    ensures r.Pass? ==>
      && (exists k :: 0 <= k < |old(store.bookings)|
                      && old(store.bookings)[k].id == bookingId && old(store.bookings)[k].userId == user.id
                      && store.bookings == old(store.bookings)[..k] + old(store.bookings)[k + 1..])
      && forall b :: b in store.bookings ==> b.id != bookingId
    ensures NoDoubleBooking(old(store.bookings)) ==> NoDoubleBooking(store.bookings)
  {
    ghost var before := store.bookings;
    var deleted := store.DeleteBooking(bookingId, user.id);
    if deleted.None? {
      return Fail(ApiError(404, NotFoundDetail));
    }
    ghost var k :| 0 <= k < |before| && before[k] == deleted.value
                   && store.bookings == before[..k] + before[k + 1..];
    if NoDoubleBooking(before) {
      RemoveKeepsNoDoubleBooking(before, k);
    }
    r := Pass;
  }

  // ---------------------------------------------------------------------------
  // The caller

  /** What the init-data check yields about the caller: the Telegram id and
      the username, when the account has one. */
  datatype WebAppUser = WebAppUser(id: int, username: Option<string>)

  /** The username a caller without one is stored under: "user_" and the id. */
  function DefaultUsername(id: int): (name: string)
    ensures |name| > 5 && name[..5] == "user_"
  {
    "user_" + ShowInt(id)
  }

  /** Two callers without usernames never get the same default name. */
  lemma {:induction false} DefaultUsernameInjective(a: int, b: int)
    requires DefaultUsername(a) == DefaultUsername(b)
    ensures a == b
  {
    assert DefaultUsername(a)[5..] == ShowInt(a);
    assert DefaultUsername(b)[5..] == ShowInt(b);
    ShowIntInjective(a, b);
  }

  /** The authentication dependency of every endpoint. A missing or empty
      init-data header gives 401; data the check rejects gives 403; a known
      caller is returned as stored; an unknown one is added first. Adding can
      still fail on the store's uniqueness of usernames (500). */
  method GetUserFromWebAppData(store: BookingStore, header: Option<string>,
                               validate: string -> Option<WebAppUser>)
    returns (r: Result<User, ApiError>)
    requires store.Valid()
    modifies store
    ensures store.Valid()
    ensures store.bookings == old(store.bookings) && store.nextId == old(store.nextId)
    ensures header.None? || header == Some("") ==>
      r == Failure(ApiError(401, "Not authorized")) && store.users == old(store.users)
    ensures header.Some? && header != Some("") && validate(header.value).None? ==>
      r == Failure(ApiError(403, "Invalid data")) && store.users == old(store.users)
    ensures header.Some? && header != Some("") && validate(header.value).Some? ==>
      var caller := validate(header.value).value;
      var name := if caller.username.Some? then caller.username.value else DefaultUsername(caller.id);
      match GetUser(old(store.users), caller.id)
      case Some(known) => r == Success(known) && store.users == old(store.users)
      case None =>
        && (r.Success? <==> !UserClash(old(store.users), User(caller.id, name)))
        && (r.Success? ==> r.value == User(caller.id, name) && store.users == old(store.users) + [r.value])
        && (r.Failure? ==> r.error.status == 500 && store.users == old(store.users))
  {
    if header.None? || header.value == "" {
      return Failure(ApiError(401, "Not authorized"));
    }
    var checked := validate(header.value);
    if checked.None? {
      return Failure(ApiError(403, "Invalid data"));
    }
    var caller := checked.value;
    var name := if caller.username.Some? then caller.username.value else DefaultUsername(caller.id);
    var known := GetUser(store.users, caller.id);
    if known.Some? {
      return Success(known.value);
    }
    var created := store.CreateUser(User(caller.id, name));
    if created.Failure? {
      return Failure(ApiError(500, "Internal Server Error"));
    }
    r := Success(created.value);
  }
}
