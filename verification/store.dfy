/** The booking store: users and bookings, the queries the server makes over
    them, and the three operations that change them. */
module Store {
  import opened Wrappers
  import opened Clock
  import opened Bookings
  import opened Overlap

  /** The user with that id, the first one found, or none. */
  function GetUser(users: seq<User>, id: int): (r: Option<User>)
    ensures r.None? <==> forall u :: u in users ==> u.id != id
    ensures r.Some? ==> r.value in users && r.value.id == id
  {
    if users == [] then None
    else if users[0].id == id then Some(users[0])
    else GetUser(users[1..], id)
  }

  /** The user's active bookings: those that end after `now`, in store order. */
  function UserBookings(bs: seq<Booking>, userId: int, now: Instant): (r: seq<Booking>)
    ensures |r| <= |bs| && multiset(r) <= multiset(bs)
    ensures forall b :: b in r <==> b in bs && b.userId == userId && b.end > now
  {
    if bs == [] then []
    else
      assert bs == [bs[0]] + bs[1..];
      if bs[0].userId == userId && bs[0].end > now then [bs[0]] + UserBookings(bs[1..], userId, now)
    else UserBookings(bs[1..], userId, now)
  }

  lemma {:induction false} UserBookingsAppend(bs: seq<Booking>, extra: seq<Booking>, userId: int, now: Instant)
    ensures UserBookings(bs + extra, userId, now) == UserBookings(bs, userId, now) + UserBookings(extra, userId, now)
  {
    if bs == [] {
      assert bs + extra == extra;
    } else {
      assert (bs + extra)[0] == bs[0];
      assert (bs + extra)[1..] == bs[1..] + extra;
      UserBookingsAppend(bs[1..], extra, userId, now);
    }
  }

  /** The bookings that start on UTC day `day`: from its midnight up to, not
      including, the next midnight. */
  function BookingsByDate(bs: seq<Booking>, day: int): (r: seq<Booking>)
    ensures |r| <= |bs| && multiset(r) <= multiset(bs)
    ensures forall b :: b in r <==> b in bs && DayStart(day) <= b.start < DayStart(day + 1)
  {
    if bs == [] then []
    else
      assert bs == [bs[0]] + bs[1..];
      if DayStart(day) <= bs[0].start < DayStart(day + 1) then [bs[0]] + BookingsByDate(bs[1..], day)
    else BookingsByDate(bs[1..], day)
  }

  /** Whether the optional booking id leaves `id` out of the conflict query:
      only a present, non-zero id does, as Python's truthiness test says. */
  predicate Excludes(exclude: Option<int>, id: int)
    ensures Excludes(exclude, id) <==> exclude == Some(id) && id != 0
  {
    exclude.Some? && exclude.value != 0 && id == exclude.value
  }

  /** The store's conflict query, as written there: a booking of the room
      that ends after the start and starts before the end. */
  predicate Clashes(b: Booking, room: string, start: Instant, end: Instant, exclude: Option<int>) {
    b.room == room && b.end > start && b.start < end && !Excludes(exclude, b.id)
  }

  /** How many bookings the conflict query finds. */
  function ConflictCount(bs: seq<Booking>, room: string, start: Instant, end: Instant,
                         exclude: Option<int>): (n: nat)
    ensures n <= |bs|
    ensures n == 0 <==> forall b :: b in bs ==> !Clashes(b, room, start, end, exclude)
  {
    if bs == [] then 0
    else (if Clashes(bs[0], room, start, end, exclude) then 1 else 0)
         + ConflictCount(bs[1..], room, start, end, exclude)
  }

  /** The room is available iff the conflict query finds nothing: no
      booking of the room, other than an excluded one, conflicts with
      [start, end) under the same strict test the page uses. */
  predicate IsRoomAvailable(bs: seq<Booking>, room: string, start: Instant, end: Instant,
                            exclude: Option<int>)
    ensures IsRoomAvailable(bs, room, start, end, exclude) <==>
      forall b :: b in bs && b.room == room && !Excludes(exclude, b.id) ==>
        !Conflicts(Interval(start, end), Interval(b.start, b.end))
  {
    ConflictCount(bs, room, start, end, exclude) == 0
  }

  /** An absent id and the id 0 both exclude nothing. */
  lemma ZeroExcludesNothing(bs: seq<Booking>, room: string, start: Instant, end: Instant)
    ensures IsRoomAvailable(bs, room, start, end, Some(0)) == IsRoomAvailable(bs, room, start, end, None)
  {
  }

  /** Excluding a booking makes the room available when that booking was its
      only conflict. */
  lemma {:induction false} ExcludeOnlyConflict(bs: seq<Booking>, room: string, start: Instant,
                                               end: Instant, id: int)
    requires id != 0
    requires forall b :: b in bs && Clashes(b, room, start, end, None) ==> b.id == id
    ensures IsRoomAvailable(bs, room, start, end, Some(id))
  {
  }

  /** A booking that ends when the requested one starts, or starts when it
      ends, does not make the room unavailable. */
  lemma BackToBackAllowed(bs: seq<Booking>, room: string, start: Instant, end: Instant)
    requires forall b :: b in bs && b.room == room ==> b.end <= start || b.start >= end
    ensures IsRoomAvailable(bs, room, start, end, None)
  {
  }

  /** The position of the first booking with that id and owner, if any. */
  function FindOwned(bs: seq<Booking>, id: int, userId: int): (r: Option<nat>)
    ensures r.None? <==> forall b :: b in bs ==> !(b.id == id && b.userId == userId)
    ensures r.Some? ==> r.value < |bs| && bs[r.value].id == id && bs[r.value].userId == userId
  {
    if bs == [] then None
    else if bs[0].id == id && bs[0].userId == userId then Some(0)
    else match FindOwned(bs[1..], id, userId)
         case None => None
         case Some(k) => Some(k + 1)
  }

  /** Whether a new user would break the uniqueness of ids or of usernames. */
  function UserClash(users: seq<User>, u: User): (clash: bool)
    ensures clash <==> exists v :: v in users && (v.id == u.id || v.username == u.username)
  {
    if users == [] then false
    else users[0].id == u.id || users[0].username == u.username || UserClash(users[1..], u)
  }

  datatype StoreError = IntegrityError

  class BookingStore {
    var users: seq<User>
    var bookings: seq<Booking>
    /** The id the next booking will get. */
    var nextId: int

    /** Ids are positive, unique and below nextId; user ids and usernames are
        unique. */
    ghost predicate Valid()
      reads this
    {
      && nextId >= 1
      && (forall i :: 0 <= i < |bookings| ==> 1 <= bookings[i].id < nextId)
      && (forall i, j :: 0 <= i < j < |bookings| ==> bookings[i].id != bookings[j].id)
      && (forall i, j :: 0 <= i < j < |users| ==>
            users[i].id != users[j].id && users[i].username != users[j].username)
    }

    constructor ()
      ensures Valid() && users == [] && bookings == [] && nextId == 1
    {
      users := [];
      bookings := [];
      nextId := 1;
    }

    /** Adds the user; the id and the username must both be new, otherwise
        the store refuses with an integrity error and nothing changes. */
    method CreateUser(u: User) returns (r: Result<User, StoreError>)
      requires Valid()
      modifies this`users
      ensures Valid()
      ensures r.Failure? <==> UserClash(old(users), u)
      ensures r.Failure? ==> users == old(users)
      ensures r.Success? ==> r.value == u && users == old(users) + [u]
    {
      if UserClash(users, u) {
        return Failure(IntegrityError);
      }
      users := users + [u];
      r := Success(u);
    }

    /** Adds one booking with the request's fields, owned by `userId`, under a
        fresh id; the bookings already there are unchanged. */
    method CreateBooking(req: BookingCreate, userId: int) returns (b: Booking)
      requires Valid()
      modifies this`bookings, this`nextId
      ensures Valid()
      ensures b == Booking(old(nextId), userId, req.room, req.start, req.end,
                           req.userRoomNumber, req.reason)
      ensures forall c :: c in old(bookings) ==> c.id != b.id
      ensures bookings == old(bookings) + [b]
    {
      b := Booking(nextId, userId, req.room, req.start, req.end, req.userRoomNumber, req.reason);
      bookings := bookings + [b];
      nextId := nextId + 1;
    }

    /** Removes and returns the booking with that id when `userId` owns it;
        otherwise returns nothing and leaves the store as it was. */
    method DeleteBooking(id: int, userId: int) returns (r: Option<Booking>)
      requires Valid()
      modifies this`bookings
      ensures Valid()
      ensures r.None? <==> forall b :: b in old(bookings) ==> !(b.id == id && b.userId == userId)
      ensures r.None? ==> bookings == old(bookings)
      ensures r.Some? ==>
        && r.value.id == id && r.value.userId == userId
        && exists k :: 0 <= k < |old(bookings)| && old(bookings)[k] == r.value
                       && bookings == old(bookings)[..k] + old(bookings)[k + 1..]
      ensures r.Some? ==> forall b :: b in bookings ==> b.id != id
    {
      var found := FindOwned(bookings, id, userId);
      if found.None? {
        return None;
      }
      var k := found.value;
      r := Some(bookings[k]);
      ghost var before := bookings;
      bookings := bookings[..k] + bookings[k + 1..];
      forall b | b in bookings
        ensures b.id != id
      {
        var j :| 0 <= j < |bookings| && bookings[j] == b;
        if j < k {
          assert before[j] == b;
        } else {
          assert before[j + 1] == b;
        }
      }
      assert before[k] == r.value;
    }
  }
}
