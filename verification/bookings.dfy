/** The records the store keeps and the page receives: users, booking requests,
    stored bookings, and bookings as published with their owner's handle. */
module Bookings {
  import opened Wrappers
  import opened Clock

  /** A Telegram user: the Telegram id and a handle, unique in the store. */
  datatype User = User(id: int, username: string)

  /** The body of a booking request: room, UTC instants of start and end, the
      requester's own dormitory room number and an optional reason. */
  datatype BookingCreate = BookingCreate(
    room: string,
    start: Instant,
    end: Instant,
    userRoomNumber: string,
    reason: Option<string>)

  /** A stored booking: a request plus its id and the id of its owner. */
  datatype Booking = Booking(
    id: int,
    userId: int,
    room: string,
    start: Instant,
    end: Instant,
    userRoomNumber: string,
    reason: Option<string>)

  /** A booking as the day listing publishes it, with its owner's handle. */
  datatype BookingPublic = BookingPublic(
    id: int,
    room: string,
    start: Instant,
    end: Instant,
    userRoomNumber: string,
    reason: Option<string>,
    username: string)
}
