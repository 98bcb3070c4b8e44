/** The entities of the booking registry: plain value holders with no behaviour. */
module Models {

  /** A calendar date as a whole day number, counted from 1970-01-01 (the epoch day of a LocalDate). */
  type Day = int

  /** User and reservation ids are the UUID strings generated when the entity is created. */
  type UserId = string
  type ReservationId = string

  /** A room is identified by its number, its natural key. */
  type RoomNumber = int

  /** Whether a user is an administrator; no rule of the registry looks at it. */
  datatype UserRole = Guest | Admin

  datatype RoomType = Economy | Lux | Presidential

  datatype User = User(id: UserId, name: string, role: UserRole)

  datatype Room = Room(number: RoomNumber, roomType: RoomType)

  /** A stay in room `roomId` by user `userId` over the half-open interval [from, to). */
  datatype Reservation = Reservation(id: ReservationId, userId: UserId, roomId: RoomNumber, from: Day, to: Day)

  /** Two stays share at least one day under half-open semantics. */
  predicate Overlaps(a: Reservation, b: Reservation)
  {
    a.from < b.to && b.from < a.to
  }

  /** Overlap does not depend on which stay is named first. */
  lemma OverlapsSymmetric(a: Reservation, b: Reservation)
    ensures Overlaps(a, b) <==> Overlaps(b, a)
  {
  }

  /** Back-to-back stays (one ends on the day the other starts) never overlap. */
  lemma BackToBackDoNotOverlap(a: Reservation, b: Reservation)
    requires a.to == b.from
    ensures !Overlaps(a, b) && !Overlaps(b, a)
  {
  }
}
