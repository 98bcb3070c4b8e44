# Booking registry — a verified Dafny model

This project models the core of a hotel-booking service. Guests (users), rooms and reservations live in an
in-memory registry, `Server`. The registry is the only way in or out for these entities, and it enforces the
booking rules:

- room numbers are unique;
- a reservation is admitted only after five checks, run in a fixed order that stops at the first failure:
  the user exists, the room exists, the stay does not start after it ends, the stay does not start before
  today, and the room is not occupied;
- occupancy is a half-open interval test. A new stay `[from, to)` clashes with a stored reservation `e` on
  the same room iff `from < e.to && to > e.from`.

The second, smaller part is the availability query of the persistence-backed variant. It returns every room
whose number is not among the rooms of reservations with `fromDate < to && toDate > from`. The model proves
that this query and the registry's occupancy scan give the same answer.

Files:

- `Models.dfy` (module `Models`): the entities `User`, `Room` and `Reservation` as datatypes, plus the
  half-open `Overlaps` relation. Dates are whole day numbers counted from 1970-01-01. Ids are the UUID strings
  of the source, and they are supplied by the caller.
- `Lists.dfy` (module `Lists`): `RemoveFirst`, the list removal the registry's deletions use. It takes out the
  first element equal to the given one, or nothing when there is none.
- `Server.dfy` (module `Registry`): the class `Server`. Its three fields `users`, `rooms` and `reservations`
  are updated in place. The file also holds the specification functions (`Admission`, `Occupied`,
  `HasUser`, ...), the registry invariant `Consistent` and the lemmas about them. `Valid()` (room numbers
  distinct, no stay ending before it starts, no two reservations on one room overlapping) is required and
  ensured by every mutating method.
- `RoomRepository.dfy` (module `RoomRepository`): the availability query as a pure function and its
  agreement with admission.
- `Scenarios.dfy` (module `Scenarios`): the registry's test scenarios replayed on the model. They cover
  overlap, adjacency, error precedence, the same-day stay, duplicate rooms, deletions and availability.

Notes on behaviour the contracts make explicit:

- `today` is a parameter of `AddReservation` and `MigrateStockData`. The stock reservation (room 10,
  2025-09-05 to 2025-09-12) goes through the normal admission path. Once `today` is past 2025-09-05 it is
  refused as a past date, so the stocked registry then holds no reservation (`MigrateStockData`'s ensures).
  In the source that refusal is an `IllegalArgumentException` that escapes `migrateStockData` and the first
  `getInstance()` call; the model's `Fail(PastDate(...))` outcome stands for it, and the scenarios fix today at
  2025-09-01 so that the stock stay is admitted, as the test suite's set-up assumes.
- A stay with `from == to` passes the interval check, because the check is a strict "is after". It clashes
  only with stays on its room that strictly surround that day (`ZeroLengthStay`). So `[D, D)` and `[D, D+1)`
  are both admitted.
- Deletions never cascade. Deleting a user or a room leaves the reservations that name it in place.
- The past-date check is always applied: `Server.java` has no switch for it.
- Deletion removes the first element that is *equal*, because the entities' generated `equals` compares
  every field, and Dafny's datatype equality does the same. Deletion is not by object identity.

## Model

| member | source | states |
|---|---|---|
| Models.OverlapsSymmetric | src/main/java/com/example/booking/Server.java:102-103 | the half-open overlap test gives the same answer whichever stay is named first |
| Models.BackToBackDoNotOverlap | src/main/java/com/example/booking/Server.java:102-103 | a stay ending on the day another starts overlaps it in neither order |
| Lists.RemoveFirst | src/main/java/com/example/booking/Server.java:111-121 | removal takes out exactly one occurrence when the element is present (length minus one, multiset minus that element, the others in their old order) and changes nothing when it is absent |
| Registry.AdmissionPasses | src/main/java/com/example/booking/Server.java:78-97 | a reservation is admitted iff the user exists, the room exists, from <= to, today <= from and the room is not occupied over [from, to) |
| Registry.AdmissionOrder | src/main/java/com/example/booking/Server.java:79-90 | when several checks fail, the earliest in the chain is reported: a missing user before a missing room, then an inverted interval, then a past date |
| Registry.ZeroLengthStay | src/main/java/com/example/booking/Server.java:85-91 | a stay with from == to passes the interval check and is admitted iff no reservation on its room strictly surrounds that day |
| Registry.OccupiedIgnoresUnrelated | src/main/java/com/example/booking/Server.java:99-109 | the occupancy scan is exhaustive: adding a reservation on another room, or one that does not meet the stay, never changes its verdict |
| Registry.OccupiedIffOverlaps | src/main/java/com/example/booking/Server.java:99-109 | a room is occupied for a stay exactly when some stored reservation on that room overlaps the stay under the half-open `Overlaps` relation |
| Registry.BackToBackNotOccupied | src/main/java/com/example/booking/Server.java:102-103 | a stay starting on the day a stored one ends, or ending on the day it starts, is not occupied by it |
| Registry.AdmissionKeepsConsistent | src/main/java/com/example/booking/Server.java:78-97 | appending an admitted reservation keeps room numbers distinct, every stay ordered and no two reservations on one room overlapping |
| Registry.NewNumberKeepsDistinct | src/main/java/com/example/booking/Server.java:71-76 | appending a room whose number is not yet present keeps room numbers pairwise distinct |
| Registry.RemoveKeepsDistinct | src/main/java/com/example/booking/Server.java:115-117 | deleting a room keeps room numbers pairwise distinct |
| Registry.RemoveKeepsBookings | src/main/java/com/example/booking/Server.java:119-121 | cancelling a reservation keeps every remaining stay ordered and free of double bookings |
| Registry.Server.constructor | src/main/java/com/example/booking/Server.java:17-21 | a new registry has three empty lists and satisfies the invariant |
| Registry.AddStockRooms | src/main/java/com/example/booking/Server.java:40-46 | adding rooms 10 (economy), 11 (lux) and 12 (presidential) in that order through the registry's own addRoom to a registry without rooms succeeds every time and leaves exactly those three rooms, users and reservations untouched |
| Registry.MigrateStockData | src/main/java/com/example/booking/Server.java:31-53 | the stocked registry holds Steven, Ann and Donald (admin), and rooms 10 (economy), 11 (lux) and 12 (presidential); it holds the stock stay on room 10 iff today is not after 2025-09-05, and otherwise reports the past-date refusal |
| Registry.Server.GetUsers | src/main/java/com/example/booking/Server.java:55-57 | returns exactly the current users, in order (users are values here; see Left out) |
| Registry.Server.GetRooms | src/main/java/com/example/booking/Server.java:59-61 | returns exactly the current rooms, in order (rooms are values here; see Left out) |
| Registry.Server.GetReservations | src/main/java/com/example/booking/Server.java:63-65 | returns exactly the current reservations, in order (reservations are values here; see Left out) |
| Registry.Server.AddUser | src/main/java/com/example/booking/Server.java:67-69 | always appends the user, after which a user with its id is present; rooms and reservations unchanged |
| Registry.Server.AddRoom | src/main/java/com/example/booking/Server.java:71-76 | fails with DuplicateRoom and leaves the rooms unchanged iff the number is already present, otherwise appends exactly that room; the invariant is kept |
| Registry.Server.AddReservation | src/main/java/com/example/booking/Server.java:78-97 | the outcome is the ordered admission verdict; on success exactly the given reservation is appended, on any refusal all three lists are unchanged; the invariant is kept |
| Registry.Server.IsRoomOccupied | src/main/java/com/example/booking/Server.java:99-109 | true iff some stored reservation on that room has from < e.to and to > e.from, found by scanning the whole list |
| Registry.Server.DeleteUser | src/main/java/com/example/booking/Server.java:111-113 | removes the first equal user if present and is a no-op otherwise; rooms and reservations unchanged (no cascade) |
| Registry.Server.DeleteRoom | src/main/java/com/example/booking/Server.java:115-117 | removes the first equal room if present and is a no-op otherwise; reservations unchanged (no cascade); the invariant is kept |
| Registry.Server.DeleteReservation | src/main/java/com/example/booking/Server.java:119-121 | removes the first equal reservation if present and is a no-op otherwise; the invariant is kept |
| Registry.Server.ContainsUserWithId | src/main/java/com/example/booking/Server.java:123-128 | true iff some stored user has that id; false for every other id, including the empty one |
| Registry.Server.ContainsRoomWithId | src/main/java/com/example/booking/Server.java:130-135 | true iff some stored room has that number |
| Registry.Server.ContainsReservationWithId | src/main/java/com/example/booking/Server.java:137-142 | true iff some stored reservation has that id |
| RoomRepository.FindAvailableRooms | src/main/java/lab/booking/repositories/RoomRepository.java:15-22 | each stored room is returned as often as it is stored if its number is not among the rooms of reservations meeting [from, to), and not at all otherwise; nothing else is returned, and no from <= to check is made |
| RoomRepository.AvailableIffNoClash | src/main/java/lab/booking/repositories/RoomRepository.java:15-20 | a room is in the result iff it is stored and no reservation on its number has fromDate < to and toDate > from |
| RoomRepository.AvailableIffNotOccupied | src/main/java/lab/booking/repositories/RoomRepository.java:18 | a stored room is available iff the registry's occupancy scan reports it unoccupied over the same reservations and stay |
| RoomRepository.AvailableIffAdmitted | src/main/java/lab/booking/repositories/RoomRepository.java:15-20 | for a reservation that passes the user, room, interval and date checks, admission succeeds iff its room is in the availability result for its stay |
| RoomRepository.UnrelatedReservationIrrelevant | src/main/java/lab/booking/repositories/RoomRepository.java:16-18 | a reservation on another room, or one not meeting the stay, never changes a room's membership in the result |
| RoomRepository.TouchingBoundsIrrelevant | src/main/java/lab/booking/repositories/RoomRepository.java:18 | a reservation ending on the query's first day, or starting on its last, never excludes a room |
| Scenarios.Stocked | src/test/java/com/example/booking/ServerTest.java:17-24 | a freshly stocked registry, with today 2025-09-01, holds the three users, the three rooms and the single stock reservation |
| Scenarios.OverlapScenario | src/test/java/com/example/booking/ServerTest.java:171-205 | on the stocked registry, room 10 over [Sep 8, Sep 15) is refused as occupied, [Sep 12, Sep 15) starting on the stock stay's last day is admitted, [Sep 13, Sep 20) is then refused, and on a fresh registry [Sep 13, Sep 20) is admitted; the adjacency case is the test at lines 286-299 |
| Scenarios.PrecedenceScenario | src/test/java/com/example/booking/ServerTest.java:115-169 | an unknown user is reported before an unknown room; an unknown room, a stay starting after it ends and a stay in 2020 are each refused with that reason; the stored reservations are still only the stock one; the past-date case is the test at lines 440-451 |
| Scenarios.SameDayScenario | src/test/java/com/example/booking/ServerTest.java:328-341 | a stay on room 11 starting and ending on 2025-10-15 is admitted and then found by its id |
| Scenarios.DuplicateRoomScenario | src/test/java/com/example/booking/ServerTest.java:67-90 | a second room 10 is refused as a duplicate with three rooms left; room 20 is admitted and then found by its number |
| Scenarios.UserDeletionScenario | src/test/java/com/example/booking/ServerTest.java:207-217 | deleting Steven leaves two users and his id no longer found; deleting him again, now absent, still leaves two users; the second deletion is the test at lines 243-252 |
| Scenarios.RoomDeletionScenario | src/test/java/com/example/booking/ServerTest.java:219-229 | deleting room 10 leaves two rooms and number 10 no longer found, while the stock reservation on room 10 stays stored |
| Scenarios.AvailabilityScenario | src/main/java/lab/booking/repositories/RoomRepository.java:15-20 | with the stock stay on room 10, the availability query returns room 10 for [Sep 1, Sep 4) and not for [Sep 6, Sep 10) |
| Scenarios.LateMigrationScenario | src/main/java/com/example/booking/Server.java:48-52 | stocking with today 2026-10-16 reports the stock stay as a past date and stores no reservation |

## Left out

- The HTTP layer (`BookingController`): routing, status codes, ISO date parsing and API documentation.
  The controller's own `from <= to` check on availability requests is part of this layer.
- `BookingService` only delegates to the JPA repositories and performs no overlap or interval check of its
  own. The JPA entities, `UserRepository`, the configuration and the exception classes are persistence
  mapping and are not part of this model.
- The lazy singleton `getInstance` and the reflective reset in the tests. The model has an ordinary
  constructor, and `MigrateStockData` loads the stock data into it.
- UUID generation: ids are parameters, and callers supply fresh ones.
- `LocalDate.now()`: the current day is the `today` parameter.
- Null ids are not modelled. A null user id is treated like any id that no user has, which is the outcome
  the source gives (`UserNotFound`, and `false` from the `contains` checks).
- The unmodifiable-list wrappers of the getters: the getters return sequence values, which callers cannot
  mutate in the first place.
- Registry.Server.GetUsers / Registry.Server.AddUser: users are modelled as immutable values. In the source a
  `User` has public setters for its id, name and role, `addUser` stores the caller's own object, and `getUsers`
  returns a live read-only view whose elements are those same objects. A caller can therefore change a stored
  user's id from outside and so change what `containsUserWithId` and admission answer, without any registry
  call. The model does not capture that sharing. Room numbers are final and reservations are immutable
  (`@Value`), so the only outside change is a room's type, which no rule reads.
- The test suite's timing assertion and everything about concurrency. The registry is not thread-safe as
  written, and the model is sequential.
- RoomRepository.FindAvailableRooms: the query's parameters are date-times compared against date columns,
  and the model treats both as whole days. Its reservations are the registry's `Reservation` values; their
  room number, `from` and `to` stand for the JPA entity's `room.number`, `fromDate` and `toDate`. The
  order of the result is unspecified because the query has no ORDER BY, so only which rooms come back,
  and how many times each, is stated. The whole-day reading matters at the bounds: the controller passes
  times of day (check-in 15:00, check-out 11:00 in its documented examples), and a date column compared
  with a date-time is read as midnight. Then a reservation whose `fromDate` is the query's check-out day
  has `fromDate` (00:00) before `to` (11:00) and excludes the room. So `RoomRepository.TouchingBoundsIrrelevant`,
  and `RoomRepository.AvailableIffAdmitted` at a touching bound, hold for the source only when both query
  parameters fall at midnight.
