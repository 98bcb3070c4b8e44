/** The in-memory booking registry: the only gate through which users, rooms and
    reservations enter or leave, and the place where the booking rules are enforced. */
module Registry {
  import opened Models
  import opened Lists

  /** Why the registry refused a mutation (each a distinct message in the source). */
  datatype BookingError =
    | DuplicateRoom(number: RoomNumber)
    | UserNotFound(userId: UserId)
    | RoomNotFound(roomId: RoomNumber)
    | InvalidInterval(from: Day, to: Day)
    | PastDate(from: Day, today: Day)
    | RoomOccupied(roomId: RoomNumber, from: Day, to: Day)

  /** Result of a mutation that may be refused: the source throws, the model returns Fail. */
  datatype Outcome = Pass | Fail(error: BookingError)

  predicate HasUser(users: seq<User>, id: UserId)
  {
    exists i :: 0 <= i < |users| && users[i].id == id
  }

  predicate HasRoom(rooms: seq<Room>, number: RoomNumber)
  {
    exists i :: 0 <= i < |rooms| && rooms[i].number == number
  }

  predicate HasReservation(reservations: seq<Reservation>, id: ReservationId)
  {
    exists i :: 0 <= i < |reservations| && reservations[i].id == id
  }

  /** Some stored reservation on room `roomId` meets the stay [from, to). */
  predicate Occupied(reservations: seq<Reservation>, roomId: RoomNumber, from: Day, to: Day)
  {
    exists i :: 0 <= i < |reservations| && reservations[i].roomId == roomId &&
      from < reservations[i].to && to > reservations[i].from
  }

  /** The admission verdict for `r`: five checks in a fixed order, the first failing one decides. */
  function Admission(users: seq<User>, rooms: seq<Room>, reservations: seq<Reservation>,
                     r: Reservation, today: Day): (o: Outcome)
  {
    if !HasUser(users, r.userId) then Fail(UserNotFound(r.userId))
    else if !HasRoom(rooms, r.roomId) then Fail(RoomNotFound(r.roomId))
    else if r.from > r.to then Fail(InvalidInterval(r.from, r.to))
    else if r.from < today then Fail(PastDate(r.from, today))
    else if Occupied(reservations, r.roomId, r.from, r.to) then Fail(RoomOccupied(r.roomId, r.from, r.to))
    else Pass
  }

  /** Room numbers are pairwise distinct. */
  predicate DistinctNumbers(rooms: seq<Room>)
  {
    forall i, j :: 0 <= i < j < |rooms| ==> rooms[i].number != rooms[j].number
  }

  /** No stored stay starts after it ends. */
  predicate OrderedStays(reservations: seq<Reservation>)
  {
    forall i :: 0 <= i < |reservations| ==> reservations[i].from <= reservations[i].to
  }

  /** No two stored reservations on one room overlap. */
  predicate NoDoubleBooking(reservations: seq<Reservation>)
  {
    forall i, j :: 0 <= i < j < |reservations| && reservations[i].roomId == reservations[j].roomId ==>
      !Overlaps(reservations[i], reservations[j])
  }

  /** The invariant the registry keeps across every mutation. */
  predicate Consistent(rooms: seq<Room>, reservations: seq<Reservation>)
  {
    DistinctNumbers(rooms) && OrderedStays(reservations) && NoDoubleBooking(reservations)
  }

  /** Admission succeeds exactly when all five checks pass. */
  lemma AdmissionPasses(users: seq<User>, rooms: seq<Room>, reservations: seq<Reservation>,
                        r: Reservation, today: Day)
    ensures Admission(users, rooms, reservations, r, today) == Pass <==>
      HasUser(users, r.userId) && HasRoom(rooms, r.roomId) && r.from <= r.to && today <= r.from &&
      !Occupied(reservations, r.roomId, r.from, r.to)
  {
  }

  /** Which error is reported when several checks fail: the earliest in the chain. */
  lemma AdmissionOrder(users: seq<User>, rooms: seq<Room>, reservations: seq<Reservation>,
                       r: Reservation, today: Day)
    ensures !HasUser(users, r.userId) ==>
      Admission(users, rooms, reservations, r, today) == Fail(UserNotFound(r.userId))
    ensures HasUser(users, r.userId) && !HasRoom(rooms, r.roomId) ==>
      Admission(users, rooms, reservations, r, today) == Fail(RoomNotFound(r.roomId))
    ensures HasUser(users, r.userId) && HasRoom(rooms, r.roomId) && r.from > r.to ==>
      Admission(users, rooms, reservations, r, today) == Fail(InvalidInterval(r.from, r.to))
    ensures HasUser(users, r.userId) && HasRoom(rooms, r.roomId) && r.from <= r.to && r.from < today ==>
      Admission(users, rooms, reservations, r, today) == Fail(PastDate(r.from, today))
  {
  }

  /** A stay that starts on the day it ends passes the interval check and meets only the
      stays on its room that strictly surround that day. */
  lemma ZeroLengthStay(users: seq<User>, rooms: seq<Room>, reservations: seq<Reservation>,
                       r: Reservation, today: Day)
    requires r.from == r.to
    requires HasUser(users, r.userId) && HasRoom(rooms, r.roomId) && today <= r.from
    ensures Admission(users, rooms, reservations, r, today) == Pass <==>
      forall e :: e in reservations && e.roomId == r.roomId ==> !(e.from < r.from < e.to)
  {
    if Admission(users, rooms, reservations, r, today) != Pass {
      var i :| 0 <= i < |reservations| && reservations[i].roomId == r.roomId &&
        r.from < reservations[i].to && r.to > reservations[i].from;
      assert reservations[i] in reservations;
    }
  }

  /** The occupancy scan is exhaustive and blind to other rooms: appending a reservation on
      another room, or one that does not meet the stay, never changes the verdict. */
  lemma OccupiedIgnoresUnrelated(reservations: seq<Reservation>, e: Reservation,
                                 roomId: RoomNumber, from: Day, to: Day)
    requires e.roomId != roomId || !(from < e.to && to > e.from)
    ensures Occupied(reservations + [e], roomId, from, to) <==> Occupied(reservations, roomId, from, to)
  {
    var s := reservations + [e];
    if Occupied(s, roomId, from, to) {
      var i :| 0 <= i < |s| && s[i].roomId == roomId && from < s[i].to && to > s[i].from;
      assert i < |reservations| && s[i] == reservations[i];
    }
    if Occupied(reservations, roomId, from, to) {
      var i :| 0 <= i < |reservations| && reservations[i].roomId == roomId &&
        from < reservations[i].to && to > reservations[i].from;
      assert s[i] == reservations[i];
    }
  }

  /** The occupancy test is the half-open `Overlaps` relation between the new stay and a stored one on its room. */
  lemma OccupiedIffOverlaps(reservations: seq<Reservation>, r: Reservation)
    ensures Occupied(reservations, r.roomId, r.from, r.to) <==>
      exists i :: 0 <= i < |reservations| && reservations[i].roomId == r.roomId && Overlaps(r, reservations[i])
  {
  }

  /** A stay that starts on the day an existing one on the same room ends is never refused as occupied
      because of it, and neither is one that ends on the day the existing one starts. */
  lemma BackToBackNotOccupied(e: Reservation, from: Day, to: Day)
    requires from == e.to || to == e.from
    ensures !Occupied([e], e.roomId, from, to)
  {
  }

  /** An admitted reservation keeps the registry consistent. */
  lemma AdmissionKeepsConsistent(users: seq<User>, rooms: seq<Room>, reservations: seq<Reservation>,
                                 r: Reservation, today: Day)
    requires Consistent(rooms, reservations)
    requires Admission(users, rooms, reservations, r, today) == Pass
    ensures Consistent(rooms, reservations + [r])
  {
    var s := reservations + [r];
    forall i, j | 0 <= i < j < |s| && s[i].roomId == s[j].roomId
      ensures !Overlaps(s[i], s[j])
    {
      if j == |reservations| {
        assert s[i] == reservations[i];
        if Overlaps(s[i], s[j]) {
          assert reservations[i].roomId == r.roomId && r.from < reservations[i].to && r.to > reservations[i].from;
          assert Occupied(reservations, r.roomId, r.from, r.to);
        }
      } else {
        assert s[i] == reservations[i] && s[j] == reservations[j];
      }
    }
  }

  /** A room whose number is not yet taken keeps room numbers distinct. */
  lemma NewNumberKeepsDistinct(rooms: seq<Room>, room: Room)
    requires DistinctNumbers(rooms) && !HasRoom(rooms, room.number)
    ensures DistinctNumbers(rooms + [room])
  {
    var s := rooms + [room];
    forall i, j | 0 <= i < j < |s| ensures s[i].number != s[j].number {
      if j == |rooms| {
        assert s[i] == rooms[i];
      } else {
        assert s[i] == rooms[i] && s[j] == rooms[j];
      }
    }
  }

  /** Removing a room keeps room numbers distinct. */
  lemma RemoveKeepsDistinct(rooms: seq<Room>, room: Room)
    requires DistinctNumbers(rooms)
    ensures DistinctNumbers(RemoveFirst(rooms, room))
  {
    var s := RemoveFirst(rooms, room);
    if room in rooms {
      var k := IndexOf(rooms, room);
      forall i, j | 0 <= i < j < |s| ensures s[i].number != s[j].number {
        assert s[i] == rooms[if i < k then i else i + 1];
        assert s[j] == rooms[if j < k then j else j + 1];
      }
    }
  }

  /** Cancelling a reservation keeps the remaining ones ordered and free of double bookings. */
  lemma RemoveKeepsBookings(reservations: seq<Reservation>, r: Reservation)
    requires OrderedStays(reservations) && NoDoubleBooking(reservations)
    ensures OrderedStays(RemoveFirst(reservations, r)) && NoDoubleBooking(RemoveFirst(reservations, r))
  {
    var s := RemoveFirst(reservations, r);
    if r in reservations {
      var k := IndexOf(reservations, r);
      forall i | 0 <= i < |s| ensures s[i].from <= s[i].to {
        assert s[i] == reservations[if i < k then i else i + 1];
      }
      forall i, j | 0 <= i < j < |s| && s[i].roomId == s[j].roomId ensures !Overlaps(s[i], s[j]) {
        assert s[i] == reservations[if i < k then i else i + 1];
        assert s[j] == reservations[if j < k then j else j + 1];
      }
    }
  }

  /** The first day of the stock reservation, 2025-09-05, and its last, 2025-09-12 (epoch days). */
  const StockFrom: Day := 20336
  const StockTo: Day := 20343

  /** The three stock rooms, added through the registry in the source's order: 10 (economy),
      11 (lux) and 12 (presidential). Each number is new when it is added, so every call succeeds. */
  method AddStockRooms(server: Server)
    requires server.Valid() && server.rooms == []
    modifies server
    ensures server.Valid()
    ensures server.rooms == [Room(10, Economy), Room(11, Lux), Room(12, Presidential)]
    ensures server.users == old(server.users) && server.reservations == old(server.reservations)
  {
    var added := server.AddRoom(Room(10, Economy));
    assert added == Pass;
    added := server.AddRoom(Room(11, Lux));
    assert added == Pass;
    added := server.AddRoom(Room(12, Presidential));
    assert added == Pass;
  }

  /** Loads the stock data into an empty registry, as the source does on the shared instance
      right after creating it: users Steven, Ann and Donald (an administrator), rooms 10, 11 and 12,
      and Steven's stay in room 10 over [2025-09-05, 2025-09-12). The ids are the fresh UUIDs the
      source generates. The stay passes through admission, so once `today` is past its first day
      it is refused as in the past and the registry keeps no reservation. */
  method MigrateStockData(server: Server, today: Day, steveId: UserId, annId: UserId, donaldId: UserId,
                          stockId: ReservationId) returns (outcome: Outcome)
    requires server.Valid() && server.users == [] && server.rooms == [] && server.reservations == []
    modifies server
    ensures server.Valid()
    ensures server.users == [User(steveId, "Steven", Guest), User(annId, "Ann", Guest), User(donaldId, "Donald", Admin)]
    ensures server.rooms == [Room(10, Economy), Room(11, Lux), Room(12, Presidential)]
    ensures outcome == if today <= StockFrom then Pass else Fail(PastDate(StockFrom, today))
    ensures server.reservations ==
            if today <= StockFrom then [Reservation(stockId, steveId, 10, StockFrom, StockTo)] else []
  {
    var steve := User(steveId, "Steven", Guest);
    server.AddUser(steve);
    server.AddUser(User(annId, "Ann", Guest));
    server.AddUser(User(donaldId, "Donald", Admin));

    AddStockRooms(server);

    assert server.users[0] == steve && server.rooms[0].number == 10;
    outcome := server.AddReservation(Reservation(stockId, steve.id, 10, StockFrom, StockTo), today);
  }

  class Server {
    var users: seq<User>
    var rooms: seq<Room>
    var reservations: seq<Reservation>

    ghost predicate Valid()
      reads this
    {
      Consistent(rooms, reservations)
    }

    /** An empty registry. */
    constructor ()
      ensures Valid()
      ensures users == [] && rooms == [] && reservations == []
    {
      users, rooms, reservations := [], [], [];
    }

    /** Read-only snapshot of the users. Users are values here, so the snapshot cannot be used to change them. */
    method GetUsers() returns (snapshot: seq<User>)
      ensures snapshot == users
    {
      snapshot := users;
    }

    method GetRooms() returns (snapshot: seq<Room>)
      ensures snapshot == rooms
    {
      snapshot := rooms;
    }

    method GetReservations() returns (snapshot: seq<Reservation>)
      ensures snapshot == reservations
    {
      snapshot := reservations;
    }

    /** Registers a user unconditionally; names need not be unique. */
    method AddUser(user: User)
      requires Valid()
      modifies this
      ensures Valid()
      ensures users == old(users) + [user] && HasUser(users, user.id)
      ensures rooms == old(rooms) && reservations == old(reservations)
    {
      users := users + [user];
      assert users[|users| - 1] == user;
    }

    /** Registers a room unless its number is already taken. */
    method AddRoom(room: Room) returns (outcome: Outcome)
      requires Valid()
      modifies this
      ensures Valid()
      ensures outcome == if HasRoom(old(rooms), room.number) then Fail(DuplicateRoom(room.number)) else Pass
      ensures rooms == if outcome.Pass? then old(rooms) + [room] else old(rooms)
      ensures users == old(users) && reservations == old(reservations)
    {
      var taken := ContainsRoomWithId(room.number);
      if taken {
        return Fail(DuplicateRoom(room.number));
      }
      NewNumberKeepsDistinct(rooms, room);
      rooms := rooms + [room];
      return Pass;
    }

    /** Admits a reservation through the ordered checks, appending it only if all pass;
        a refusal leaves all three lists as they were. */
    method AddReservation(reservation: Reservation, today: Day) returns (outcome: Outcome)
      requires Valid()
      modifies this
      ensures Valid()
      ensures outcome == Admission(old(users), old(rooms), old(reservations), reservation, today)
      ensures reservations == if outcome.Pass? then old(reservations) + [reservation] else old(reservations)
      ensures users == old(users) && rooms == old(rooms)
    {
      var hasUser := ContainsUserWithId(reservation.userId);
      if !hasUser {
        return Fail(UserNotFound(reservation.userId));
      }
      var hasRoom := ContainsRoomWithId(reservation.roomId);
      if !hasRoom {
        return Fail(RoomNotFound(reservation.roomId));
      }
      if reservation.from > reservation.to {
        return Fail(InvalidInterval(reservation.from, reservation.to));
      }
      if reservation.from < today {
        return Fail(PastDate(reservation.from, today));
      }
      var occupied := IsRoomOccupied(reservation.roomId, reservation.from, reservation.to);
      if occupied {
        return Fail(RoomOccupied(reservation.roomId, reservation.from, reservation.to));
      }
      AdmissionKeepsConsistent(users, rooms, reservations, reservation, today);
      reservations := reservations + [reservation];
      return Pass;
    }

    /** Scans every stored reservation on room `roomId` for one that meets [from, to). */
    method IsRoomOccupied(roomId: RoomNumber, from: Day, to: Day) returns (occupied: bool)
      ensures occupied == Occupied(reservations, roomId, from, to)
    {
      for i := 0 to |reservations|
        invariant forall k :: 0 <= k < i ==>
          !(reservations[k].roomId == roomId && from < reservations[k].to && to > reservations[k].from)
      {
        var existing := reservations[i];
        if existing.roomId == roomId {
          if from < existing.to && to > existing.from {
            return true;
          }
        }
      }
      return false;
    }

    /** Removes the first user equal to `user`, if any; reservations are left as they are. */
    method DeleteUser(user: User)
      requires Valid()
      modifies this
      ensures Valid()
      ensures users == RemoveFirst(old(users), user)
      ensures rooms == old(rooms) && reservations == old(reservations)
    {
      users := RemoveFirst(users, user);
    }

    /** Removes the first room equal to `room`, if any; reservations on it are left as they are. */
    method DeleteRoom(room: Room)
      requires Valid()
      modifies this
      ensures Valid()
      ensures rooms == RemoveFirst(old(rooms), room)
      ensures users == old(users) && reservations == old(reservations)
    {
      RemoveKeepsDistinct(rooms, room);
      rooms := RemoveFirst(rooms, room);
    }

    /** Removes the first reservation equal to `reservation`, if any. */
    method DeleteReservation(reservation: Reservation)
      requires Valid()
      modifies this
      ensures Valid()
      ensures reservations == RemoveFirst(old(reservations), reservation)
      ensures users == old(users) && rooms == old(rooms)
    {
      RemoveKeepsBookings(reservations, reservation);
      reservations := RemoveFirst(reservations, reservation);
    }

    method ContainsUserWithId(id: UserId) returns (found: bool)
      ensures found == HasUser(users, id)
    {
      for i := 0 to |users|
        invariant forall k :: 0 <= k < i ==> users[k].id != id
      {
        if users[i].id == id {
          return true;
        }
      }
      return false;
    }

    method ContainsRoomWithId(number: RoomNumber) returns (found: bool)
      ensures found == HasRoom(rooms, number)
    {
      for i := 0 to |rooms|
        invariant forall k :: 0 <= k < i ==> rooms[k].number != number
      {
        if rooms[i].number == number {
          return true;
        }
      }
      return false;
    }

    method ContainsReservationWithId(id: ReservationId) returns (found: bool)
      ensures found == HasReservation(reservations, id)
    {
      for i := 0 to |reservations|
        invariant forall k :: 0 <= k < i ==> reservations[k].id != id
      {
        if reservations[i].id == id {
          return true;
        }
      }
      return false;
    }
  }
}
