/** The registry's test scenarios, replayed on the model: each method starts from a freshly
    stocked registry and checks what the contracts let a caller conclude. */
module Scenarios {
  import opened Models
  import opened Registry
  import RoomRepository
  import Lists

  /** 2025-09-01, the day the scenarios take as today; the other dates are epoch days as well. */
  const Today: Day := 20332

  /** A registry holding the stock data, with the stock reservation on room 10 over [Sep 5, Sep 12). */
  method Stocked() returns (server: Server)
    ensures fresh(server) && server.Valid()
    ensures server.users == [User("steven", "Steven", Guest), User("ann", "Ann", Guest), User("donald", "Donald", Admin)]
    ensures server.rooms == [Room(10, Economy), Room(11, Lux), Room(12, Presidential)]
    ensures server.reservations == [Reservation("stock", "steven", 10, StockFrom, StockTo)]
  {
    server := new Server();
    var outcome := MigrateStockData(server, Today, "steven", "ann", "donald", "stock");
  }

  /** Room 10 over [Sep 8, Sep 15) is refused as occupied; [Sep 12, Sep 15), starting the day the stock
      stay ends, is admitted; so is [Sep 13, Sep 20) on its own, but not once [Sep 12, Sep 15) is in. */
  method OverlapScenario() returns (overlapping: Outcome, adjacent: Outcome, afterAdjacent: Outcome, alone: Outcome)
    ensures overlapping == Fail(RoomOccupied(10, 20339, 20346))
    ensures adjacent == Pass
    ensures afterAdjacent == Fail(RoomOccupied(10, 20344, 20351))
    ensures alone == Pass
  {
    var server := Stocked();
    assert server.users[1].id == "ann" && server.rooms[0].number == 10;
    assert server.reservations[0].roomId == 10;
    overlapping := server.AddReservation(Reservation("r1", "ann", 10, 20339, 20346), Today);
    assert |server.reservations| == 1;

    adjacent := server.AddReservation(Reservation("r2", "ann", 10, 20343, 20346), Today);
    assert server.reservations[1].from == 20343;
    afterAdjacent := server.AddReservation(Reservation("r3", "ann", 10, 20344, 20351), Today);

    server := Stocked();
    assert server.users[1].id == "ann" && server.rooms[0].number == 10;
    alone := server.AddReservation(Reservation("r3", "ann", 10, 20344, 20351), Today);
  }

  /** A reservation naming neither a known user nor a known room reports the missing user;
      one on an unknown room, one starting after it ends, or one before today, is refused with
      that reason; none of them is stored. */
  method PrecedenceScenario() returns (noUser: Outcome, noRoom: Outcome, inverted: Outcome, past: Outcome,
                                       stored: seq<Reservation>)
    ensures noUser == Fail(UserNotFound("nobody"))
    ensures noRoom == Fail(RoomNotFound(999))
    ensures inverted == Fail(InvalidInterval(20366, 20362))
    ensures past == Fail(PastDate(18262, Today))
    ensures stored == [Reservation("stock", "steven", 10, StockFrom, StockTo)]
  {
    var server := Stocked();
    noUser := server.AddReservation(Reservation("r1", "nobody", 999, 20362, 20366), Today);

    assert server.users[0].id == "steven" && server.rooms[1].number == 11;
    noRoom := server.AddReservation(Reservation("r2", "steven", 999, 20362, 20366), Today);
    inverted := server.AddReservation(Reservation("r3", "steven", 11, 20366, 20362), Today);
    past := server.AddReservation(Reservation("r4", "steven", 11, 18262, 18266), Today);
    stored := server.GetReservations();
  }

  /** A stay that starts and ends on the same day is admitted and can then be found by its id. */
  method SameDayScenario() returns (outcome: Outcome, found: bool)
    ensures outcome == Pass && found
  {
    var server := Stocked();
    assert server.users[1].id == "ann" && server.rooms[1].number == 11;
    outcome := server.AddReservation(Reservation("same-day", "ann", 11, 20376, 20376), Today);
    found := server.ContainsReservationWithId("same-day");
    assert server.reservations[1].id == "same-day";
  }

  /** A second room 10 is refused and the rooms stay as they were; room 20 is admitted and found. */
  method DuplicateRoomScenario() returns (duplicate: Outcome, roomCount: nat, added: Outcome, found: bool)
    ensures duplicate == Fail(DuplicateRoom(10)) && roomCount == 3
    ensures added == Pass && found
  {
    var server := Stocked();
    duplicate := server.AddRoom(Room(10, Lux));
    assert server.rooms[0].number == 10;
    roomCount := |server.rooms|;
    added := server.AddRoom(Room(20, Economy));
    found := server.ContainsRoomWithId(20);
    assert server.rooms[3].number == 20;
  }

  /** Deleting a user removes it, so its id is no longer found; deleting it again, when it is no
      longer stored, changes nothing. */
  method UserDeletionScenario() returns (afterFirst: nat, found: bool, afterSecond: nat)
    ensures afterFirst == 2 && !found && afterSecond == 2
  {
    var server := Stocked();
    var steven := User("steven", "Steven", Guest);
    assert server.users[0] == steven;
    assert Lists.IndexOf(server.users, steven) == 0;
    server.DeleteUser(steven);
    afterFirst := |server.users|;
    assert steven !in server.users by {
      assert multiset(server.users)[steven] == 0;
    }
    assert server.users[0].id == "ann" && server.users[1].id == "donald";
    found := server.ContainsUserWithId("steven");
    server.DeleteUser(steven);
    afterSecond := |server.users|;
  }

  /** Deleting a room removes it, so its number is no longer found, and leaves the reservations on it in place. */
  method RoomDeletionScenario() returns (roomCount: nat, found: bool, stored: seq<Reservation>)
    ensures roomCount == 2 && !found
    ensures stored == [Reservation("stock", "steven", 10, StockFrom, StockTo)]
  {
    var server := Stocked();
    assert server.rooms[0] == Room(10, Economy);
    assert Lists.IndexOf(server.rooms, Room(10, Economy)) == 0;
    server.DeleteRoom(Room(10, Economy));
    roomCount := |server.rooms|;
    assert server.rooms[0].number == 11 && server.rooms[1].number == 12;
    found := server.ContainsRoomWithId(10);
    stored := server.GetReservations();
  }

  /** Room 10 is free over [Sep 1, Sep 4) and taken over [Sep 6, Sep 10). */
  method AvailabilityScenario() returns (freeBefore: bool, freeDuring: bool)
    ensures freeBefore && !freeDuring
  {
    var server := Stocked();
    var room10 := Room(10, Economy);
    RoomRepository.AvailableIffNotOccupied(server.rooms, server.reservations, 20332, 20335, room10);
    freeBefore := room10 in RoomRepository.FindAvailableRooms(server.rooms, server.reservations, 20332, 20335);
    RoomRepository.AvailableIffNotOccupied(server.rooms, server.reservations, 20337, 20341, room10);
    assert server.reservations[0].roomId == 10;
    freeDuring := room10 in RoomRepository.FindAvailableRooms(server.rooms, server.reservations, 20337, 20341);
  }

  /** Once today is past the stock stay's first day, the stock reservation is refused as in the past. */
  method LateMigrationScenario() returns (outcome: Outcome, stored: seq<Reservation>)
    ensures outcome == Fail(PastDate(StockFrom, 20742)) && stored == []
  {
    var server := new Server();
    outcome := MigrateStockData(server, 20742, "steven", "ann", "donald", "stock");
    stored := server.GetReservations();
  }
}
