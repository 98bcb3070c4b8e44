/** The availability query of the persistence-backed variant: the rooms free for a stay [from, to). */
module RoomRepository {
  import opened Models
  import Registry

  /** The subquery: numbers of the rooms of reservations with fromDate < to and toDate > from. */
  function BookedNumbers(reservations: seq<Reservation>, from: Day, to: Day): (booked: set<RoomNumber>)
  {
    set res | res in reservations && res.from < to && res.to > from :: res.roomId
  }

  /** The rooms whose number is not among the booked numbers. The query has no ORDER BY, so only
      which rooms come back, and how often, is promised: each room as often as it is stored if it
      is free, and not at all otherwise. No check of from <= to is made here. */
  function FindAvailableRooms(rooms: seq<Room>, reservations: seq<Reservation>, from: Day, to: Day): (available: seq<Room>)
    ensures forall x :: multiset(available)[x] ==
                        if x.number in BookedNumbers(reservations, from, to) then 0 else multiset(rooms)[x]
    ensures |available| <= |rooms|
  {
    if rooms == [] then []
    else
      var rest := FindAvailableRooms(rooms[1..], reservations, from, to);
      assert rooms == [rooms[0]] + rooms[1..];
      if rooms[0].number !in BookedNumbers(reservations, from, to) then [rooms[0]] + rest else rest
  }

  /** A room is returned exactly when it is stored and no reservation on its number meets the stay. */
  lemma AvailableIffNoClash(rooms: seq<Room>, reservations: seq<Reservation>, from: Day, to: Day, x: Room)
    ensures x in FindAvailableRooms(rooms, reservations, from, to) <==>
      x in rooms && forall res :: res in reservations && res.roomId == x.number ==> !(res.from < to && res.to > from)
  {
    var available := FindAvailableRooms(rooms, reservations, from, to);
    assert x in available <==> multiset(available)[x] > 0;
    assert x in rooms <==> multiset(rooms)[x] > 0;
    if x.number in BookedNumbers(reservations, from, to) {
      var res :| res in reservations && res.from < to && res.to > from && res.roomId == x.number;
    }
  }

  /** Availability agrees with the registry's occupancy scan over the same reservations: a stored
      room is free exactly when the scan reports it unoccupied. */
  lemma AvailableIffNotOccupied(rooms: seq<Room>, reservations: seq<Reservation>, from: Day, to: Day, x: Room)
    requires x in rooms
    ensures x in FindAvailableRooms(rooms, reservations, from, to) <==>
      !Registry.Occupied(reservations, x.number, from, to)
  {
    AvailableIffNoClash(rooms, reservations, from, to, x);
    if Registry.Occupied(reservations, x.number, from, to) {
      var i :| 0 <= i < |reservations| && reservations[i].roomId == x.number &&
        from < reservations[i].to && to > reservations[i].from;
      assert reservations[i] in reservations;
    }
  }

  /** For a reservation that passes the user, room, interval and date checks, admission succeeds
      exactly when its room is reported available for its stay. */
  lemma AvailableIffAdmitted(users: seq<User>, rooms: seq<Room>, reservations: seq<Reservation>,
                             r: Reservation, today: Day, x: Room)
    requires x in rooms && x.number == r.roomId
    requires Registry.HasUser(users, r.userId) && r.from <= r.to && today <= r.from
    ensures Registry.Admission(users, rooms, reservations, r, today) == Registry.Pass <==>
      x in FindAvailableRooms(rooms, reservations, r.from, r.to)
  {
    var i :| 0 <= i < |rooms| && rooms[i] == x;
    assert Registry.HasRoom(rooms, r.roomId);
    AvailableIffNotOccupied(rooms, reservations, r.from, r.to, x);
  }

  /** A reservation on another room, or one that does not meet the stay (ending on its first day
      or starting on its last), never changes whether a room is available. */
  lemma UnrelatedReservationIrrelevant(rooms: seq<Room>, reservations: seq<Reservation>, e: Reservation,
                                      from: Day, to: Day, x: Room)
    requires e.roomId != x.number || !(e.from < to && e.to > from)
    ensures x in FindAvailableRooms(rooms, reservations + [e], from, to) <==>
      x in FindAvailableRooms(rooms, reservations, from, to)
  {
    AvailableIffNoClash(rooms, reservations + [e], from, to, x);
    AvailableIffNoClash(rooms, reservations, from, to, x);
  }

  /** Touching bounds do not exclude a room: a reservation ending on the query's first day, or
      starting on its last, is irrelevant whatever its room. */
  lemma TouchingBoundsIrrelevant(rooms: seq<Room>, reservations: seq<Reservation>, e: Reservation,
                                 from: Day, to: Day, x: Room)
    requires e.to == from || e.from == to
    ensures x in FindAvailableRooms(rooms, reservations + [e], from, to) <==>
      x in FindAvailableRooms(rooms, reservations, from, to)
  {
    UnrelatedReservationIrrelevant(rooms, reservations, e, from, to, x);
  }
}
