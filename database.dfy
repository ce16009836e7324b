/** The persistence gateway (DatabaseService) over in-memory tables.
    Each table is a sequence of rows in the order the store lists them. */
module Database {
  import opened Models
  import opened Seqs

  datatype DbError =
    | RoomHasBookings      // DeleteRoomAsync's InvalidOperationException
    | CategoryHasRooms     // DeleteRoomCategoryAsync's InvalidOperationException
    | ServiceWasBooked     // DeleteServiceAsync's InvalidOperationException
    | UserNotFound         // UpdateUserAsync's KeyNotFoundException
    | NoSuchRow            // an update of a row the store no longer has
    | DuplicateKey         // an insert under a key that is already taken

  datatype Outcome = Done | Failed(error: DbError)

  // ---- Lookups by primary key (FindAsync / FirstOrDefaultAsync by id) ----

  function GuestById(guests: seq<Guest>, id: int): (r: Option<Guest>)
    ensures r.Some? ==> r.value in guests && r.value.guestId == id
    ensures r.None? <==> forall g :: g in guests ==> g.guestId != id
  {
    FirstWhere(guests, (g: Guest) => g.guestId == id)
  }

  function CategoryById(categories: seq<RoomCategory>, id: int): (r: Option<RoomCategory>)
    ensures r.Some? ==> r.value in categories && r.value.roomCategoryId == id
    ensures r.None? <==> forall c :: c in categories ==> c.roomCategoryId != id
  {
    FirstWhere(categories, (c: RoomCategory) => c.roomCategoryId == id)
  }

  function RoomById(rooms: seq<Room>, id: int): (r: Option<Room>)
    ensures r.Some? ==> r.value in rooms && r.value.roomId == id
    ensures r.None? <==> forall x :: x in rooms ==> x.roomId != id
  {
    FirstWhere(rooms, (x: Room) => x.roomId == id)
  }

  function BookingById(bookings: seq<Booking>, id: int): (r: Option<Booking>)
    ensures r.Some? ==> r.value in bookings && r.value.bookingId == id
    ensures r.None? <==> forall b :: b in bookings ==> b.bookingId != id
  {
    FirstWhere(bookings, (b: Booking) => b.bookingId == id)
  }

  function ServiceById(services: seq<Service>, id: int): (r: Option<Service>)
    ensures r.Some? ==> r.value in services && r.value.serviceId == id
    ensures r.None? <==> forall s :: s in services ==> s.serviceId != id
  {
    FirstWhere(services, (s: Service) => s.serviceId == id)
  }

  function BookedServiceById(bookedServices: seq<BookedService>, id: int): (r: Option<BookedService>)
    ensures r.Some? ==> r.value in bookedServices && r.value.bookedServiceId == id
    ensures r.None? <==> forall bs :: bs in bookedServices ==> bs.bookedServiceId != id
  {
    FirstWhere(bookedServices, (bs: BookedService) => bs.bookedServiceId == id)
  }

  function UserById(users: seq<User>, id: int): (r: Option<User>)
    ensures r.Some? ==> r.value in users && r.value.userId == id
    ensures r.None? <==> forall u :: u in users ==> u.userId != id
  {
    FirstWhere(users, (u: User) => u.userId == id)
  }

  // ---- Row replacement (an update of the row with the same primary key) ----

  function ReplaceBooking(bookings: seq<Booking>, updated: Booking): (r: seq<Booking>)
    ensures |r| == |bookings|
    ensures forall k :: 0 <= k < |r| ==>
      r[k] == if bookings[k].bookingId == updated.bookingId then updated else bookings[k]
  {
    Map(bookings, (b: Booking) => if b.bookingId == updated.bookingId then updated else b)
  }

  function ReplaceRoom(rooms: seq<Room>, updated: Room): (r: seq<Room>)
    ensures |r| == |rooms|
    ensures forall k :: 0 <= k < |r| ==>
      r[k] == if rooms[k].roomId == updated.roomId then updated else rooms[k]
  {
    Map(rooms, (x: Room) => if x.roomId == updated.roomId then updated else x)
  }

  function ReplaceUser(users: seq<User>, updated: User): (r: seq<User>)
    ensures |r| == |users|
    ensures forall k :: 0 <= k < |r| ==>
      r[k] == if users[k].userId == updated.userId then updated else users[k]
  {
    Map(users, (u: User) => if u.userId == updated.userId then updated else u)
  }

  /** The row an update of room writes: the room's fields, with the category its key
      names as navigation property. */
  function StoredRoom(categories: seq<RoomCategory>, room: Room): (r: Room)
    ensures r.roomId == room.roomId && r.roomNumber == room.roomNumber && r.floor == room.floor
    ensures r.status == room.status && r.roomCategoryId == room.roomCategoryId
    ensures r.roomCategory.Some? ==> r.roomCategory.value in categories && r.roomCategory.value.roomCategoryId == room.roomCategoryId
  {
    room.(roomCategory := CategoryById(categories, room.roomCategoryId))
  }

  // ---- Queries ----

  /** The overlap test of the date-range query: the booking's stay and [start, end)
      intersect as half-open intervals. */
  predicate Overlaps(b: Booking, start: DateTime, end: DateTime)
  {
    b.checkInDate < end && b.checkOutDate > start
  }

  function OverlapsRange(start: DateTime, end: DateTime): Booking -> bool
  {
    (b: Booking) => Overlaps(b, start, end)
  }

  /** GetBookingsForDateRangeAsync: every booking, cancelled or not, whose stay
      overlaps [start, end), in table order. */
  function BookingsForDateRange(bookings: seq<Booking>, start: DateTime, end: DateTime): (r: seq<Booking>)
    ensures forall b :: b in r <==> b in bookings && b.checkInDate < end && b.checkOutDate > start
    ensures |r| <= |bookings|
  {
    Filter(bookings, OverlapsRange(start, end))
  }

  /** A booking that takes its room for [checkIn, checkOut): it overlaps and is not cancelled. */
  predicate Blocks(b: Booking, checkIn: DateTime, checkOut: DateTime)
  {
    b.checkInDate < checkOut && b.checkOutDate > checkIn && b.status != Cancelled
  }

  function BlocksRange(checkIn: DateTime, checkOut: DateTime): Booking -> bool
  {
    (b: Booking) => Blocks(b, checkIn, checkOut)
  }

  /** Some booking in the table blocks the room with this id. */
  ghost predicate RoomIsBooked(bookings: seq<Booking>, roomId: int, checkIn: DateTime, checkOut: DateTime)
  {
    exists b :: b in bookings && b.roomId == roomId && Blocks(b, checkIn, checkOut)
  }

  /** The first step of GetAvailableRoomsAsync: the distinct ids of the rooms that
      bookings block for the range. */
  function BookedRoomIds(bookings: seq<Booking>, checkIn: DateTime, checkOut: DateTime): (ids: seq<int>)
    ensures forall id :: id in ids <==> RoomIsBooked(bookings, id, checkIn, checkOut)
    ensures forall i, j :: 0 <= i < j < |ids| ==> ids[i] != ids[j]
  {
    var blocking := Filter(bookings, BlocksRange(checkIn, checkOut));
    var ids := Map(blocking, (b: Booking) => b.roomId);
    assert forall id :: id in ids ==> RoomIsBooked(bookings, id, checkIn, checkOut) by {
      forall id | id in ids ensures RoomIsBooked(bookings, id, checkIn, checkOut) {
        var k :| 0 <= k < |ids| && ids[k] == id;
        assert blocking[k] in blocking;
      }
    }
    assert forall id :: RoomIsBooked(bookings, id, checkIn, checkOut) ==> id in ids by {
      forall id | RoomIsBooked(bookings, id, checkIn, checkOut) ensures id in ids {
        var b :| b in bookings && b.roomId == id && Blocks(b, checkIn, checkOut);
        var k :| 0 <= k < |blocking| && blocking[k] == b;
        assert ids[k] == id;
      }
    }
    Distinct(ids)
  }

  function NotBookedAndInService(bookedIds: seq<int>): Room -> bool
  {
    (r: Room) => r.roomId !in bookedIds && r.status != Maintenance
  }

  /** GetAvailableRoomsAsync. The category filter is only announced by a comment in
      the source, so categoryId takes no part in the result. */
  function AvailableRooms(rooms: seq<Room>, bookings: seq<Booking>, checkIn: DateTime, checkOut: DateTime, categoryId: int): (r: seq<Room>)
    ensures forall room :: room in r <==>
      room in rooms && room.status != Maintenance && !RoomIsBooked(bookings, room.roomId, checkIn, checkOut)
    ensures |r| <= |rooms|
  {
    Filter(rooms, NotBookedAndInService(BookedRoomIds(bookings, checkIn, checkOut)))
  }

  /** A booking that does not block the range leaves the answer exactly as it was. */
  lemma NonBlockingBookingIsIgnored(rooms: seq<Room>, bookings: seq<Booking>, extra: Booking,
                                    checkIn: DateTime, checkOut: DateTime, categoryId: int)
    requires !Blocks(extra, checkIn, checkOut)
    ensures AvailableRooms(rooms, bookings + [extra], checkIn, checkOut, categoryId)
         == AvailableRooms(rooms, bookings, checkIn, checkOut, categoryId)
  {
    var before := BookedRoomIds(bookings, checkIn, checkOut);
    var after := BookedRoomIds(bookings + [extra], checkIn, checkOut);
    forall id ensures id in after <==> id in before {
      if RoomIsBooked(bookings + [extra], id, checkIn, checkOut) {
        var b :| b in bookings + [extra] && b.roomId == id && Blocks(b, checkIn, checkOut);
        assert b in bookings;
      }
    }
    FilterExtensional(rooms, NotBookedAndInService(after), NotBookedAndInService(before));
  }

  /** A cancelled booking never makes a room unavailable. */
  lemma CancelledBookingNeverBlocks(rooms: seq<Room>, bookings: seq<Booking>, cancelled: Booking,
                                    checkIn: DateTime, checkOut: DateTime, categoryId: int)
    requires cancelled.status == Cancelled
    ensures AvailableRooms(rooms, bookings + [cancelled], checkIn, checkOut, categoryId)
         == AvailableRooms(rooms, bookings, checkIn, checkOut, categoryId)
  {
    NonBlockingBookingIsIgnored(rooms, bookings, cancelled, checkIn, checkOut, categoryId);
  }

  /** The overlap is half-open: a stay that ends when the queried stay begins, or
      begins when it ends, does not block the room. */
  lemma AdjacentStayNeverBlocks(rooms: seq<Room>, bookings: seq<Booking>, adjacent: Booking,
                                checkIn: DateTime, checkOut: DateTime, categoryId: int)
    requires adjacent.checkOutDate == checkIn || adjacent.checkInDate == checkOut
    ensures AvailableRooms(rooms, bookings + [adjacent], checkIn, checkOut, categoryId)
         == AvailableRooms(rooms, bookings, checkIn, checkOut, categoryId)
  {
    NonBlockingBookingIsIgnored(rooms, bookings, adjacent, checkIn, checkOut, categoryId);
  }

  /** The requested category makes no difference to the answer. */
  lemma AvailabilityIgnoresCategory(rooms: seq<Room>, bookings: seq<Booking>,
                                    checkIn: DateTime, checkOut: DateTime, c1: int, c2: int)
    ensures AvailableRooms(rooms, bookings, checkIn, checkOut, c1)
         == AvailableRooms(rooms, bookings, checkIn, checkOut, c2)
  {
  }

  /** The two queries agree: a room in service is available exactly when the
      date-range query lists no live booking of it. */
  lemma AvailabilityAgreesWithDateRange(rooms: seq<Room>, bookings: seq<Booking>, room: Room,
                                        checkIn: DateTime, checkOut: DateTime, categoryId: int)
    requires room in rooms && room.status != Maintenance
    ensures room in AvailableRooms(rooms, bookings, checkIn, checkOut, categoryId)
        <==> forall b :: b in BookingsForDateRange(bookings, checkIn, checkOut) && b.roomId == room.roomId
                         ==> b.status == Cancelled
  {
    var listed := BookingsForDateRange(bookings, checkIn, checkOut);
    if RoomIsBooked(bookings, room.roomId, checkIn, checkOut) {
      var b :| b in bookings && b.roomId == room.roomId && Blocks(b, checkIn, checkOut);
      assert b in listed;
    }
  }

  /** Room 102 is booked (Confirmed) for five nights from day 0: a search for days 1-3
      leaves it out, a search for days 6-8 offers it. */
  lemma Room102Scenario(category: RoomCategory)
    ensures var room := Room(2, "102", 1, Free, category.roomCategoryId, Some(category));
            var stay := Booking(1, 0, 5 * SecondsPerDay, 0, Confirmed, 5 * category.basePricePerNight, 1, 2);
            AvailableRooms([room], [stay], 1 * SecondsPerDay, 3 * SecondsPerDay, 0) == [] &&
            AvailableRooms([room], [stay], 6 * SecondsPerDay, 8 * SecondsPerDay, 0) == [room]
  {
    var room := Room(2, "102", 1, Free, category.roomCategoryId, Some(category));
    var stay := Booking(1, 0, 5 * SecondsPerDay, 0, Confirmed, 5 * category.basePricePerNight, 1, 2);
    assert RoomIsBooked([stay], 2, 1 * SecondsPerDay, 3 * SecondsPerDay) by {
      assert stay in [stay] && Blocks(stay, 1 * SecondsPerDay, 3 * SecondsPerDay);
    }
    var late := AvailableRooms([room], [stay], 6 * SecondsPerDay, 8 * SecondsPerDay, 0);
    assert room in late;
    assert |late| == 1;
    assert late[0] in late;
  }

  // ---- Referential integrity ----

  function GuestKey(g: Guest): int { g.guestId }
  function CategoryKey(c: RoomCategory): int { c.roomCategoryId }
  function RoomKey(r: Room): int { r.roomId }
  function BookingKey(b: Booking): int { b.bookingId }
  function ServiceKey(s: Service): int { s.serviceId }
  function BookedServiceKey(bs: BookedService): int { bs.bookedServiceId }
  function UserKey(u: User): int { u.userId }

  function NotBookingId(id: int): Booking -> bool { (b: Booking) => b.bookingId != id }
  function NotRoomId(id: int): Room -> bool { (r: Room) => r.roomId != id }
  function NotCategoryId(id: int): RoomCategory -> bool { (c: RoomCategory) => c.roomCategoryId != id }
  function NotServiceId(id: int): Service -> bool { (s: Service) => s.serviceId != id }
  function NotGuestId(id: int): Guest -> bool { (g: Guest) => g.guestId != id }
  function NotBookedServiceId(id: int): BookedService -> bool { (bs: BookedService) => bs.bookedServiceId != id }
  function NotUserId(id: int): User -> bool { (u: User) => u.userId != id }
  function NotOfBooking(id: int): BookedService -> bool { (bs: BookedService) => bs.bookingId != id }
  function OfGuest(id: int): Booking -> bool { (b: Booking) => b.guestId == id }
  function NotOfGuest(id: int): Booking -> bool { (b: Booking) => b.guestId != id }
  function NotOfBookings(ids: seq<int>): BookedService -> bool { (bs: BookedService) => bs.bookingId !in ids }

  /** The keys of the guest's bookings: the rows a guest's deletion cascades to. */
  function GuestBookingIds(bookings: seq<Booking>, guestId: int): (ids: seq<int>)
    ensures forall k :: k in ids <==> exists b :: b in bookings && b.guestId == guestId && b.bookingId == k
  {
    var ofGuest := Filter(bookings, OfGuest(guestId));
    var ids := Map(ofGuest, BookingKey);
    assert forall k :: k in ids ==> exists b :: b in bookings && b.guestId == guestId && b.bookingId == k by {
      forall k | k in ids ensures exists b :: b in bookings && b.guestId == guestId && b.bookingId == k {
        var i :| 0 <= i < |ids| && ids[i] == k;
        assert ofGuest[i] in ofGuest;
      }
    }
    assert forall k :: (exists b :: b in bookings && b.guestId == guestId && b.bookingId == k) ==> k in ids by {
      forall k | exists b :: b in bookings && b.guestId == guestId && b.bookingId == k ensures k in ids {
        var b :| b in bookings && b.guestId == guestId && b.bookingId == k;
        var i :| 0 <= i < |ofGuest| && ofGuest[i] == b;
        assert ids[i] == k;
      }
    }
    ids
  }

  /** Every room carries, as its navigation property, a row of the category table
      with the room's category key. */
  ghost predicate RoomsHaveCategories(categories: seq<RoomCategory>, rooms: seq<Room>)
  {
    forall r :: r in rooms ==>
      r.roomCategory.Some? && r.roomCategory.value in categories &&
      r.roomCategory.value.roomCategoryId == r.roomCategoryId
  }

  /** Every booking's room exists. */
  ghost predicate BookingsHaveRooms(rooms: seq<Room>, bookings: seq<Booking>)
  {
    forall b :: b in bookings ==> exists r :: r in rooms && r.roomId == b.roomId
  }

  /** Every booking's guest exists. */
  ghost predicate BookingsHaveGuests(guests: seq<Guest>, bookings: seq<Booking>)
  {
    forall b :: b in bookings ==> exists g :: g in guests && g.guestId == b.guestId
  }

  /** Every booked service's booking and service exist. */
  ghost predicate BookedServicesResolve(bookings: seq<Booking>, services: seq<Service>, bookedServices: seq<BookedService>)
  {
    forall bs :: bs in bookedServices ==>
      (exists b :: b in bookings && b.bookingId == bs.bookingId) &&
      (exists s :: s in services && s.serviceId == bs.serviceId)
  }

  /** The store's keys are unique and its foreign keys resolve. */
  ghost predicate Consistent(guests: seq<Guest>, categories: seq<RoomCategory>, rooms: seq<Room>,
                             bookings: seq<Booking>, services: seq<Service>,
                             bookedServices: seq<BookedService>, users: seq<User>)
  {
    && UniqueKeys(guests, GuestKey)
    && UniqueKeys(categories, CategoryKey)
    && UniqueKeys(rooms, RoomKey)
    && UniqueKeys(bookings, BookingKey)
    && UniqueKeys(services, ServiceKey)
    && UniqueKeys(bookedServices, BookedServiceKey)
    && UniqueKeys(users, UserKey)
    && RoomsHaveCategories(categories, rooms)
    && BookingsHaveRooms(rooms, bookings)
    && BookingsHaveGuests(guests, bookings)
    && BookedServicesResolve(bookings, services, bookedServices)
  }

  /** In a consistent store a room's navigation property is exactly the category
      row its key finds. */
  lemma NavigationIsCategoryRow(categories: seq<RoomCategory>, rooms: seq<Room>, room: Room)
    requires UniqueKeys(categories, CategoryKey) && RoomsHaveCategories(categories, rooms)
    requires room in rooms
    ensures CategoryById(categories, room.roomCategoryId).Some?
    ensures room.roomCategory == CategoryById(categories, room.roomCategoryId)
  {
    var c := CategoryById(categories, room.roomCategoryId);
    assert room.roomCategory.value in categories;
    UniqueKeysSameRow(categories, CategoryKey, c.value, room.roomCategory.value);
  }

  /** In a consistent store a booking's room key finds a room. */
  lemma BookingRoomExists(rooms: seq<Room>, bookings: seq<Booking>, booking: Booking)
    requires BookingsHaveRooms(rooms, bookings)
    requires booking in bookings
    ensures RoomById(rooms, booking.roomId).Some?
  {
    var r :| r in rooms && r.roomId == booking.roomId;
  }

  /** In a consistent store a booking's guest key finds a guest. */
  lemma BookingGuestExists(guests: seq<Guest>, bookings: seq<Booking>, booking: Booking)
    requires BookingsHaveGuests(guests, bookings)
    requires booking in bookings
    ensures GuestById(guests, booking.guestId).Some?
  {
    var g :| g in guests && g.guestId == booking.guestId;
  }

  lemma UniqueKeysReplace<T>(s: seq<T>, r: seq<T>, key: T -> int, updated: T)
    requires UniqueKeys(s, key)
    requires |r| == |s|
    requires forall k :: 0 <= k < |r| ==> r[k] == if key(s[k]) == key(updated) then updated else s[k]
    ensures UniqueKeys(r, key)
  {
    assert forall k :: 0 <= k < |r| ==> key(r[k]) == key(s[k]);
  }

  /** Every row of r is either updated or a row of s, and every key of s is a key of r. */
  lemma ReplaceKeepsKeys<T>(s: seq<T>, r: seq<T>, key: T -> int, updated: T)
    requires |r| == |s|
    requires forall k :: 0 <= k < |r| ==> r[k] == if key(s[k]) == key(updated) then updated else s[k]
    ensures forall x :: x in r ==> x == updated || x in s
    ensures forall x :: x in s ==> exists y :: y in r && key(y) == key(x)
  {
    forall x | x in r ensures x == updated || x in s {
      var i :| 0 <= i < |r| && r[i] == x;
    }
    forall x | x in s ensures exists y :: y in r && key(y) == key(x) {
      var i :| 0 <= i < |s| && s[i] == x;
      assert r[i] in r;
    }
  }

  /** Deleting a category that no room belongs to keeps the store consistent. */
  lemma CategoryDeletionKeepsConsistency(guests: seq<Guest>, categories: seq<RoomCategory>, rooms: seq<Room>,
                                         bookings: seq<Booking>, services: seq<Service>,
                                         bookedServices: seq<BookedService>, users: seq<User>, id: int)
    requires Consistent(guests, categories, rooms, bookings, services, bookedServices, users)
    requires forall r :: r in rooms ==> r.roomCategoryId != id
    ensures Consistent(guests, Filter(categories, NotCategoryId(id)), rooms, bookings, services, bookedServices, users)
  {
    UniqueKeysFilter(categories, CategoryKey, NotCategoryId(id));
    var after := Filter(categories, NotCategoryId(id));
    forall r | r in rooms ensures r.roomCategory.value in after {
      assert r.roomCategory.value in categories;
    }
  }

  /** Deleting a room that no booking refers to keeps the store consistent. */
  lemma RoomDeletionKeepsConsistency(guests: seq<Guest>, categories: seq<RoomCategory>, rooms: seq<Room>,
                                     bookings: seq<Booking>, services: seq<Service>,
                                     bookedServices: seq<BookedService>, users: seq<User>, id: int)
    requires Consistent(guests, categories, rooms, bookings, services, bookedServices, users)
    requires forall b :: b in bookings ==> b.roomId != id
    ensures Consistent(guests, categories, Filter(rooms, NotRoomId(id)), bookings, services, bookedServices, users)
  {
    UniqueKeysFilter(rooms, RoomKey, NotRoomId(id));
    var after := Filter(rooms, NotRoomId(id));
    forall b | b in bookings ensures exists r :: r in after && r.roomId == b.roomId {
      var r :| r in rooms && r.roomId == b.roomId;
      assert r in after;
    }
  }

  /** Deleting a service that was never booked keeps the store consistent. */
  lemma ServiceDeletionKeepsConsistency(guests: seq<Guest>, categories: seq<RoomCategory>, rooms: seq<Room>,
                                        bookings: seq<Booking>, services: seq<Service>,
                                        bookedServices: seq<BookedService>, users: seq<User>, id: int)
    requires Consistent(guests, categories, rooms, bookings, services, bookedServices, users)
    requires forall bs :: bs in bookedServices ==> bs.serviceId != id
    ensures Consistent(guests, categories, rooms, bookings, Filter(services, NotServiceId(id)), bookedServices, users)
  {
    UniqueKeysFilter(services, ServiceKey, NotServiceId(id));
    var after := Filter(services, NotServiceId(id));
    forall bs | bs in bookedServices ensures exists s :: s in after && s.serviceId == bs.serviceId {
      var s :| s in services && s.serviceId == bs.serviceId;
      assert s in after;
    }
  }

  /** Deleting a booking together with its booked services keeps the store consistent. */
  lemma BookingDeletionKeepsConsistency(guests: seq<Guest>, categories: seq<RoomCategory>, rooms: seq<Room>,
                                        bookings: seq<Booking>, services: seq<Service>,
                                        bookedServices: seq<BookedService>, users: seq<User>, id: int)
    requires Consistent(guests, categories, rooms, bookings, services, bookedServices, users)
    ensures Consistent(guests, categories, rooms, Filter(bookings, NotBookingId(id)), services,
                       Filter(bookedServices, NotOfBooking(id)), users)
  {
    UniqueKeysFilter(bookings, BookingKey, NotBookingId(id));
    UniqueKeysFilter(bookedServices, BookedServiceKey, NotOfBooking(id));
    var after := Filter(bookings, NotBookingId(id));
    forall bs | bs in Filter(bookedServices, NotOfBooking(id))
      ensures exists b :: b in after && b.bookingId == bs.bookingId
    {
      var b :| b in bookings && b.bookingId == bs.bookingId;
      assert b in after;
    }
  }

  /** Deleting a guest together with the guest's bookings and the services booked
      under them (the store's cascade) keeps the store consistent. */
  lemma GuestDeletionKeepsConsistency(guests: seq<Guest>, categories: seq<RoomCategory>, rooms: seq<Room>,
                                      bookings: seq<Booking>, services: seq<Service>,
                                      bookedServices: seq<BookedService>, users: seq<User>, id: int)
    requires Consistent(guests, categories, rooms, bookings, services, bookedServices, users)
    ensures Consistent(Filter(guests, NotGuestId(id)), categories, rooms, Filter(bookings, NotOfGuest(id)), services,
                       Filter(bookedServices, NotOfBookings(GuestBookingIds(bookings, id))), users)
  {
    var ids := GuestBookingIds(bookings, id);
    UniqueKeysFilter(guests, GuestKey, NotGuestId(id));
    UniqueKeysFilter(bookings, BookingKey, NotOfGuest(id));
    UniqueKeysFilter(bookedServices, BookedServiceKey, NotOfBookings(ids));
    var guestsAfter := Filter(guests, NotGuestId(id));
    var bookingsAfter := Filter(bookings, NotOfGuest(id));
    forall b | b in bookingsAfter ensures exists g :: g in guestsAfter && g.guestId == b.guestId {
      var g :| g in guests && g.guestId == b.guestId;
      assert g in guestsAfter;
    }
    forall b | b in bookingsAfter ensures exists r :: r in rooms && r.roomId == b.roomId {
      assert b in bookings;
    }
    forall bs | bs in Filter(bookedServices, NotOfBookings(ids))
      ensures exists b :: b in bookingsAfter && b.bookingId == bs.bookingId
    {
      var b :| b in bookings && b.bookingId == bs.bookingId;
      assert b.guestId != id;
      assert b in bookingsAfter;
    }
  }

  /** Removing a booked service or a user keeps the store consistent. */
  lemma LeafDeletionKeepsConsistency(guests: seq<Guest>, categories: seq<RoomCategory>, rooms: seq<Room>,
                                     bookings: seq<Booking>, services: seq<Service>,
                                     bookedServices: seq<BookedService>, users: seq<User>, id: int)
    requires Consistent(guests, categories, rooms, bookings, services, bookedServices, users)
    ensures Consistent(guests, categories, rooms, bookings, services,
                       Filter(bookedServices, NotBookedServiceId(id)), users)
    ensures Consistent(guests, categories, rooms, bookings, services, bookedServices, Filter(users, NotUserId(id)))
  {
    UniqueKeysFilter(bookedServices, BookedServiceKey, NotBookedServiceId(id));
    UniqueKeysFilter(users, UserKey, NotUserId(id));
  }

  /** Overwriting a user row keeps the store consistent. */
  lemma UserUpdateKeepsConsistency(guests: seq<Guest>, categories: seq<RoomCategory>, rooms: seq<Room>,
                                   bookings: seq<Booking>, services: seq<Service>,
                                   bookedServices: seq<BookedService>, users: seq<User>, updated: User)
    requires Consistent(guests, categories, rooms, bookings, services, bookedServices, users)
    ensures Consistent(guests, categories, rooms, bookings, services, bookedServices, ReplaceUser(users, updated))
  {
    UniqueKeysReplace(users, ReplaceUser(users, updated), UserKey, updated);
  }

  /** Overwriting a booking row with one whose room and guest exist keeps the store
      consistent. */
  lemma BookingUpdateKeepsConsistency(guests: seq<Guest>, categories: seq<RoomCategory>, rooms: seq<Room>,
                                      bookings: seq<Booking>, services: seq<Service>,
                                      bookedServices: seq<BookedService>, users: seq<User>, updated: Booking)
    requires Consistent(guests, categories, rooms, bookings, services, bookedServices, users)
    requires RoomById(rooms, updated.roomId).Some? && GuestById(guests, updated.guestId).Some?
    ensures Consistent(guests, categories, rooms, ReplaceBooking(bookings, updated), services, bookedServices, users)
  {
    var after := ReplaceBooking(bookings, updated);
    UniqueKeysReplace(bookings, after, BookingKey, updated);
    ReplaceKeepsKeys(bookings, after, BookingKey, updated);
    forall b | b in after ensures exists r :: r in rooms && r.roomId == b.roomId {
      if b == updated {
        assert RoomById(rooms, updated.roomId).value in rooms;
      }
    }
    forall b | b in after ensures exists g :: g in guests && g.guestId == b.guestId {
      if b == updated {
        assert GuestById(guests, updated.guestId).value in guests;
      }
    }
    forall bs | bs in bookedServices ensures exists b :: b in after && b.bookingId == bs.bookingId {
      var b :| b in bookings && b.bookingId == bs.bookingId;
      var y :| y in after && BookingKey(y) == BookingKey(b);
    }
  }

  /** Overwriting a room row with one that carries its category row keeps the store
      consistent. */
  lemma RoomUpdateKeepsConsistency(guests: seq<Guest>, categories: seq<RoomCategory>, rooms: seq<Room>,
                                   bookings: seq<Booking>, services: seq<Service>,
                                   bookedServices: seq<BookedService>, users: seq<User>, updated: Room)
    requires Consistent(guests, categories, rooms, bookings, services, bookedServices, users)
    requires updated.roomCategory == CategoryById(categories, updated.roomCategoryId)
    requires updated.roomCategory.Some?
    ensures Consistent(guests, categories, ReplaceRoom(rooms, updated), bookings, services, bookedServices, users)
  {
    var after := ReplaceRoom(rooms, updated);
    UniqueKeysReplace(rooms, after, RoomKey, updated);
    ReplaceKeepsKeys(rooms, after, RoomKey, updated);
    forall b | b in bookings ensures exists r :: r in after && r.roomId == b.roomId {
      var r :| r in rooms && r.roomId == b.roomId;
      var y :| y in after && RoomKey(y) == RoomKey(r);
    }
  }

  /** Appending a booking with a fresh key, an existing room and an existing guest
      keeps the store consistent. */
  lemma BookingInsertKeepsConsistency(guests: seq<Guest>, categories: seq<RoomCategory>, rooms: seq<Room>,
                                      bookings: seq<Booking>, services: seq<Service>,
                                      bookedServices: seq<BookedService>, users: seq<User>, added: Booking)
    requires Consistent(guests, categories, rooms, bookings, services, bookedServices, users)
    requires BookingById(bookings, added.bookingId).None? && RoomById(rooms, added.roomId).Some?
    requires GuestById(guests, added.guestId).Some?
    ensures Consistent(guests, categories, rooms, bookings + [added], services, bookedServices, users)
  {
    var after := bookings + [added];
    assert RoomById(rooms, added.roomId).value in rooms;
    assert GuestById(guests, added.guestId).value in guests;
    forall bs | bs in bookedServices ensures exists b :: b in after && b.bookingId == bs.bookingId {
      var b :| b in bookings && b.bookingId == bs.bookingId;
      assert b in after;
    }
  }

  /** A guest the table does not hold has no bookings in a consistent store. */
  lemma AbsentGuestHasNoBookings(guests: seq<Guest>, bookings: seq<Booking>, id: int)
    requires BookingsHaveGuests(guests, bookings)
    requires GuestById(guests, id).None?
    ensures forall b :: b in bookings ==> b.guestId != id
  {
    forall b | b in bookings ensures b.guestId != id {
      var g :| g in guests && g.guestId == b.guestId;
    }
  }

  /** 1 + the largest booking key in the table (1 for an empty table). */
  function NextBookingId(bookings: seq<Booking>): (id: int)
    ensures id >= 1
    ensures forall b :: b in bookings ==> b.bookingId < id
    decreases |bookings|
  {
    if bookings == [] then 1
    else
      var rest := NextBookingId(bookings[1..]);
      assert forall b :: b in bookings ==> b == bookings[0] || b in bookings[1..];
      if bookings[0].bookingId >= rest then bookings[0].bookingId + 1 else rest
  }

  /** The key SQLite's AUTOINCREMENT gives a new booking row: one more than the
      larger of the largest key the table ever held (sequence) and the largest key
      it holds now. A key once used is never given again, even after its row was
      deleted. */
  function GeneratedBookingKey(sequence: nat, bookings: seq<Booking>): (id: int)
    ensures id > sequence && id >= 1
    ensures forall b :: b in bookings ==> b.bookingId < id
  {
    var next := NextBookingId(bookings);
    if next > sequence + 1 then next else sequence + 1
  }

  /** Every stored booking key is one the sequence has counted. */
  ghost predicate SequenceCovers(bookings: seq<Booking>, sequence: nat)
  {
    forall b :: b in bookings ==> b.bookingId <= sequence
  }

  /** Bookings 1, 2 and 3 were stored and 3 was deleted: the next booking gets key 4,
      not the 3 that 1 + the largest stored key would give. */
  lemma DeletedKeyIsNotReused(b1: Booking, b2: Booking)
    requires b1.bookingId == 1 && b2.bookingId == 2
    ensures NextBookingId([b1, b2]) == 3
    ensures GeneratedBookingKey(3, [b1, b2]) == 4
  {
    assert [b2][1..] == [];
    assert NextBookingId([b2]) == 3;
    assert [b1, b2][1..] == [b2];
  }

  /** Overwriting a stored row keeps every stored key counted: the new row brings
      the key of the row it replaces. */
  lemma SequenceCoversReplace(bookings: seq<Booking>, sequence: nat, updated: Booking)
    requires SequenceCovers(bookings, sequence)
    ensures SequenceCovers(ReplaceBooking(bookings, updated), sequence)
  {
    var r := ReplaceBooking(bookings, updated);
    forall b | b in r ensures b.bookingId <= sequence {
      var k :| 0 <= k < |r| && r[k] == b;
      assert bookings[k] in bookings;
    }
  }

  /** Deleting rows keeps every remaining key counted. */
  lemma SequenceCoversFilter(bookings: seq<Booking>, sequence: nat, keep: Booking -> bool)
    requires SequenceCovers(bookings, sequence)
    ensures SequenceCovers(Filter(bookings, keep), sequence)
  {
  }

  /** Appending a row and moving the sequence up to its key keeps every stored key
      counted. */
  lemma SequenceCoversAppend(bookings: seq<Booking>, sequence: nat, added: Booking)
    requires SequenceCovers(bookings, sequence)
    ensures SequenceCovers(bookings + [added], if added.bookingId > sequence then added.bookingId else sequence)
  {
  }

  class HotelDb {
    var guests: seq<Guest>
    var categories: seq<RoomCategory>
    var rooms: seq<Room>
    var bookings: seq<Booking>
    var services: seq<Service>
    var bookedServices: seq<BookedService>
    var users: seq<User>
    /** The largest booking key the table ever held (SQLite's sqlite_sequence row). */
    var bookingSequence: nat

    /** The store's keys are unique, its foreign keys resolve, and the booking
        sequence has counted every stored booking key. */
    ghost predicate Valid()
      reads this
    {
      && Consistent(guests, categories, rooms, bookings, services, bookedServices, users)
      && SequenceCovers(bookings, bookingSequence)
    }

    constructor Empty()
      ensures Valid()
      ensures guests == [] && categories == [] && rooms == [] && bookings == []
      ensures services == [] && bookedServices == [] && users == [] && bookingSequence == 0
    {
      guests, categories, rooms, bookings := [], [], [], [];
      services, bookedServices, users := [], [], [];
      bookingSequence := 0;
    }

    /** DeleteRoomAsync: a room that any booking refers to, whatever its status, is
        refused; an unknown id is ignored. */
    method DeleteRoom(roomId: int) returns (outcome: Outcome)
      modifies this`rooms
      ensures outcome.Failed? <==>
        RoomById(old(rooms), roomId).Some? && exists b :: b in bookings && b.roomId == roomId
      ensures outcome.Failed? ==> outcome.error == RoomHasBookings && rooms == old(rooms)
      ensures outcome.Done? ==> rooms == Filter(old(rooms), NotRoomId(roomId))
      ensures old(Valid()) ==> Valid()
    {
      var room := RoomById(rooms, roomId);
      if room.Some? {
        var hasBookings := exists b :: b in bookings && b.roomId == roomId;
        if hasBookings {
          return Failed(RoomHasBookings);
        }
        if Valid() {
          RoomDeletionKeepsConsistency(guests, categories, rooms, bookings, services, bookedServices, users, roomId);
        }
        rooms := Filter(rooms, NotRoomId(roomId));
      } else {
        FilterKeepsAll(rooms, NotRoomId(roomId));
      }
      return Done;
    }

    /** DeleteRoomCategoryAsync: a category any room belongs to is refused; an
        unknown id is ignored. */
    method DeleteRoomCategory(categoryId: int) returns (outcome: Outcome)
      modifies this`categories
      ensures outcome.Failed? <==>
        CategoryById(old(categories), categoryId).Some? && exists r :: r in rooms && r.roomCategoryId == categoryId
      ensures outcome.Failed? ==> outcome.error == CategoryHasRooms && categories == old(categories)
      ensures outcome.Done? ==> categories == Filter(old(categories), NotCategoryId(categoryId))
      ensures old(Valid()) ==> Valid()
    {
      var category := CategoryById(categories, categoryId);
      if category.Some? {
        var hasRooms := exists r :: r in rooms && r.roomCategoryId == categoryId;
        if hasRooms {
          return Failed(CategoryHasRooms);
        }
        if Valid() {
          CategoryDeletionKeepsConsistency(guests, categories, rooms, bookings, services, bookedServices, users, categoryId);
        }
        categories := Filter(categories, NotCategoryId(categoryId));
      } else {
        FilterKeepsAll(categories, NotCategoryId(categoryId));
      }
      return Done;
    }

    /** DeleteServiceAsync: a service that was ever booked is refused; an unknown id
        is ignored. */
    method DeleteService(serviceId: int) returns (outcome: Outcome)
      modifies this`services
      ensures outcome.Failed? <==>
        ServiceById(old(services), serviceId).Some? && exists bs :: bs in bookedServices && bs.serviceId == serviceId
      ensures outcome.Failed? ==> outcome.error == ServiceWasBooked && services == old(services)
      ensures outcome.Done? ==> services == Filter(old(services), NotServiceId(serviceId))
      ensures old(Valid()) ==> Valid()
    {
      var service := ServiceById(services, serviceId);
      if service.Some? {
        var hasBookedServices := exists bs :: bs in bookedServices && bs.serviceId == serviceId;
        if hasBookedServices {
          return Failed(ServiceWasBooked);
        }
        if Valid() {
          ServiceDeletionKeepsConsistency(guests, categories, rooms, bookings, services, bookedServices, users, serviceId);
        }
        services := Filter(services, NotServiceId(serviceId));
      } else {
        FilterKeepsAll(services, NotServiceId(serviceId));
      }
      return Done;
    }

    /** DeleteBookingAsync: the booking goes, together with every service booked under
        it; an unknown id changes nothing (not even booked services that name it). */
    method DeleteBooking(bookingId: int)
      modifies this`bookings, this`bookedServices
      ensures BookingById(old(bookings), bookingId).None? ==>
        bookings == old(bookings) && bookedServices == old(bookedServices)
      ensures BookingById(old(bookings), bookingId).Some? ==>
        bookings == Filter(old(bookings), NotBookingId(bookingId)) &&
        bookedServices == Filter(old(bookedServices), NotOfBooking(bookingId))
      ensures old(Valid()) ==> Valid()
    {
      var booking := BookingById(bookings, bookingId);
      if booking.Some? {
        bookedServices := Filter(bookedServices, NotOfBooking(bookingId));
        bookings := Filter(bookings, NotBookingId(bookingId));
        BookingCascadeKeepsValid(bookingId);
      }
    }

    /** A valid store stays valid when a booking and its booked services are deleted. */
    twostate lemma BookingCascadeKeepsValid(bookingId: int)
      requires bookings == Filter(old(bookings), NotBookingId(bookingId))
      requires bookedServices == Filter(old(bookedServices), NotOfBooking(bookingId))
      requires guests == old(guests) && categories == old(categories) && rooms == old(rooms)
      requires services == old(services) && users == old(users) && bookingSequence == old(bookingSequence)
      ensures old(Valid()) ==> Valid()
    {
      if old(Valid()) {
        BookingDeletionKeepsConsistency(guests, categories, rooms, old(bookings), services, old(bookedServices), users, bookingId);
        SequenceCoversFilter(old(bookings), bookingSequence, NotBookingId(bookingId));
      }
    }

    /** A valid store stays valid through the guest cascade. */
    twostate lemma GuestCascadeKeepsValid(guestId: int)
      requires guests == Filter(old(guests), NotGuestId(guestId))
      requires bookings == Filter(old(bookings), NotOfGuest(guestId))
      requires bookedServices == Filter(old(bookedServices), NotOfBookings(GuestBookingIds(old(bookings), guestId)))
      requires categories == old(categories) && rooms == old(rooms) && services == old(services)
      requires users == old(users) && bookingSequence == old(bookingSequence)
      ensures old(Valid()) ==> Valid()
    {
      if old(Valid()) {
        GuestDeletionKeepsConsistency(old(guests), categories, rooms, old(bookings), services, old(bookedServices), users, guestId);
        SequenceCoversFilter(old(bookings), bookingSequence, NotOfGuest(guestId));
      }
    }

    /** DeleteGuestAsync: removes the guest if there is one. The foreign key of a
        booking to its guest is required and cascades, so the store also deletes the
        guest's bookings and, cascading again, the services booked under them. */
    method DeleteGuest(guestId: int)
      modifies this`guests, this`bookings, this`bookedServices
      ensures guests == Filter(old(guests), NotGuestId(guestId))
      ensures GuestById(old(guests), guestId).None? ==>
        bookings == old(bookings) && bookedServices == old(bookedServices)
      ensures GuestById(old(guests), guestId).Some? ==>
        bookings == Filter(old(bookings), NotOfGuest(guestId)) &&
        bookedServices == Filter(old(bookedServices), NotOfBookings(GuestBookingIds(old(bookings), guestId)))
      ensures old(Valid()) ==> Valid() && forall b :: b in bookings ==> b.guestId != guestId
    {
      var guest := GuestById(guests, guestId);
      if guest.Some? {
        bookedServices := Filter(bookedServices, NotOfBookings(GuestBookingIds(bookings, guestId)));
        bookings := Filter(bookings, NotOfGuest(guestId));
        guests := Filter(guests, NotGuestId(guestId));
        GuestCascadeKeepsValid(guestId);
      } else {
        FilterKeepsAll(guests, NotGuestId(guestId));
        if Valid() {
          AbsentGuestHasNoBookings(guests, bookings, guestId);
        }
      }
    }

    /** DeleteBookedServiceAsync: removes the booked service if there is one. */
    method DeleteBookedService(bookedServiceId: int)
      modifies this`bookedServices
      ensures bookedServices == Filter(old(bookedServices), NotBookedServiceId(bookedServiceId))
      ensures old(Valid()) ==> Valid()
    {
      var bookedService := BookedServiceById(bookedServices, bookedServiceId);
      if bookedService.Some? {
        if Valid() {
          LeafDeletionKeepsConsistency(guests, categories, rooms, bookings, services, bookedServices, users, bookedServiceId);
        }
        bookedServices := Filter(bookedServices, NotBookedServiceId(bookedServiceId));
      } else {
        FilterKeepsAll(bookedServices, NotBookedServiceId(bookedServiceId));
      }
    }

    /** DeleteUserAsync: removes the user if there is one. */
    method DeleteUser(userId: int)
      modifies this`users
      ensures users == Filter(old(users), NotUserId(userId))
      ensures old(Valid()) ==> Valid()
    {
      var user := UserById(users, userId);
      if user.Some? {
        if Valid() {
          LeafDeletionKeepsConsistency(guests, categories, rooms, bookings, services, bookedServices, users, userId);
        }
        users := Filter(users, NotUserId(userId));
      } else {
        FilterKeepsAll(users, NotUserId(userId));
      }
    }

    /** UpdateUserAsync: overwrites the user's row but keeps the stored password hash;
        an unknown id is a KeyNotFoundException. The source also writes the stored
        hash into the caller's object before saving; `written` is that object after
        the call (the argument itself on failure). */
    method UpdateUser(user: User) returns (outcome: Outcome, written: User)
      modifies this`users
      ensures outcome.Failed? <==> UserById(old(users), user.userId).None?
      ensures outcome.Failed? ==> outcome.error == UserNotFound && users == old(users) && written == user
      ensures outcome.Done? ==>
        written == user.(passwordHash := UserById(old(users), user.userId).value.passwordHash) &&
        users == ReplaceUser(old(users), written)
      ensures old(Valid()) ==> Valid()
    {
      var existing := UserById(users, user.userId);
      if existing.None? {
        return Failed(UserNotFound), user;
      }
      written := user.(passwordHash := existing.value.passwordHash);
      if Valid() {
        UserUpdateKeepsConsistency(guests, categories, rooms, bookings, services, bookedServices, users, written);
      }
      users := ReplaceUser(users, written);
      return Done, written;
    }

    /** UpdateBookingAsync: the row with the booking's key is overwritten; if the store
        has no such row, nothing changes and the update fails. */
    method UpdateBooking(booking: Booking) returns (outcome: Outcome)
      modifies this`bookings
      ensures outcome.Failed? <==> BookingById(old(bookings), booking.bookingId).None?
      ensures outcome.Failed? ==> outcome.error == NoSuchRow && bookings == old(bookings)
      ensures outcome.Done? ==> bookings == ReplaceBooking(old(bookings), booking)
      ensures old(Valid()) && RoomById(rooms, booking.roomId).Some? && GuestById(guests, booking.guestId).Some? ==> Valid()
    {
      if BookingById(bookings, booking.bookingId).None? {
        return Failed(NoSuchRow);
      }
      bookings := ReplaceBooking(bookings, booking);
      if RoomById(rooms, booking.roomId).Some? && GuestById(guests, booking.guestId).Some? {
        BookingReplacementKeepsValid(booking);
      }
      return Done;
    }

    /** A valid store stays valid when a booking row is overwritten by one whose
        room and guest exist. */
    twostate lemma BookingReplacementKeepsValid(booking: Booking)
      requires RoomById(rooms, booking.roomId).Some? && GuestById(guests, booking.guestId).Some?
      requires bookings == ReplaceBooking(old(bookings), booking)
      requires guests == old(guests) && categories == old(categories) && rooms == old(rooms) && services == old(services)
      requires bookedServices == old(bookedServices) && users == old(users) && bookingSequence == old(bookingSequence)
      ensures old(Valid()) ==> Valid()
    {
      if old(Valid()) {
        BookingUpdateKeepsConsistency(guests, categories, rooms, old(bookings), services, bookedServices, users, booking);
        SequenceCoversReplace(old(bookings), bookingSequence, booking);
      }
    }

    /** UpdateRoomAsync: the row with the room's key is overwritten (with the category
        its key names); if the store has no such row, nothing changes and the update fails. */
    method UpdateRoom(room: Room) returns (outcome: Outcome)
      modifies this`rooms
      ensures outcome.Failed? <==> RoomById(old(rooms), room.roomId).None?
      ensures outcome.Failed? ==> outcome.error == NoSuchRow && rooms == old(rooms)
      ensures outcome.Done? ==>
        rooms == ReplaceRoom(old(rooms), StoredRoom(categories, room))
      ensures old(Valid()) && CategoryById(categories, room.roomCategoryId).Some? ==> Valid()
    {
      if RoomById(rooms, room.roomId).None? {
        return Failed(NoSuchRow);
      }
      var stored := StoredRoom(categories, room);
      if Valid() && stored.roomCategory.Some? {
        RoomUpdateKeepsConsistency(guests, categories, rooms, bookings, services, bookedServices, users, stored);
      }
      rooms := ReplaceRoom(rooms, stored);
      return Done;
    }

    /** A valid store stays valid when a booking whose key is free and whose room
        and guest exist is appended and the sequence moves up to its key. */
    twostate lemma BookingInsertKeepsValid(booking: Booking)
      requires BookingById(old(bookings), booking.bookingId).None?
      requires RoomById(rooms, booking.roomId).Some? && GuestById(guests, booking.guestId).Some?
      requires bookings == old(bookings) + [booking]
      requires bookingSequence == if booking.bookingId > old(bookingSequence) then booking.bookingId else old(bookingSequence)
      requires guests == old(guests) && categories == old(categories) && rooms == old(rooms) && services == old(services)
      requires bookedServices == old(bookedServices) && users == old(users)
      ensures old(Valid()) ==> Valid()
    {
      if old(Valid()) {
        BookingInsertKeepsConsistency(guests, categories, rooms, old(bookings), services, bookedServices, users, booking);
        SequenceCoversAppend(old(bookings), old(bookingSequence), booking);
      }
    }

    /** AddBookingAsync: a booking with key 0 is stored under the key AUTOINCREMENT
        generates; a booking that brings a key already taken is refused. The
        sequence then counts the stored key. */
    method AddBooking(booking: Booking) returns (outcome: Outcome, stored: Booking)
      modifies this`bookings, this`bookingSequence
      ensures outcome.Failed? <==> booking.bookingId != 0 && BookingById(old(bookings), booking.bookingId).Some?
      ensures outcome.Failed? ==> outcome.error == DuplicateKey && bookings == old(bookings) && bookingSequence == old(bookingSequence)
      ensures outcome.Done? ==>
        stored == booking.(bookingId := if booking.bookingId == 0 then GeneratedBookingKey(old(bookingSequence), old(bookings)) else booking.bookingId) &&
        BookingById(old(bookings), stored.bookingId).None? &&
        bookings == old(bookings) + [stored] &&
        bookingSequence == (if stored.bookingId > old(bookingSequence) then stored.bookingId else old(bookingSequence))
      ensures outcome.Done? && booking.bookingId == 0 ==> stored.bookingId > old(bookingSequence)
      ensures old(Valid()) && RoomById(rooms, booking.roomId).Some? && GuestById(guests, booking.guestId).Some? ==> Valid()
    {
      stored := booking;
      if booking.bookingId != 0 && BookingById(bookings, booking.bookingId).Some? {
        return Failed(DuplicateKey), stored;
      }
      if booking.bookingId == 0 {
        stored := booking.(bookingId := GeneratedBookingKey(bookingSequence, bookings));
      }
      bookings := bookings + [stored];
      bookingSequence := if stored.bookingId > bookingSequence then stored.bookingId else bookingSequence;
      if RoomById(rooms, booking.roomId).Some? && GuestById(guests, booking.guestId).Some? {
        BookingInsertKeepsValid(stored);
      }
      return Done, stored;
    }
  }
}
