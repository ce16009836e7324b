/** AddEditBookingDialog: the dialog that collects a booking's guest, room and
    dates, offers the rooms that are free for the dates, estimates the price,
    and refuses to close on incomplete input. */
module BookingDialog {
  import opened Models
  import opened Seqs
  import opened Ordering
  import opened Database

  // ---------------------------------------------------------------- dates and price

  /** The nights UpdatePriceDisplay charges: the whole calendar days between the
      two dates, raised to one for a stay that ends later on the day it begins. */
  function Nights(checkIn: DateTime, checkOut: DateTime): (n: int)
    ensures checkOut > checkIn ==> n >= 1
    ensures checkOut <= checkIn ==> n <= 0
  {
    var nights := DayOf(checkOut) - DayOf(checkIn);
    if nights <= 0 && checkOut > checkIn then 1 else nights
  }

  /** The nights charged are within one day of the stay's length, and exactly its
      length in days when both dates are midnights (as the date pickers give). */
  lemma {:induction false} NightsMeasureTheStay(checkIn: DateTime, checkOut: DateTime)
    requires checkIn < checkOut
    ensures (Nights(checkIn, checkOut) - 1) * SecondsPerDay < checkOut - checkIn < (Nights(checkIn, checkOut) + 1) * SecondsPerDay
    ensures checkIn % SecondsPerDay == 0 && checkOut % SecondsPerDay == 0 ==>
      Nights(checkIn, checkOut) * SecondsPerDay == checkOut - checkIn
  {
    var di, dout := DayOf(checkIn), DayOf(checkOut);
    assert checkIn == di * SecondsPerDay + checkIn % SecondsPerDay;
    assert checkOut == dout * SecondsPerDay + checkOut % SecondsPerDay;
    var n := Nights(checkIn, checkOut);
    if dout == di {
      assert n == 1;
    } else {
      assert n == dout - di;
      assert (n - 1) * SecondsPerDay == dout * SecondsPerDay - di * SecondsPerDay - SecondsPerDay;
      assert (n + 1) * SecondsPerDay == dout * SecondsPerDay - di * SecondsPerDay + SecondsPerDay;
      assert n * SecondsPerDay == dout * SecondsPerDay - di * SecondsPerDay;
    }
  }

  /** TotalPriceDisplay: "Цена не рассчитана", "Проверьте даты", or the estimate
      ("Примерная цена: … (… ночей)") with its total and nights. */
  datatype PriceDisplay = NotCalculated | CheckDates | Estimate(total: Money, nights: int)

  /** What UpdatePriceDisplay shows for a selected room and the dates. An estimate
      appears exactly when a room with a loaded category is selected and the stay
      ends after it begins; it charges the category's nightly rate for at least one
      night; the "check the dates" text can never appear. */
  function Quote(room: Option<Room>, checkIn: DateTime, checkOut: DateTime): (q: PriceDisplay)
    ensures q.Estimate? <==> room.Some? && room.value.roomCategory.Some? && checkOut > checkIn
    ensures q.Estimate? ==>
      q.nights == Nights(checkIn, checkOut) && q.nights >= 1 &&
      q.total == q.nights * room.value.roomCategory.value.basePricePerNight
    ensures q != CheckDates
  {
    if room.Some? && room.value.roomCategory.Some? && checkOut > checkIn then
      var nights := Nights(checkIn, checkOut);
      if nights > 0 then Estimate(nights * room.value.roomCategory.value.basePricePerNight, nights)
      else CheckDates
    else NotCalculated
  }

  /** The TotalPrice that goes with a display: the estimate, or 0. */
  function QuotedTotal(q: PriceDisplay): Money
  {
    if q.Estimate? then q.total else 0
  }

  // ---------------------------------------------------------------- validation

  /** The messages ValidateInput and ContentDialog_PrimaryButtonClick show. */
  datatype ValidationError =
    | NoGuest                // "Пожалуйста, выберите гостя."
    | NoRoom                 // "Пожалуйста, выберите номер."
    | DatesOutOfOrder        // "Дата выезда должна быть позже даты заезда."
    | GuestAndRoomRequired   // "Необходимо выбрать гостя и номер."

  /** ValidateInput's verdict: the input passes exactly when a guest and a room are
      selected and the stay ends after it begins; otherwise the first failing check
      (guest, then room, then dates) names the error. */
  function Validation(guest: Option<Guest>, room: Option<Room>, checkIn: DateTime, checkOut: DateTime): (e: Option<ValidationError>)
    ensures e.None? <==> guest.Some? && room.Some? && checkOut > checkIn
    ensures guest.None? ==> e == Some(NoGuest)
    ensures guest.Some? && room.None? ==> e == Some(NoRoom)
    ensures e == Some(DatesOutOfOrder) <==> guest.Some? && room.Some? && checkOut <= checkIn
    ensures e != Some(GuestAndRoomRequired)
  {
    if guest.None? then Some(NoGuest)
    else if room.None? then Some(NoRoom)
    else if checkOut <= checkIn then Some(DatesOutOfOrder)
    else None
  }

  // ---------------------------------------------------------------- SetField

  /** SetField: the field takes the value, and a change is reported (and the
      caller's follow-up runs) exactly when the two differ; an equal value leaves
      the field as it was. */
  function SetField<T(==)>(field: T, value: T): (r: (T, bool))
    ensures r.0 == value
    ensures r.1 <==> field != value
    ensures !r.1 ==> r.0 == field
  {
    if field == value then (field, false) else (value, true)
  }

  /** SetField's equality for the Guest and Room properties, which is reference
      equality (the model classes do not override Equals). Every row object the
      dialog holds comes from a query of its own, and a query materialises new
      objects, so two of them are the same object only when both are null. */
  predicate SameReference<T>(a: Option<T>, b: Option<T>)
  {
    a.None? && b.None?
  }

  // ---------------------------------------------------------------- room and guest lists

  function RoomNumberKey(r: Room): seq<int> { TextKey(r.roomNumber) }

  function RoomIdIs(id: int): Room -> bool { (r: Room) => r.roomId == id }

  function GuestIdIs(id: int): Guest -> bool { (g: Guest) => g.guestId == id }

  /** The availability answer in room-number order, as LoadAvailableRoomsAsync
      copies it into AvailableRooms. */
  function ListedRooms(rooms: seq<Room>, bookings: seq<Booking>, checkIn: DateTime, checkOut: DateTime): seq<Room>
  {
    SortBy(AvailableRooms(rooms, bookings, checkIn, checkOut, 0), RoomNumberKey, true)
  }

  /** A room is listed exactly when it is available for the dates, and the list
      is in room-number order. */
  lemma ListedMeansAvailable(rooms: seq<Room>, bookings: seq<Booking>, checkIn: DateTime, checkOut: DateTime, r: Room)
    ensures r in ListedRooms(rooms, bookings, checkIn, checkOut) <==> r in AvailableRooms(rooms, bookings, checkIn, checkOut, 0)
    ensures Sorted(ListedRooms(rooms, bookings, checkIn, checkOut), RoomNumberKey, true)
  {
    var l := ListedRooms(rooms, bookings, checkIn, checkOut);
    assert r in l <==> r in multiset(l);
  }

  /** AvailableRooms after LoadAvailableRoomsAsync: the available rooms in
      room-number order and, when editing a booking whose room they do not include,
      that room (if the store still has it) in front. */
  function RoomChoices(rooms: seq<Room>, bookings: seq<Booking>, checkIn: DateTime, checkOut: DateTime, originalRoomId: int): (c: seq<Room>)
    ensures c == ListedRooms(rooms, bookings, checkIn, checkOut) ||
            (|c| > 0 && c[0].roomId == originalRoomId && c[1..] == ListedRooms(rooms, bookings, checkIn, checkOut))
    ensures originalRoomId <= 0 ==> c == ListedRooms(rooms, bookings, checkIn, checkOut)
  {
    var listed := ListedRooms(rooms, bookings, checkIn, checkOut);
    if originalRoomId > 0 && FirstWhere(listed, RoomIdIs(originalRoomId)).None? then
      match RoomById(rooms, originalRoomId)
      case Some(original) => [original] + listed
      case None => listed
    else
      listed
  }

  /** What the room list offers: only stored rooms; every room available for the
      dates; besides them only the booking's own room, and that only when the store
      has it and it is not available; that room whenever the store has it; and all
      in room-number order except the booking's own room placed in front. */
  lemma RoomChoicesOffer(rooms: seq<Room>, bookings: seq<Booking>, checkIn: DateTime, checkOut: DateTime, originalRoomId: int)
    ensures var c := RoomChoices(rooms, bookings, checkIn, checkOut, originalRoomId);
      && (forall r :: r in c ==> r in rooms)
      && (forall r :: r in c <==>
           r in AvailableRooms(rooms, bookings, checkIn, checkOut, 0) ||
           (originalRoomId > 0 && RoomById(rooms, originalRoomId) == Some(r) &&
            forall a :: a in AvailableRooms(rooms, bookings, checkIn, checkOut, 0) ==> a.roomId != originalRoomId))
      && (originalRoomId > 0 && RoomById(rooms, originalRoomId).Some? ==>
           exists r :: r in c && r.roomId == originalRoomId)
      && (originalRoomId > 0 && RoomById(rooms, originalRoomId).Some? &&
          (forall a :: a in AvailableRooms(rooms, bookings, checkIn, checkOut, 0) ==> a.roomId != originalRoomId) ==>
           c == [RoomById(rooms, originalRoomId).value] + ListedRooms(rooms, bookings, checkIn, checkOut))
      && (Sorted(c, RoomNumberKey, true) ||
           (|c| > 0 && c[0].roomId == originalRoomId && Sorted(c[1..], RoomNumberKey, true)))
  {
    var listed := ListedRooms(rooms, bookings, checkIn, checkOut);
    forall r ensures r in listed <==> r in AvailableRooms(rooms, bookings, checkIn, checkOut, 0) {
      ListedMeansAvailable(rooms, bookings, checkIn, checkOut, r);
    }
    var c := RoomChoices(rooms, bookings, checkIn, checkOut, originalRoomId);
    if c != listed {
      assert c[1..] == listed;
    }
  }

  /** No room is offered twice, so the booking's own room appears once when editing. */
  lemma RoomChoicesAreDistinct(rooms: seq<Room>, bookings: seq<Booking>, checkIn: DateTime, checkOut: DateTime, originalRoomId: int)
    requires UniqueKeys(rooms, RoomKey)
    ensures UniqueKeys(RoomChoices(rooms, bookings, checkIn, checkOut, originalRoomId), RoomKey)
  {
    var available := AvailableRooms(rooms, bookings, checkIn, checkOut, 0);
    UniqueKeysFilter(rooms, RoomKey, NotBookedAndInService(BookedRoomIds(bookings, checkIn, checkOut)));
    var listed := ListedRooms(rooms, bookings, checkIn, checkOut);
    UniqueKeysPermutation(available, listed, RoomKey);
    var c := RoomChoices(rooms, bookings, checkIn, checkOut, originalRoomId);
    if c != listed {
      assert c[1..] == listed;
      forall j | 1 <= j < |c| ensures RoomKey(c[0]) != RoomKey(c[j]) {
        assert c[j] in listed;
      }
    }
  }

  /** After a load in edit mode the selection is the booking's own room as the store
      has it, whether or not that room is free for the new dates; when the store no
      longer has it, nothing is selected. */
  lemma EditKeepsOriginalRoom(rooms: seq<Room>, bookings: seq<Booking>, checkIn: DateTime, checkOut: DateTime, originalRoomId: int)
    requires UniqueKeys(rooms, RoomKey)
    requires originalRoomId > 0
    ensures FirstWhere(RoomChoices(rooms, bookings, checkIn, checkOut, originalRoomId), RoomIdIs(originalRoomId))
         == RoomById(rooms, originalRoomId)
  {
    RoomChoicesOffer(rooms, bookings, checkIn, checkOut, originalRoomId);
    var c := RoomChoices(rooms, bookings, checkIn, checkOut, originalRoomId);
    var pick := FirstWhere(c, RoomIdIs(originalRoomId));
    var stored := RoomById(rooms, originalRoomId);
    if stored.Some? {
      UniqueKeysSameRow(rooms, RoomKey, pick.value, stored.value);
    }
  }

  /** OrderBy(LastName).ThenBy(FirstName) as one key: the last name's character
      codes, a separator below every character code, then the first name's. */
  function GuestOrderKey(g: Guest): seq<int>
  {
    TextKey(g.lastName) + [-1] + TextKey(g.firstName)
  }

  /** Comparing joined keys compares the first parts and, only where they are equal,
      the second parts. */
  lemma {:induction false} LexLessSeparated(x: seq<int>, y: seq<int>, u: seq<int>, v: seq<int>)
    requires forall i :: 0 <= i < |x| ==> x[i] >= 0
    requires forall i :: 0 <= i < |y| ==> y[i] >= 0
    ensures LexLess(x + [-1] + u, y + [-1] + v) <==> LexLess(x, y) || (x == y && LexLess(u, v))
    decreases |x|
  {
    var a, b := x + [-1] + u, y + [-1] + v;
    if |x| == 0 && |y| == 0 {
      assert a[1..] == u && b[1..] == v;
    } else if |x| > 0 && |y| > 0 && x[0] == y[0] {
      assert a[1..] == x[1..] + [-1] + u && b[1..] == y[1..] + [-1] + v;
      LexLessSeparated(x[1..], y[1..], u, v);
      assert x == [x[0]] + x[1..] && y == [y[0]] + y[1..];
    }
  }

  /** The guest list's order is by last name and, among equal last names, by first
      name. */
  lemma GuestOrderIsLastThenFirst(a: Guest, b: Guest)
    ensures LexLess(GuestOrderKey(a), GuestOrderKey(b)) <==>
      LexLess(TextKey(a.lastName), TextKey(b.lastName)) ||
      (a.lastName == b.lastName && LexLess(TextKey(a.firstName), TextKey(b.firstName)))
  {
    LexLessSeparated(TextKey(a.lastName), TextKey(b.lastName), TextKey(a.firstName), TextKey(b.firstName));
    if TextKey(a.lastName) == TextKey(b.lastName) {
      assert forall i :: 0 <= i < |a.lastName| ==> a.lastName[i] as int == b.lastName[i] as int;
      assert a.lastName == b.lastName;
    }
  }

  /** CurrentBooking after UpdateBookingDetails: the selected guest's and room's ids
      where one is selected, and the quoted total. */
  function WithDetails(b: Booking, guest: Option<Guest>, room: Option<Room>, checkIn: DateTime, checkOut: DateTime): Booking
  {
    b.(guestId := if guest.Some? then guest.value.guestId else b.guestId,
       roomId := if room.Some? then room.value.roomId else b.roomId,
       totalPrice := QuotedTotal(Quote(room, checkIn, checkOut)))
  }

  /** CurrentBooking after the guest step of the initial load: a guest that is
      picked and differs from the one before re-details the booking. */
  function AfterGuestPick(b: Booking, picked: bool, before: Option<Guest>, after: Option<Guest>,
                          room: Option<Room>, checkIn: DateTime, checkOut: DateTime): Booking
  {
    if picked && !SameReference(before, after) then WithDetails(b, after, room, checkIn, checkOut) else b
  }

  /** CurrentBooking after a room selection: a room that differs from the one before
      re-details the booking. */
  function AfterRoomPick(b: Booking, guest: Option<Guest>, before: Option<Room>, after: Option<Room>,
                         checkIn: DateTime, checkOut: DateTime): Booking
  {
    if SameReference(before, after) then b else WithDetails(b, guest, after, checkIn, checkOut)
  }

  /** Opening a booking for editing keeps who stays and where: when the guest found
      in the list and the room found among the choices are the booking's own (or
      absent), the initial load changes only the booking's total, which becomes the
      quote for the room found. */
  lemma EditLoadKeepsBookingKeys(b: Booking, guest: Option<Guest>, room: Option<Room>, checkIn: DateTime, checkOut: DateTime)
    requires guest.Some? ==> guest.value.guestId == b.guestId
    requires room.Some? ==> room.value.roomId == b.roomId
    ensures var total := QuotedTotal(Quote(room, checkIn, checkOut));
            AfterRoomPick(AfterGuestPick(b, true, None, guest, None, checkIn, checkOut), guest, None, room, checkIn, checkOut)
              .(totalPrice := total) == b.(totalPrice := total)
  {
  }

  // ---------------------------------------------------------------- the dialog

  class AddEditBookingDialog {
    var currentBooking: Booking
    const isEditMode: bool
    /** The dialog's DatabaseService. */
    const db: HotelDb
    var guests: seq<Guest>
    var availableRooms: seq<Room>
    var selectedGuest: Option<Guest>
    var selectedRoom: Option<Room>
    var checkInDate: DateTime
    var checkOutDate: DateTime
    var totalPriceDisplay: PriceDisplay
    /** ValidationError with ValidationErrorVisibility: None when collapsed and empty. */
    var validationError: Option<ValidationError>

    /** The dialog for a new booking, opened at the instant now (local time; utcNow
        is the same instant in UTC, which the new Booking takes as its BookingDate):
        from today to tomorrow, confirmed, with nothing chosen. */
    constructor ForNew(db: HotelDb, now: DateTime, utcNow: DateTime)
      ensures this.db == db && !isEditMode
      ensures checkInDate == DateOf(now) && checkOutDate == AddDays(DateOf(now), 1)
      ensures currentBooking == Booking(0, checkInDate, checkOutDate, utcNow, Confirmed, 0, 0, 0)
      ensures guests == [] && availableRooms == [] && selectedGuest.None? && selectedRoom.None?
      ensures totalPriceDisplay == NotCalculated && validationError.None?
    {
      this.db := db;
      isEditMode := false;
      checkInDate := DateOf(now);
      checkOutDate := AddDays(DateOf(now), 1);
      currentBooking := Booking(0, DateOf(now), AddDays(DateOf(now), 1), utcNow, Confirmed, 0, 0, 0);
      guests := [];
      availableRooms := [];
      selectedGuest := None;
      selectedRoom := None;
      totalPriceDisplay := NotCalculated;
      validationError := None;
    }

    /** The dialog for editing a booking: it works on that booking and its dates. */
    constructor ForEdit(db: HotelDb, bookingToEdit: Booking)
      ensures this.db == db && isEditMode
      ensures currentBooking == bookingToEdit
      ensures checkInDate == bookingToEdit.checkInDate && checkOutDate == bookingToEdit.checkOutDate
      ensures guests == [] && availableRooms == [] && selectedGuest.None? && selectedRoom.None?
      ensures totalPriceDisplay == NotCalculated && validationError.None?
    {
      this.db := db;
      currentBooking := bookingToEdit;
      isEditMode := true;
      checkInDate := bookingToEdit.checkInDate;
      checkOutDate := bookingToEdit.checkOutDate;
      guests := [];
      availableRooms := [];
      selectedGuest := None;
      selectedRoom := None;
      totalPriceDisplay := NotCalculated;
      validationError := None;
    }

    /** UpdatePriceDisplay: shows the quote for the selected room and the dates and
        keeps the booking's total in step with it. */
    method UpdatePriceDisplay()
      modifies this`currentBooking, this`totalPriceDisplay
      ensures totalPriceDisplay == Quote(selectedRoom, checkInDate, checkOutDate)
      ensures currentBooking == old(currentBooking).(totalPrice := QuotedTotal(totalPriceDisplay))
      ensures currentBooking.totalPrice ==
        if selectedRoom.Some? && selectedRoom.value.roomCategory.Some? && checkOutDate > checkInDate
        then Nights(checkInDate, checkOutDate) * selectedRoom.value.roomCategory.value.basePricePerNight
        else 0
    {
      if selectedRoom.Some? && selectedRoom.value.roomCategory.Some? && checkOutDate > checkInDate {
        var nights := DayOf(checkOutDate) - DayOf(checkInDate);
        if nights <= 0 && checkOutDate > checkInDate {
          nights := 1;
        }
        if nights > 0 {
          var roomPrice := selectedRoom.value.roomCategory.value.basePricePerNight;
          currentBooking := currentBooking.(totalPrice := nights * roomPrice);
          totalPriceDisplay := Estimate(currentBooking.totalPrice, nights);
        } else {
          // "Проверьте даты": unreachable, a stay that ends after it begins has a night
          assert false;
        }
      } else {
        currentBooking := currentBooking.(totalPrice := 0);
        totalPriceDisplay := NotCalculated;
      }
    }

    /** UpdateBookingDetails: copies the selected guest and room into the booking and
        re-prices it. */
    method UpdateBookingDetails()
      modifies this`currentBooking, this`totalPriceDisplay
      ensures currentBooking == WithDetails(old(currentBooking), selectedGuest, selectedRoom, checkInDate, checkOutDate)
      ensures totalPriceDisplay == Quote(selectedRoom, checkInDate, checkOutDate)
    {
      if selectedGuest.Some? {
        currentBooking := currentBooking.(guestId := selectedGuest.value.guestId);
      }
      if selectedRoom.Some? {
        currentBooking := currentBooking.(roomId := selectedRoom.value.roomId);
      }
      UpdatePriceDisplay();
    }

    /** The SelectedGuest setter. */
    method SetSelectedGuest(value: Option<Guest>) returns (changed: bool)
      modifies this`selectedGuest, this`currentBooking, this`totalPriceDisplay
      ensures selectedGuest == value
      ensures changed <==> !SameReference(old(selectedGuest), value)
      ensures changed ==>
        currentBooking == WithDetails(old(currentBooking), value, selectedRoom, checkInDate, checkOutDate) &&
        totalPriceDisplay == Quote(selectedRoom, checkInDate, checkOutDate)
      ensures !changed ==> currentBooking == old(currentBooking) && totalPriceDisplay == old(totalPriceDisplay)
    {
      changed := !SameReference(selectedGuest, value);
      selectedGuest := value;
      if changed {
        UpdateBookingDetails();
      }
    }

    /** The SelectedRoom setter. */
    method SetSelectedRoom(value: Option<Room>) returns (changed: bool)
      modifies this`selectedRoom, this`currentBooking, this`totalPriceDisplay
      ensures selectedRoom == value
      ensures changed <==> !SameReference(old(selectedRoom), value)
      ensures changed ==>
        currentBooking == WithDetails(old(currentBooking), selectedGuest, value, checkInDate, checkOutDate) &&
        totalPriceDisplay == Quote(value, checkInDate, checkOutDate)
      ensures !changed ==> currentBooking == old(currentBooking) && totalPriceDisplay == old(totalPriceDisplay)
    {
      changed := !SameReference(selectedRoom, value);
      selectedRoom := value;
      if changed {
        UpdateBookingDetails();
      }
    }

    /** The dialog after LoadAvailableRoomsAsync: the room choices for the current
        dates, the booking's own room selected when editing (nothing otherwise), and
        the booking re-detailed when the selection changed. */
    twostate predicate RoomsReloaded()
      reads this, db
    {
      var originalRoomId := if isEditMode then old(currentBooking).roomId else 0;
      && availableRooms == RoomChoices(db.rooms, db.bookings, checkInDate, checkOutDate, originalRoomId)
      && selectedRoom == (if originalRoomId > 0 then FirstWhere(availableRooms, RoomIdIs(originalRoomId)) else None)
      && currentBooking == AfterRoomPick(old(currentBooking), selectedGuest, old(selectedRoom), selectedRoom, checkInDate, checkOutDate)
      && totalPriceDisplay == (if SameReference(old(selectedRoom), selectedRoom) then old(totalPriceDisplay)
                               else Quote(selectedRoom, checkInDate, checkOutDate))
    }

    /** LoadAvailableRoomsAsync. */
    method LoadAvailableRooms()
      modifies this`availableRooms, this`selectedRoom, this`currentBooking, this`totalPriceDisplay
      ensures RoomsReloaded()
    {
      var originalRoomId := if isEditMode then currentBooking.roomId else 0;
      ShowRooms(ListedRooms(db.rooms, db.bookings, checkInDate, checkOutDate));
      if originalRoomId > 0 && FirstWhere(availableRooms, RoomIdIs(originalRoomId)).None? {
        var originalRoom := RoomById(db.rooms, originalRoomId);
        if originalRoom.Some? {
          availableRooms := [originalRoom.value] + availableRooms;
        }
      }
      assert availableRooms == RoomChoices(db.rooms, db.bookings, checkInDate, checkOutDate, originalRoomId);
      var changed;
      if originalRoomId > 0 {
        changed := SetSelectedRoom(FirstWhere(availableRooms, RoomIdIs(originalRoomId)));
      } else {
        changed := SetSelectedRoom(None);
      }
    }

    /** AvailableRooms is cleared and the rooms are added one by one. */
    method ShowRooms(rooms: seq<Room>)
      modifies this`availableRooms
      ensures availableRooms == rooms
    {
      availableRooms := [];
      var i := 0;
      while i < |rooms|
        invariant 0 <= i <= |rooms|
        invariant availableRooms == rooms[..i]
      {
        availableRooms := availableRooms + [rooms[i]];
        i := i + 1;
      }
      assert rooms[..|rooms|] == rooms;
    }

    /** Guests is cleared and the guests are added one by one. */
    method ShowGuests(list: seq<Guest>)
      modifies this`guests
      ensures guests == list
    {
      guests := [];
      var i := 0;
      while i < |list|
        invariant 0 <= i <= |list|
        invariant guests == list[..i]
      {
        guests := guests + [list[i]];
        i := i + 1;
      }
      assert list[..|list|] == list;
    }

    /** HandleDateChange: a check-out before the check-in moves to one day after the
        check-in; then the rooms are reloaded for the dates. */
    method HandleDateChange()
      modifies this`checkOutDate, this`availableRooms, this`selectedRoom, this`currentBooking, this`totalPriceDisplay
      ensures checkOutDate == (if old(checkOutDate) < checkInDate then checkInDate + SecondsPerDay else old(checkOutDate))
      ensures checkOutDate >= checkInDate
      ensures RoomsReloaded()
    {
      if checkOutDate < checkInDate {
        checkOutDate := AddDays(checkInDate, 1);
      }
      LoadAvailableRooms();
    }

    /** The CheckInDate setter. */
    method SetCheckInDate(value: DateTime) returns (changed: bool)
      modifies this`checkInDate, this`checkOutDate, this`availableRooms, this`selectedRoom, this`currentBooking, this`totalPriceDisplay
      ensures (checkInDate, changed) == SetField(old(checkInDate), value)
      ensures !changed ==> unchanged(this)
      ensures changed ==>
        checkOutDate == (if old(checkOutDate) < value then value + SecondsPerDay else old(checkOutDate)) &&
        RoomsReloaded()
    {
      var r := SetField(checkInDate, value);
      changed := r.1;
      if changed {
        checkInDate := r.0;
        HandleDateChange();
      }
    }

    /** The CheckOutDate setter. */
    method SetCheckOutDate(value: DateTime) returns (changed: bool)
      modifies this`checkOutDate, this`availableRooms, this`selectedRoom, this`currentBooking, this`totalPriceDisplay
      ensures changed == SetField(old(checkOutDate), value).1
      ensures !changed ==> unchanged(this)
      ensures changed ==>
        checkOutDate == (if value < checkInDate then checkInDate + SecondsPerDay else value) &&
        RoomsReloaded()
    {
      var r := SetField(checkOutDate, value);
      changed := r.1;
      if changed {
        checkOutDate := r.0;
        HandleDateChange();
      }
    }

    /** In edit mode with a guest key, LoadAndSetInitialDataAsync selects that guest
        from the list, which re-details the booking. */
    method SelectBookingGuest()
      modifies this`selectedGuest, this`currentBooking, this`totalPriceDisplay
      ensures selectedGuest == (if isEditMode && old(currentBooking).guestId > 0
        then FirstWhere(guests, GuestIdIs(old(currentBooking).guestId)) else old(selectedGuest))
      ensures currentBooking == AfterGuestPick(old(currentBooking), isEditMode && old(currentBooking).guestId > 0,
                                               old(selectedGuest), selectedGuest, selectedRoom, checkInDate, checkOutDate)
      ensures totalPriceDisplay ==
        if isEditMode && old(currentBooking).guestId > 0 && !SameReference(old(selectedGuest), selectedGuest)
        then Quote(selectedRoom, checkInDate, checkOutDate) else old(totalPriceDisplay)
    {
      if isEditMode && currentBooking.guestId > 0 {
        var changed := SetSelectedGuest(FirstWhere(guests, GuestIdIs(currentBooking.guestId)));
      }
    }

    /** The guest half of LoadAndSetInitialDataAsync: the guests ordered by last and
        first name, and the booking's guest selected when editing. */
    method LoadGuests()
      modifies this`guests, this`selectedGuest, this`currentBooking, this`totalPriceDisplay
      ensures guests == SortBy(db.guests, GuestOrderKey, true)
      ensures selectedGuest == (if isEditMode && old(currentBooking).guestId > 0
        then FirstWhere(guests, GuestIdIs(old(currentBooking).guestId)) else old(selectedGuest))
      ensures currentBooking == AfterGuestPick(old(currentBooking), isEditMode && old(currentBooking).guestId > 0,
                                               old(selectedGuest), selectedGuest, selectedRoom, checkInDate, checkOutDate)
      ensures totalPriceDisplay ==
        if isEditMode && old(currentBooking).guestId > 0 && !SameReference(old(selectedGuest), selectedGuest)
        then Quote(selectedRoom, checkInDate, checkOutDate) else old(totalPriceDisplay)
    {
      ShowGuests(SortBy(db.guests, GuestOrderKey, true));
      SelectBookingGuest();
    }

    /** LoadAndSetInitialDataAsync: the guests ordered by last and first name, the
        booking's guest selected when editing, the rooms loaded for the dates, and
        the price shown. */
    method LoadAndSetInitialData()
      modifies this`guests, this`selectedGuest, this`availableRooms, this`selectedRoom, this`currentBooking, this`totalPriceDisplay
      ensures guests == SortBy(db.guests, GuestOrderKey, true)
      ensures selectedGuest == (if isEditMode && old(currentBooking).guestId > 0
        then FirstWhere(guests, GuestIdIs(old(currentBooking).guestId)) else old(selectedGuest))
      ensures
        var afterGuest := AfterGuestPick(old(currentBooking), isEditMode && old(currentBooking).guestId > 0,
                                         old(selectedGuest), selectedGuest, old(selectedRoom), checkInDate, checkOutDate);
        var originalRoomId := if isEditMode then afterGuest.roomId else 0;
        && availableRooms == RoomChoices(db.rooms, db.bookings, checkInDate, checkOutDate, originalRoomId)
        && selectedRoom == (if originalRoomId > 0 then FirstWhere(availableRooms, RoomIdIs(originalRoomId)) else None)
        && currentBooking == AfterRoomPick(afterGuest, selectedGuest, old(selectedRoom), selectedRoom, checkInDate, checkOutDate)
                               .(totalPrice := QuotedTotal(totalPriceDisplay))
      ensures totalPriceDisplay == Quote(selectedRoom, checkInDate, checkOutDate)
    {
      LoadGuests();
      ghost var afterGuest := currentBooking;
      LoadRoomsAndPrice();
      assert afterGuest == AfterGuestPick(old(currentBooking), isEditMode && old(currentBooking).guestId > 0,
                                          old(selectedGuest), selectedGuest, old(selectedRoom), checkInDate, checkOutDate);
    }

    /** The room half of LoadAndSetInitialDataAsync: the rooms loaded for the dates
        (the booking's own room selected when editing), then the price shown. */
    method LoadRoomsAndPrice()
      modifies this`availableRooms, this`selectedRoom, this`currentBooking, this`totalPriceDisplay
      ensures
        var originalRoomId := if isEditMode then old(currentBooking).roomId else 0;
        && availableRooms == RoomChoices(db.rooms, db.bookings, checkInDate, checkOutDate, originalRoomId)
        && selectedRoom == (if originalRoomId > 0 then FirstWhere(availableRooms, RoomIdIs(originalRoomId)) else None)
      ensures currentBooking == AfterRoomPick(old(currentBooking), selectedGuest, old(selectedRoom), selectedRoom, checkInDate, checkOutDate)
                                  .(totalPrice := QuotedTotal(totalPriceDisplay))
      ensures totalPriceDisplay == Quote(selectedRoom, checkInDate, checkOutDate)
    {
      LoadAvailableRooms();
      ghost var afterRoom := currentBooking;
      UpdatePriceDisplay();
      assert currentBooking == afterRoom.(totalPrice := QuotedTotal(totalPriceDisplay));
    }

    /** ShowValidationError: the message is shown, and the check fails. */
    method ShowValidationError(e: ValidationError) returns (ok: bool)
      modifies this`validationError
      ensures validationError == Some(e) && !ok
    {
      validationError := Some(e);
      return false;
    }

    /** HideValidationError: the message is cleared and collapsed. */
    method HideValidationError()
      modifies this`validationError
      ensures validationError.None?
    {
      validationError := None;
    }

    /** ValidateInput: shows the first failing check's message and reports whether
        the input passes. */
    method ValidateInput() returns (isValid: bool)
      modifies this`validationError
      ensures validationError == Validation(selectedGuest, selectedRoom, checkInDate, checkOutDate)
      ensures isValid <==> validationError.None?
    {
      HideValidationError();
      if selectedGuest.None? {
        isValid := ShowValidationError(NoGuest);
        return;
      }
      if selectedRoom.None? {
        isValid := ShowValidationError(NoRoom);
        return;
      }
      if checkOutDate <= checkInDate {
        isValid := ShowValidationError(DatesOutOfOrder);
        return;
      }
      return true;
    }

    /** ContentDialog_PrimaryButtonClick: invalid input keeps the dialog open with its
        message; valid input is copied into the booking, and the dialog still stays
        open when the guest or the room carries the key 0. The dialog therefore only
        closes with a guest, a room and a stay that ends after it begins. */
    method PrimaryButtonClick() returns (cancel: bool)
      modifies this`validationError, this`currentBooking
      ensures Validation(selectedGuest, selectedRoom, checkInDate, checkOutDate).Some? ==>
        cancel && currentBooking == old(currentBooking) &&
        validationError == Validation(selectedGuest, selectedRoom, checkInDate, checkOutDate)
      ensures Validation(selectedGuest, selectedRoom, checkInDate, checkOutDate).None? ==>
        currentBooking == old(currentBooking).(guestId := selectedGuest.value.guestId, roomId := selectedRoom.value.roomId,
                                               checkInDate := checkInDate, checkOutDate := checkOutDate) &&
        (cancel <==> currentBooking.guestId == 0 || currentBooking.roomId == 0) &&
        validationError == (if cancel then Some(GuestAndRoomRequired) else None)
      ensures !cancel ==>
        currentBooking.guestId != 0 && currentBooking.roomId != 0 &&
        currentBooking.checkOutDate > currentBooking.checkInDate && validationError.None?
    {
      var isValid := ValidateInput();
      if !isValid {
        return true;
      }
      currentBooking := currentBooking.(guestId := if selectedGuest.Some? then selectedGuest.value.guestId else 0);
      currentBooking := currentBooking.(roomId := if selectedRoom.Some? then selectedRoom.value.roomId else 0);
      currentBooking := currentBooking.(checkInDate := checkInDate, checkOutDate := checkOutDate);
      if currentBooking.guestId == 0 || currentBooking.roomId == 0 {
        var _ := ShowValidationError(GuestAndRoomRequired);
        return true;
      }
      HideValidationError();
      return false;
    }
  }
}
