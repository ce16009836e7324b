/** The bookings page (BookingsPage): the list of bookings it shows, the
    selected booking, the lifecycle buttons, and the handlers that move a
    booking through its states and keep the room's status in step.
    Each handler is one atomic step; the confirmation dialog's answer and the
    current day are parameters. */
module BookingsView {
  import opened Models
  import opened Seqs
  import opened Database

  /** The moves of the booking lifecycle: a confirmed booking is checked in or
      cancelled, a checked-in booking is checked out or cancelled. */
  predicate CanMove(from: BookingStatus, to: BookingStatus)
  {
    match (from, to)
    case (Confirmed, CheckedIn) => true
    case (Confirmed, Cancelled) => true
    case (CheckedIn, CheckedOut) => true
    case (CheckedIn, Cancelled) => true
    case _ => false
  }

  /** Cancelled and checked-out bookings are closed. */
  predicate IsClosed(s: BookingStatus)
  {
    s == Cancelled || s == CheckedOut
  }

  /** A booking is closed exactly when the lifecycle allows it no further move, and
      the lifecycle never returns to Confirmed. */
  lemma ClosedBookingsNeverMove(s: BookingStatus)
    ensures IsClosed(s) <==> forall t :: !CanMove(s, t)
    ensures forall t :: !CanMove(t, Confirmed)
  {
    if !IsClosed(s) {
      assert CanMove(s, Cancelled);
    }
  }

  /** Which of the page's buttons are enabled. */
  datatype Buttons = Buttons(edit: bool, cancel: bool, checkIn: bool, checkOut: bool)

  /** UpdateButtonStates: with a booking selected, edit is enabled, and each
      lifecycle button exactly when its move is allowed (check-in also not before
      the check-in day); with nothing selected every button is disabled. */
  function ButtonStatesFor(selected: Option<Booking>, today: int): (b: Buttons)
    ensures b.edit <==> selected.Some?
    ensures b.cancel <==> selected.Some? && CanMove(selected.value.status, Cancelled)
    ensures b.checkIn <==>
      selected.Some? && CanMove(selected.value.status, CheckedIn) && DayOf(selected.value.checkInDate) <= today
    ensures b.checkOut <==> selected.Some? && CanMove(selected.value.status, CheckedOut)
  {
    var isSelected := selected.Some?;
    Buttons(
      isSelected,
      isSelected && selected.value.status != Cancelled && selected.value.status != CheckedOut,
      isSelected && selected.value.status == Confirmed && DayOf(selected.value.checkInDate) <= today,
      isSelected && selected.value.status == CheckedIn)
  }

  /** The messages the handlers show instead of acting. */
  datatype Notice =
    | NothingSelected          // "choose a booking"
    | AlreadyClosed            // the booking is already cancelled or checked out
    | OnlyConfirmed            // check-in is for confirmed bookings only
    | TooEarly(day: int)       // check-in is possible from this day on
    | OnlyCheckedIn            // check-out is for checked-in bookings only
    | BookingGone              // the store no longer has the booking
    | StatusChanged            // the stored booking's status no longer allows the move
    | RoomMissing              // the booking's room is not in the store
    | RoomNotReady(status: RoomStatus)  // the room is neither free nor being cleaned
    | SaveFailed               // the store refused the new booking

  /** How a handler ended: it did its work, the user declined the confirmation
      dialog, or it showed a notice. */
  datatype Reply = Completed | Dismissed | Refused(notice: Notice)

  /** The first check of CancelBooking_Click, made on the booking as shown. */
  function CancelRefusal(shown: Booking): (n: Option<Notice>)
    ensures n.None? <==> CanMove(shown.status, Cancelled)
    ensures n.Some? ==> n.value == AlreadyClosed
  {
    if shown.status == Cancelled || shown.status == CheckedOut then Some(AlreadyClosed) else None
  }

  /** The first checks of CheckIn_Click, made on the booking as shown, in order. */
  function CheckInRefusal(shown: Booking, today: int): (n: Option<Notice>)
    ensures n.None? <==> CanMove(shown.status, CheckedIn) && DayOf(shown.checkInDate) <= today
    ensures shown.status != Confirmed ==> n == Some(OnlyConfirmed)
    ensures shown.status == Confirmed && DayOf(shown.checkInDate) > today ==> n == Some(TooEarly(DayOf(shown.checkInDate)))
  {
    if shown.status != Confirmed then Some(OnlyConfirmed)
    else if DayOf(shown.checkInDate) > today then Some(TooEarly(DayOf(shown.checkInDate)))
    else None
  }

  /** The first check of CheckOut_Click, made on the booking as shown. */
  function CheckOutRefusal(shown: Booking): (n: Option<Notice>)
    ensures n.None? <==> CanMove(shown.status, CheckedOut)
    ensures n.Some? ==> n.value == OnlyCheckedIn
  {
    if shown.status != CheckedIn then Some(OnlyCheckedIn) else None
  }

  /** An enabled button is never turned away by its handler's first checks, and a
      disabled one always is. */
  lemma {:induction false} ButtonsAgreeWithHandlers(b: Booking, today: int)
    ensures ButtonStatesFor(Some(b), today).cancel <==> CancelRefusal(b).None?
    ensures ButtonStatesFor(Some(b), today).checkIn <==> CheckInRefusal(b, today).None?
    ensures ButtonStatesFor(Some(b), today).checkOut <==> CheckOutRefusal(b).None?
  {
    var buttons := ButtonStatesFor(Some(b), today);
    assert buttons.cancel <==> CanMove(b.status, Cancelled);
    assert buttons.checkIn <==> CanMove(b.status, CheckedIn) && DayOf(b.checkInDate) <= today;
    assert buttons.checkOut <==> CanMove(b.status, CheckedOut);
  }

  function HasBookingId(id: int): Booking -> bool
  {
    (b: Booking) => b.bookingId == id
  }

  /** RefreshBookingInList on a list and the store: the first entry with the
      booking's key is replaced by the stored row if the store still has it and
      removed if not; every other entry stays where it was. */
  function Refreshed(list: seq<Booking>, bookingId: int, store: seq<Booking>): (r: seq<Booking>)
    ensures FindIndex(list, HasBookingId(bookingId)) == -1 ==> r == list
    ensures var i := FindIndex(list, HasBookingId(bookingId));
      i != -1 && BookingById(store, bookingId).Some? ==>
        |r| == |list| && r[i] == BookingById(store, bookingId).value &&
        forall k :: 0 <= k < |list| && k != i ==> r[k] == list[k]
    ensures var i := FindIndex(list, HasBookingId(bookingId));
      i != -1 && BookingById(store, bookingId).None? ==>
        |r| == |list| - 1 &&
        (forall k :: 0 <= k < i ==> r[k] == list[k]) &&
        (forall k :: i <= k < |r| ==> r[k] == list[k + 1])
  {
    var i := FindIndex(list, HasBookingId(bookingId));
    if i == -1 then list
    else
      match BookingById(store, bookingId)
      case Some(b) => list[i := b]
      case None => RemoveAt(list, i)
  }

  /** Refreshing twice from the same store, which still has the booking, is
      refreshing once. */
  lemma {:induction false} RefreshIsIdempotent(list: seq<Booking>, bookingId: int, store: seq<Booking>)
    requires BookingById(store, bookingId).Some?
    ensures Refreshed(Refreshed(list, bookingId, store), bookingId, store) == Refreshed(list, bookingId, store)
  {
    var p := HasBookingId(bookingId);
    var i := FindIndex(list, p);
    var once := Refreshed(list, bookingId, store);
    if i != -1 {
      var j := FindIndex(once, p);
      assert p(once[i]);
      assert forall k :: 0 <= k < i ==> once[k] == list[k];
      assert j == i;
      assert once[i := BookingById(store, bookingId).value] == once;
    }
  }

  class BookingsPage {
    /** The Bookings collection the list view shows. */
    var bookings: seq<Booking>
    /** The list view's selected item. */
    var selected: Option<Booking>
    var buttons: Buttons
    /** The page's DatabaseService. */
    const db: HotelDb

    constructor (db: HotelDb, today: int)
      ensures this.db == db
      ensures bookings == [] && selected.None? && buttons == ButtonStatesFor(None, today)
    {
      this.db := db;
      bookings := [];
      selected := None;
      buttons := ButtonStatesFor(None, today);
    }

    /** LoadData: shows the given bookings with nothing selected. */
    method LoadData(list: seq<Booking>, today: int)
      modifies this`bookings, this`selected, this`buttons
      ensures bookings == list && selected.None? && buttons == ButtonStatesFor(None, today)
    {
      bookings := list;
      selected := None;
      UpdateButtonStates(today);
    }

    /** The selection changes (BookingsListView_SelectionChanged). */
    method Select(item: Option<Booking>, today: int)
      modifies this`selected, this`buttons
      ensures selected == item && buttons == ButtonStatesFor(item, today)
    {
      selected := item;
      UpdateButtonStates(today);
    }

    /** UpdateButtonStates. */
    method UpdateButtonStates(today: int)
      modifies this`buttons
      ensures buttons == ButtonStatesFor(selected, today)
    {
      buttons := ButtonStatesFor(selected, today);
    }

    /** The page after RefreshBookingInList: the list is refreshed from the store, the
        re-read row (if any) is selected, and the buttons follow the selection. */
    twostate predicate ShowsRefreshed(bookingId: int, today: int)
      reads this, db
    {
      && bookings == Refreshed(old(bookings), bookingId, db.bookings)
      && selected ==
        (if FindIndex(old(bookings), HasBookingId(bookingId)) != -1 && BookingById(db.bookings, bookingId).Some?
         then BookingById(db.bookings, bookingId) else old(selected))
      && buttons == ButtonStatesFor(selected, today)
    }

    /** RefreshBookingInList: re-reads the booking from the store into the list,
        selects the re-read row, and recomputes the buttons. */
    method RefreshBookingInList(bookingId: int, today: int)
      modifies this`bookings, this`selected, this`buttons
      ensures ShowsRefreshed(bookingId, today)
    {
      var index := FindIndex(bookings, HasBookingId(bookingId));
      if index != -1 {
        var refreshed := BookingById(db.bookings, bookingId);
        if refreshed.Some? {
          bookings := bookings[index := refreshed.value];
          selected := refreshed;
        } else {
          bookings := RemoveAt(bookings, index);
        }
      }
      UpdateButtonStates(today);
    }

    /** NewBooking_Click after the booking dialog: a booking the dialog returns is
        stamped with the current instant, confirmed, stored, and shown selected,
        with the buttons of the new selection. The store always finds the row just
        added, so the source's message for a booking it cannot read back does not
        arise. */
    method NewBooking(fromDialog: Option<Booking>, now: DateTime, today: int) returns (reply: Reply)
      modifies this`bookings, this`selected, this`buttons, db`bookings, db`bookingSequence
      ensures fromDialog.None? ==>
        reply == Dismissed && unchanged(this) && unchanged(db)
      ensures fromDialog.Some? ==>
        var submitted := fromDialog.value.(bookingDate := now, status := Confirmed);
        if submitted.bookingId != 0 && BookingById(old(db.bookings), submitted.bookingId).Some? then
          reply == Refused(SaveFailed) && unchanged(this) && unchanged(db)
        else
          var stored := submitted.(bookingId :=
            if submitted.bookingId == 0 then GeneratedBookingKey(old(db.bookingSequence), old(db.bookings)) else submitted.bookingId);
          reply == Completed && db.bookings == old(db.bookings) + [stored] &&
          db.bookingSequence == (if stored.bookingId > old(db.bookingSequence) then stored.bookingId else old(db.bookingSequence)) &&
          stored.status == Confirmed && stored.bookingDate == now &&
          bookings == old(bookings) + [stored] && selected == Some(stored) &&
          buttons == ButtonStatesFor(selected, today)
      ensures (old(db.Valid()) && fromDialog.Some? && RoomById(db.rooms, fromDialog.value.roomId).Some? &&
               GuestById(db.guests, fromDialog.value.guestId).Some?) ==> db.Valid()
    {
      if fromDialog.None? {
        return Dismissed;
      }
      var newBooking := fromDialog.value.(bookingDate := now, status := Confirmed);
      var outcome, stored := db.AddBooking(newBooking);
      if outcome.Failed? {
        return Refused(SaveFailed);
      }
      var added := BookingById(db.bookings, stored.bookingId);
      assert added == Some(stored) by {
        assert stored in db.bookings;
        assert forall b :: b in db.bookings && b.bookingId == stored.bookingId ==> b == stored;
      }
      bookings := bookings + [added.value];
      selected := added;
      UpdateButtonStates(today);
      return Completed;
    }

    /** What CancelBooking_Click does once the user has confirmed: the booking is
        re-read; a vanished booking leaves the list, a closed one is refreshed, and
        an open one is cancelled in the store (its room going from occupied to
        cleaning when it was shown as checked in) and refreshed. */
    twostate predicate CancelCommitted(shown: Booking, reply: Reply, today: int)
      reads this, db
    {
      var fetched := BookingById(old(db.bookings), shown.bookingId);
      if fetched.None? then
        reply == Refused(BookingGone) && unchanged(db) &&
        bookings == RemoveFirst(old(bookings), shown) && selected == old(selected) && buttons == old(buttons)
      else if IsClosed(fetched.value.status) then
        reply == Refused(AlreadyClosed) && unchanged(db) &&
        ShowsRefreshed(shown.bookingId, today)
      else
        reply == Completed &&
        db.bookings == ReplaceBooking(old(db.bookings), fetched.value.(status := Cancelled)) &&
        db.rooms == (match RoomFreedByCancel(old(db.rooms), shown, fetched.value)
                     case Some(room) => ReplaceRoom(old(db.rooms), StoredRoom(db.categories, room.(status := Cleaning)))
                     case None => old(db.rooms)) &&
        ShowsRefreshed(shown.bookingId, today)
    }

    /** CancelBooking_Click. A booking shown as cancelled or checked out is refused
        before asking; after confirmation the booking is re-read and refused again if
        the stored row is closed. */
    method CancelBooking(confirmed: bool, today: int) returns (reply: Reply)
      modifies this`bookings, this`selected, this`buttons, db`bookings, db`rooms
      ensures old(selected).None? ==>
        reply == Refused(NothingSelected) && unchanged(this) && unchanged(db)
      ensures old(selected).Some? && CancelRefusal(old(selected).value).Some? ==>
        reply == Refused(AlreadyClosed) && unchanged(this) && unchanged(db)
      ensures old(selected).Some? && CancelRefusal(old(selected).value).None? && !confirmed ==>
        reply == Dismissed && unchanged(this) && unchanged(db)
      ensures old(selected).Some? && CancelRefusal(old(selected).value).None? && confirmed ==>
        CancelCommitted(old(selected).value, reply, today)
      ensures old(db.Valid()) ==> db.Valid()
    {
      if selected.None? {
        return Refused(NothingSelected);
      }
      var shown := selected.value;
      var refusal := CancelRefusal(shown);
      if refusal.Some? {
        return Refused(refusal.value);
      }
      if !confirmed {
        return Dismissed;
      }
      reply := CommitCancel(shown, today);
    }

    method CommitCancel(shown: Booking, today: int) returns (reply: Reply)
      modifies this`bookings, this`selected, this`buttons, db`bookings, db`rooms
      ensures CancelCommitted(shown, reply, today)
      ensures old(db.Valid()) ==> db.Valid()
    {
      var fetched := BookingById(db.bookings, shown.bookingId);
      if fetched.None? {
        bookings := RemoveFirst(bookings, shown);
        return Refused(BookingGone);
      }
      if fetched.value.status == Cancelled || fetched.value.status == CheckedOut {
        RefreshBookingInList(shown.bookingId, today);
        return Refused(AlreadyClosed);
      }
      MoveInStore(fetched.value, Cancelled, RoomFreedByCancel(db.rooms, shown, fetched.value), Cleaning);
      RefreshBookingInList(shown.bookingId, today);
      return Completed;
    }

    /** The store writes of a lifecycle move: the stored booking takes status to,
        then the given room, if any, takes status roomTo. */
    method MoveInStore(fetched: Booking, to: BookingStatus, room: Option<Room>, roomTo: RoomStatus)
      requires fetched in db.bookings
      requires room.Some? ==> room.value in db.rooms
      modifies db`bookings, db`rooms
      ensures db.bookings == ReplaceBooking(old(db.bookings), fetched.(status := to))
      ensures db.rooms == if room.Some? then ReplaceRoom(old(db.rooms), StoredRoom(db.categories, room.value.(status := roomTo)))
                          else old(db.rooms)
      ensures old(db.Valid()) ==> db.Valid()
    {
      SaveBookingStatus(fetched, to);
      if room.Some? {
        SaveRoomStatus(room.value, roomTo);
      }
    }

    /** UpdateBookingAsync of a stored booking with a new status. */
    method SaveBookingStatus(fetched: Booking, to: BookingStatus)
      requires fetched in db.bookings
      modifies db`bookings
      ensures db.bookings == ReplaceBooking(old(db.bookings), fetched.(status := to))
      ensures old(db.Valid()) ==> db.Valid()
    {
      if db.Valid() {
        BookingRoomExists(db.rooms, db.bookings, fetched);
        BookingGuestExists(db.guests, db.bookings, fetched);
      }
      var _ := db.UpdateBooking(fetched.(status := to));
    }

    /** UpdateRoomAsync of a stored room with a new status. */
    method SaveRoomStatus(room: Room, to: RoomStatus)
      requires room in db.rooms
      modifies db`rooms
      ensures db.rooms == ReplaceRoom(old(db.rooms), StoredRoom(db.categories, room.(status := to)))
      ensures old(db.Valid()) ==> db.Valid()
    {
      if db.Valid() {
        NavigationIsCategoryRow(db.categories, db.rooms, room);
      }
      var _ := db.UpdateRoom(room.(status := to));
    }

    /** What CheckIn_Click does once the user has confirmed: the booking is re-read;
        a vanished booking leaves the list, a booking no longer confirmed is
        refreshed, a missing room or a room that is neither free nor being cleaned
        stops it; otherwise the booking is checked in, its room occupied, and the
        list refreshed. */
    twostate predicate CheckInCommitted(shown: Booking, reply: Reply, today: int)
      reads this, db
    {
      var fetched := BookingById(old(db.bookings), shown.bookingId);
      if fetched.None? then
        reply == Refused(BookingGone) && unchanged(db) &&
        bookings == RemoveFirst(old(bookings), shown) && selected == old(selected) && buttons == old(buttons)
      else if fetched.value.status != Confirmed then
        reply == Refused(StatusChanged) && unchanged(db) &&
        ShowsRefreshed(shown.bookingId, today)
      else
        var room := RoomById(old(db.rooms), fetched.value.roomId);
        if room.None? then
          reply == Refused(RoomMissing) && unchanged(this) && unchanged(db)
        else if room.value.status != Free && room.value.status != Cleaning then
          reply == Refused(RoomNotReady(room.value.status)) && unchanged(this) && unchanged(db)
        else
          reply == Completed &&
          db.bookings == ReplaceBooking(old(db.bookings), fetched.value.(status := CheckedIn)) &&
          db.rooms == ReplaceRoom(old(db.rooms), StoredRoom(db.categories, room.value.(status := Occupied))) &&
          ShowsRefreshed(shown.bookingId, today)
    }

    /** CheckIn_Click. Only a booking shown as confirmed whose check-in day has come
        is offered for check-in; the re-read booking must still be confirmed. */
    method CheckIn(confirmed: bool, today: int) returns (reply: Reply)
      modifies this`bookings, this`selected, this`buttons, db`bookings, db`rooms
      ensures old(selected).None? ==>
        reply == Refused(NothingSelected) && unchanged(this) && unchanged(db)
      ensures old(selected).Some? && CheckInRefusal(old(selected).value, today).Some? ==>
        reply == Refused(CheckInRefusal(old(selected).value, today).value) && unchanged(this) && unchanged(db)
      ensures old(selected).Some? && CheckInRefusal(old(selected).value, today).None? && !confirmed ==>
        reply == Dismissed && unchanged(this) && unchanged(db)
      ensures old(selected).Some? && CheckInRefusal(old(selected).value, today).None? && confirmed ==>
        CheckInCommitted(old(selected).value, reply, today)
      ensures old(db.Valid()) ==> db.Valid()
    {
      if selected.None? {
        return Refused(NothingSelected);
      }
      var shown := selected.value;
      var refusal := CheckInRefusal(shown, today);
      if refusal.Some? {
        return Refused(refusal.value);
      }
      if !confirmed {
        return Dismissed;
      }
      reply := CommitCheckIn(shown, today);
    }

    method CommitCheckIn(shown: Booking, today: int) returns (reply: Reply)
      modifies this`bookings, this`selected, this`buttons, db`bookings, db`rooms
      ensures CheckInCommitted(shown, reply, today)
      ensures old(db.Valid()) ==> db.Valid()
    {
      var fetched := BookingById(db.bookings, shown.bookingId);
      if fetched.None? {
        bookings := RemoveFirst(bookings, shown);
        return Refused(BookingGone);
      }
      if fetched.value.status != Confirmed {
        RefreshBookingInList(shown.bookingId, today);
        return Refused(StatusChanged);
      }
      var room := RoomById(db.rooms, fetched.value.roomId);
      if room.None? {
        return Refused(RoomMissing);
      }
      if room.value.status != Free && room.value.status != Cleaning {
        return Refused(RoomNotReady(room.value.status));
      }
      MoveInStore(fetched.value, CheckedIn, room, Occupied);
      RefreshBookingInList(shown.bookingId, today);
      return Completed;
    }

    /** What CheckOut_Click does once the user has confirmed: the booking is re-read;
        a vanished booking leaves the list, a booking no longer checked in is
        refreshed; otherwise the booking is checked out, its room (if the store has
        it) goes to cleaning, and the list is refreshed. */
    twostate predicate CheckOutCommitted(shown: Booking, reply: Reply, today: int)
      reads this, db
    {
      var fetched := BookingById(old(db.bookings), shown.bookingId);
      if fetched.None? then
        reply == Refused(BookingGone) && unchanged(db) &&
        bookings == RemoveFirst(old(bookings), shown) && selected == old(selected) && buttons == old(buttons)
      else if fetched.value.status != CheckedIn then
        reply == Refused(StatusChanged) && unchanged(db) &&
        ShowsRefreshed(shown.bookingId, today)
      else
        var room := RoomById(old(db.rooms), fetched.value.roomId);
        reply == Completed &&
        db.bookings == ReplaceBooking(old(db.bookings), fetched.value.(status := CheckedOut)) &&
        db.rooms == (if room.Some? then ReplaceRoom(old(db.rooms), StoredRoom(db.categories, room.value.(status := Cleaning)))
                     else old(db.rooms)) &&
        ShowsRefreshed(shown.bookingId, today)
    }

    /** CheckOut_Click. Only a booking shown as checked in is offered for check-out;
        the re-read booking must still be checked in. */
    method CheckOut(confirmed: bool, today: int) returns (reply: Reply)
      modifies this`bookings, this`selected, this`buttons, db`bookings, db`rooms
      ensures old(selected).None? ==>
        reply == Refused(NothingSelected) && unchanged(this) && unchanged(db)
      ensures old(selected).Some? && CheckOutRefusal(old(selected).value).Some? ==>
        reply == Refused(OnlyCheckedIn) && unchanged(this) && unchanged(db)
      ensures old(selected).Some? && CheckOutRefusal(old(selected).value).None? && !confirmed ==>
        reply == Dismissed && unchanged(this) && unchanged(db)
      ensures old(selected).Some? && CheckOutRefusal(old(selected).value).None? && confirmed ==>
        CheckOutCommitted(old(selected).value, reply, today)
      ensures old(db.Valid()) ==> db.Valid()
    {
      if selected.None? {
        return Refused(NothingSelected);
      }
      var shown := selected.value;
      var refusal := CheckOutRefusal(shown);
      if refusal.Some? {
        return Refused(refusal.value);
      }
      if !confirmed {
        return Dismissed;
      }
      reply := CommitCheckOut(shown, today);
    }

    method CommitCheckOut(shown: Booking, today: int) returns (reply: Reply)
      modifies this`bookings, this`selected, this`buttons, db`bookings, db`rooms
      ensures CheckOutCommitted(shown, reply, today)
      ensures old(db.Valid()) ==> db.Valid()
    {
      var fetched := BookingById(db.bookings, shown.bookingId);
      if fetched.None? {
        bookings := RemoveFirst(bookings, shown);
        return Refused(BookingGone);
      }
      if fetched.value.status != CheckedIn {
        RefreshBookingInList(shown.bookingId, today);
        return Refused(StatusChanged);
      }
      var room := RoomById(db.rooms, fetched.value.roomId);
      MoveInStore(fetched.value, CheckedOut, room, Cleaning);
      RefreshBookingInList(shown.bookingId, today);
      return Completed;
    }
  }

  /** The room a cancellation sends to cleaning: the booking's room, when the booking
      was shown as checked in, has a room key, and the room is occupied. */
  function RoomFreedByCancel(rooms: seq<Room>, shown: Booking, fetched: Booking): (r: Option<Room>)
    ensures r.Some? <==>
      shown.status == CheckedIn && fetched.roomId > 0 &&
      RoomById(rooms, fetched.roomId).Some? && RoomById(rooms, fetched.roomId).value.status == Occupied
    ensures r.Some? ==> r == RoomById(rooms, fetched.roomId)
  {
    if shown.status == CheckedIn && fetched.roomId > 0 then
      match RoomById(rooms, fetched.roomId)
      case Some(room) => if room.status == Occupied then Some(room) else None
      case None => None
    else None
  }
}
