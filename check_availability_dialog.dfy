/** CheckAvailabilityDialog: a search form over the availability query, with a
    busy flag that disables its Find button while a search runs. */
module AvailabilityDialog {
  import opened Models
  import opened Seqs
  import opened Ordering
  import opened Database
  import opened BookingDialog

  /** StatusText. */
  datatype SearchStatus =
    | Prompt              // "Введите даты и нажмите 'Найти'"
    | Searching           // "Поиск..."
    | InvalidDates        // "Ошибка: Дата выезда должна быть позже даты заезда."
    | Found(count: int)   // "Найдено доступных номеров: {count}"
    | NoneFound           // "Свободных номеров на выбранные даты не найдено."
    | SearchFailed        // "Ошибка при поиске: …"
    | CategoriesFailed    // "Ошибка загрузки категорий: …"

  function CategoryNameKey(c: RoomCategory): seq<int> { TextKey(c.name) }

  /** `SelectedCategory?.RoomCategoryId ?? 0`: the category key the search passes on. */
  function CategoryIdOf(selected: Option<RoomCategory>): (id: int)
    ensures selected.None? ==> id == 0
    ensures selected.Some? ==> id == selected.value.roomCategoryId
  {
    if selected.Some? then selected.value.roomCategoryId else 0
  }

  /** Searching offers exactly the rooms a new booking's dialog offers for the same
      dates, whatever category is chosen, because the query ignores the category. */
  lemma SearchMatchesNewBookingChoices(rooms: seq<Room>, bookings: seq<Booking>, checkIn: DateTime, checkOut: DateTime,
                                       selected: Option<RoomCategory>)
    ensures SortBy(AvailableRooms(rooms, bookings, checkIn, checkOut, CategoryIdOf(selected)), RoomNumberKey, true)
         == RoomChoices(rooms, bookings, checkIn, checkOut, 0)
  {
    AvailabilityIgnoresCategory(rooms, bookings, checkIn, checkOut, CategoryIdOf(selected), 0);
  }

  /** Listing the rooms by number keeps their count and every one of them. */
  lemma SortedListKeepsRooms(rooms: seq<Room>)
    ensures |SortBy(rooms, RoomNumberKey, true)| == |rooms|
    ensures forall r :: r in SortBy(rooms, RoomNumberKey, true) <==> r in rooms
  {
    var sorted := SortBy(rooms, RoomNumberKey, true);
    assert |sorted| == |multiset(sorted)| == |rooms|;
    forall r ensures r in sorted <==> r in rooms {
      assert r in sorted <==> r in multiset(sorted);
    }
  }

  class CheckAvailabilityDialog {
    /** The dialog's DatabaseService. */
    const db: HotelDb
    var checkInDate: DateTime
    var checkOutDate: DateTime
    var roomCategories: seq<RoomCategory>
    var availableRooms: seq<Room>
    var selectedCategory: Option<RoomCategory>
    var statusText: SearchStatus
    var isLoading: bool

    /** The dialog opened at the instant now: from today to tomorrow, idle, with
        nothing found yet. */
    constructor (db: HotelDb, now: DateTime)
      ensures this.db == db
      ensures checkInDate == DateOf(now) && checkOutDate == AddDays(DateOf(now), 1)
      ensures roomCategories == [] && availableRooms == [] && selectedCategory.None?
      ensures statusText == Prompt && !isLoading && IsFindButtonEnabled()
    {
      this.db := db;
      checkInDate := DateOf(now);
      checkOutDate := AddDays(DateOf(now), 1);
      roomCategories := [];
      availableRooms := [];
      selectedCategory := None;
      statusText := Prompt;
      isLoading := false;
    }

    /** IsFindButtonEnabled: the button is enabled exactly when no search runs. */
    predicate IsFindButtonEnabled()
      reads this
    {
      !isLoading
    }

    /** LoadCategoriesAsync: the categories by name, or the load error when the
        store fails (storeFault). */
    method LoadCategories(storeFault: bool)
      modifies this`roomCategories, this`statusText
      ensures storeFault ==> roomCategories == old(roomCategories) && statusText == CategoriesFailed
      ensures !storeFault ==> roomCategories == SortBy(db.categories, CategoryNameKey, true) && statusText == old(statusText)
    {
      if storeFault {
        statusText := CategoriesFailed;
        return;
      }
      var categories := SortBy(db.categories, CategoryNameKey, true);
      roomCategories := [];
      var i := 0;
      while i < |categories|
        invariant 0 <= i <= |categories|
        invariant roomCategories == categories[..i]
        invariant statusText == old(statusText)
      {
        roomCategories := roomCategories + [categories[i]];
        i := i + 1;
      }
      assert categories[..|categories|] == categories;
    }

    /** AvailableRooms is filled by adding the rooms one by one. */
    method ShowRooms(rooms: seq<Room>)
      modifies this`availableRooms
      ensures availableRooms == old(availableRooms) + rooms
    {
      var i := 0;
      while i < |rooms|
        invariant 0 <= i <= |rooms|
        invariant availableRooms == old(availableRooms) + rooms[..i]
      {
        availableRooms := availableRooms + [rooms[i]];
        i := i + 1;
      }
      assert rooms[..|rooms|] == rooms;
    }

    /** FindButton_Click. Dates out of order stop the search before any query;
        otherwise the query's answer is listed by room number and counted, or the
        store's failure (storeFault) is reported. Every path ends with the dialog
        idle and the Find button enabled. */
    method FindButtonClick(storeFault: bool)
      modifies this`availableRooms, this`isLoading, this`statusText
      ensures !isLoading && IsFindButtonEnabled()
      ensures checkOutDate <= checkInDate ==> statusText == InvalidDates && availableRooms == []
      ensures checkOutDate > checkInDate && storeFault ==> statusText == SearchFailed && availableRooms == []
      ensures checkOutDate > checkInDate && !storeFault ==>
        var found := AvailableRooms(db.rooms, db.bookings, checkInDate, checkOutDate, CategoryIdOf(selectedCategory));
        && availableRooms == SortBy(found, RoomNumberKey, true)
        && statusText == (if |found| > 0 then Found(|found|) else NoneFound)
      ensures statusText.Found? ==> statusText.count == |availableRooms| > 0
      ensures statusText == NoneFound ==> availableRooms == []
      ensures forall r :: r in availableRooms ==>
        (r in db.rooms && r.status != Maintenance && !RoomIsBooked(db.bookings, r.roomId, checkInDate, checkOutDate))
    {
      availableRooms := [];
      isLoading := true;
      statusText := Searching;
      if checkOutDate <= checkInDate {
        statusText := InvalidDates;
        isLoading := false;
        return;
      }
      if storeFault {
        statusText := SearchFailed;
        isLoading := false;
        return;
      }
      var categoryId := CategoryIdOf(selectedCategory);
      var rooms := AvailableRooms(db.rooms, db.bookings, checkInDate, checkOutDate, categoryId);
      if |rooms| > 0 {
        ShowRooms(SortBy(rooms, RoomNumberKey, true));
        SortedListKeepsRooms(rooms);
        statusText := Found(|rooms|);
      } else {
        statusText := NoneFound;
      }
      isLoading := false;
    }
  }
}
