/** RoomsPage: the room list and its column-header sort. */
module RoomsView {
  import opened Models
  import opened Seqs
  import opened Ordering

  /** The columns SortColumn_Click knows, by the button tags that name them. */
  datatype SortColumn = CategoryName | CategoryCapacity | CategoryPrice | RoomNumber | Floor | Status

  /** The column a tag names, if it names one. */
  function ColumnOf(tag: string): (c: Option<SortColumn>)
    ensures c == Some(CategoryName) <==> tag == "RoomCategory.Name"
    ensures c == Some(CategoryCapacity) <==> tag == "RoomCategory.Capacity"
    ensures c == Some(CategoryPrice) <==> tag == "RoomCategory.BasePricePerNight"
    ensures c == Some(RoomNumber) <==> tag == "RoomNumber"
    ensures c == Some(Floor) <==> tag == "Floor"
    ensures c == Some(Status) <==> tag == "Status"
  {
    if tag == "RoomCategory.Name" then Some(CategoryName)
    else if tag == "RoomCategory.Capacity" then Some(CategoryCapacity)
    else if tag == "RoomCategory.BasePricePerNight" then Some(CategoryPrice)
    else if tag == "RoomNumber" then Some(RoomNumber)
    else if tag == "Floor" then Some(Floor)
    else if tag == "Status" then Some(Status)
    else None
  }

  /** The sort key of a column. A missing category's name (null) sorts before every
      name, its capacity and price count as 0; the status sorts by its ordinal. */
  function SortKey(column: SortColumn): (k: Room -> seq<int>)
    ensures column !in {CategoryName, RoomNumber} ==> forall r: Room :: |k(r)| == 1
    ensures column == CategoryName ==> forall r: Room :: k(r) == [] <==> r.roomCategory.None?
  {
    match column
    case CategoryName => (r: Room) => if r.roomCategory.None? then [] else [0] + TextKey(r.roomCategory.value.name)
    case CategoryCapacity => (r: Room) => [if r.roomCategory.None? then 0 else r.roomCategory.value.capacity]
    case CategoryPrice => (r: Room) => [if r.roomCategory.None? then 0 else r.roomCategory.value.basePricePerNight]
    case RoomNumber => (r: Room) => TextKey(r.roomNumber)
    case Floor => (r: Room) => [r.floor]
    case Status => (r: Room) => [RoomStatusOrdinal(r.status)]
  }

  /** A room without a category sorts by capacity and by price exactly as a room
      whose category has capacity 0 and price 0, and by category name before every
      room with a category. */
  lemma MissingCategorySortsAsZero(r: Room, c: RoomCategory, withCategory: Room)
    requires r.roomCategory.None? && withCategory.roomCategory.Some?
    ensures SortKey(CategoryCapacity)(r) == SortKey(CategoryCapacity)(r.(roomCategory := Some(c.(capacity := 0))))
    ensures SortKey(CategoryPrice)(r) == SortKey(CategoryPrice)(r.(roomCategory := Some(c.(basePricePerNight := 0))))
    ensures LexLess(SortKey(CategoryName)(r), SortKey(CategoryName)(withCategory))
  {
  }

  /** Sorting by a single-number key orders the rooms by that number. */
  lemma NumberKeyOrder(a: int, b: int)
    ensures LexLess([a], [b]) <==> a < b
  {
    assert [a][1..] == [] && [b][1..] == [];
  }

  /** Sorting by name compares the names and nothing else. */
  lemma NameKeyOrder(x: seq<int>, y: seq<int>)
    ensures LexLess([0] + x, [0] + y) <==> LexLess(x, y)
  {
    assert ([0] + x)[1..] == x && ([0] + y)[1..] == y;
  }

  /** The sort state: the current column's tag and the direction. */
  datatype SortState = SortState(column: string, ascending: bool)

  /** The direction step of SortColumn_Click: the current column flips the
      direction, any other column becomes current and ascending. */
  function NextSortState(s: SortState, tag: string): (t: SortState)
    ensures t.column == tag
    ensures t.ascending <==> s.column != tag || !s.ascending
  {
    if s.column == tag then SortState(tag, !s.ascending) else SortState(tag, true)
  }

  /** Clicking the same column twice restores its direction; a first click on a
      column always sorts ascending. */
  lemma SortToggleProperties(s: SortState, tag: string)
    ensures NextSortState(NextSortState(s, tag), tag).ascending == !NextSortState(s, tag).ascending
    ensures s.column != tag ==> NextSortState(s, tag).ascending
    ensures NextSortState(NextSortState(NextSortState(s, tag), tag), tag) == NextSortState(s, tag)
  {
  }

  class RoomsPage {
    var rooms: seq<Room>
    var currentSortColumn: string
    var isAscending: bool

    constructor ()
      ensures rooms == [] && currentSortColumn == "" && isAscending
    {
      rooms := [];
      currentSortColumn := "";
      isAscending := true;
    }

    /** LoadData: shows the rooms and resets the sort state to no column, ascending. */
    method LoadData(list: seq<Room>)
      modifies this`rooms, this`currentSortColumn, this`isAscending
      ensures rooms == list && currentSortColumn == "" && isAscending
    {
      rooms := list;
      currentSortColumn := "";
      isAscending := true;
    }

    /** SortColumn_Click. A click without a text tag does nothing. Otherwise the sort
        state steps first; a known column then re-sorts the rooms by its key in the
        new direction (a stable sort: a permutation, in order, ties kept in their
        old order), while an unknown column leaves the rooms as they were with the
        sort state already moved. */
    method SortColumnClick(tag: Option<string>)
      modifies this`rooms, this`currentSortColumn, this`isAscending
      ensures tag.None? ==> unchanged(this)
      ensures tag.Some? ==>
        SortState(currentSortColumn, isAscending) == NextSortState(SortState(old(currentSortColumn), old(isAscending)), tag.value)
      ensures tag.Some? && ColumnOf(tag.value).Some? ==>
        rooms == SortBy(old(rooms), SortKey(ColumnOf(tag.value).value), isAscending)
      ensures tag.Some? && ColumnOf(tag.value).None? ==> rooms == old(rooms)
      ensures multiset(rooms) == multiset(old(rooms))
      ensures tag.Some? && ColumnOf(tag.value).Some? ==> Sorted(rooms, SortKey(ColumnOf(tag.value).value), isAscending)
      ensures tag.Some? && ColumnOf(tag.value).Some? ==> forall k ::
        Filter(rooms, KeyIs(SortKey(ColumnOf(tag.value).value), k)) == Filter(old(rooms), KeyIs(SortKey(ColumnOf(tag.value).value), k))
    {
      if tag.None? {
        return;
      }
      var sortProperty := tag.value;
      if currentSortColumn == sortProperty {
        isAscending := !isAscending;
      } else {
        currentSortColumn := sortProperty;
        isAscending := true;
      }
      var column := ColumnOf(sortProperty);
      if column.None? {
        return;
      }
      forall k ensures Filter(SortBy(rooms, SortKey(column.value), isAscending), KeyIs(SortKey(column.value), k))
                    == Filter(rooms, KeyIs(SortKey(column.value), k)) {
        SortByIsStable(rooms, SortKey(column.value), isAscending, k);
      }
      rooms := SortBy(rooms, SortKey(column.value), isAscending);
    }
  }
}
