# Hotel desk: availability, booking lifecycle and booking dialogs

This project models the booking core of a desktop hotel-management application (namespace `App1`). It covers:

- the data-access service (`DatabaseService`) over in-memory tables: lookups by key, the date-range and availability queries, the guarded deletes, the cascades of a booking and of a guest, the keys SQLite's AUTOINCREMENT gives new bookings, and the updates;
- the bookings page: the lifecycle buttons and the cancel, check-in and check-out handlers, which move a booking and its room through their statuses, and the list refresh after each move;
- the add/edit booking dialog: price estimate, date correction, validation, the room list offered for a new or an edited booking, and the change-detecting property setters;
- the availability-check dialog: the search and its busy flag;
- the rooms page: the column-header sort with its direction toggle;
- the login state (`AuthService`).

The modules follow the program's files:

| module | file | source |
|---|---|---|
| `Models` | models.dfy | the entity records and enums, dates as whole seconds, money as minor units |
| `Seqs`, `Ordering` | seqs.dfy, ordering.dfy | LINQ's `Where`, `Distinct`, `Select`, `FindIndex`, `FirstOrDefault` over sequences; `OrderBy`/`OrderByDescending` as a stable insertion sort on keys compared lexicographically |
| `Database` | database.dfy | `Services/DatabaseService.cs`: the store is a class `HotelDb` whose tables are sequence fields; `Valid()` says keys are unique, foreign keys resolve, and the booking sequence has counted every stored booking key |
| `BookingsView` | bookings_page.dfy | `Pages/BookingsPage.xaml.cs` |
| `BookingDialog` | add_edit_booking_dialog.dfy | `Dialogs/AddEditBookingDialog.xaml.cs` |
| `AvailabilityDialog` | check_availability_dialog.dfy | `Dialogs/CheckAvailabilityDialog.xaml.cs` |
| `RoomsView` | rooms_page.dfy | `Pages/RoomsPage.xaml.cs` |
| `Auth` | auth_service.dfy | `Services/AuthService.cs` |

Page and dialog state lives in classes whose methods modify their own fields and the store's tables. The decisions and lists are specification functions, and lemmas relate them. Each event handler is modelled as one atomic step. Its inputs are explicit parameters:
- the user's answer to a confirmation dialog (`confirmed`);
- the booking the add dialog returns (`fromDialog`);
- the current instant or day (`now`, `today`);
- a store failure (`storeFault`).

Where the code and its documentation disagree, the model follows the code:
- The availability query takes a category id but does not filter by it: the filter exists only as a comment (`Services/DatabaseService.cs:497`). `AvailabilityIgnoresCategory` states this, and the availability dialog's search therefore returns the same rooms for every category.
- The query also leaves out rooms under maintenance, not only booked ones.
- Cancelling a checked-in booking sends its room to cleaning only when the booking has a room key and the stored room is occupied.
- The one-night minimum of the price applies only when the check-out instant is after the check-in instant, and only when the room has a category.
- Deleting a room is refused when any booking refers to it, whatever that booking's status (the exception text speaks of active bookings).

## Model

| member | source | states |
|---|---|---|
| Models.DateOf | Dialogs/AddEditBookingDialog.xaml.cs:113 | `.Date` is the midnight that starts the instant's day: at or before the instant, less than a day before it, same day number |
| Models.AddDays | Dialogs/AddEditBookingDialog.xaml.cs:114 | adding n days moves the day number by exactly n |
| Models.RoomStatusOrdinal | Pages/RoomsPage.xaml.cs:83 | the status enum's underlying value, below 4, which is what sorting by status compares |
| Database.GuestById | Services/DatabaseService.cs:25-31 | `FindAsync` by key: a found guest is a stored row with that key; nothing is found exactly when no row has the key |
| Database.CategoryById | Services/DatabaseService.cs:204-210 | category lookup by key: found rows are stored and carry the key; none exactly when no row has it |
| Database.RoomById | Services/DatabaseService.cs:142-151 | `GetRoomByIdAsync`: found rows are stored and carry the key; none exactly when no row has it |
| Database.BookingById | Services/DatabaseService.cs:75-88 | `GetBookingByIdAsync`: found rows are stored and carry the key; none exactly when no row has it |
| Database.ServiceById | Services/DatabaseService.cs:259-265 | service lookup by key: found rows are stored and carry the key; none exactly when no row has it |
| Database.BookedServiceById | Services/DatabaseService.cs:328-338 | booked-service lookup by key: found rows are stored and carry the key; none exactly when no row has it |
| Database.UserById | Services/DatabaseService.cs:409-425 | user lookup by key: found rows are stored and carry the key; none exactly when no row has it |
| Database.ReplaceBooking | Services/DatabaseService.cs:102-109 | an update overwrites each row with the booking's key and keeps every other row at its position |
| Database.ReplaceRoom | Services/DatabaseService.cs:164-171 | an update overwrites each row with the room's key and keeps every other row at its position |
| Database.ReplaceUser | Services/DatabaseService.cs:409-425 | an update overwrites each row with the user's key and keeps every other row at its position |
| Database.StoredRoom | Services/DatabaseService.cs:164-171 | the written room keeps all of the room's own fields; its navigation property, when present, is the stored category its key names |
| Database.BookingsForDateRange | Services/DatabaseService.cs:90-100 | a booking is listed exactly when it is stored and its stay overlaps [start, end) as half-open intervals, whatever its status |
| Database.BookedRoomIds | Services/DatabaseService.cs:484-490 | the ids are distinct, and an id is present exactly when some non-cancelled booking of that room overlaps the range |
| Database.AvailableRooms | Services/DatabaseService.cs:479-501 | a room is returned exactly when it is stored, not under maintenance, and no non-cancelled booking of it overlaps the range |
| Database.NonBlockingBookingIsIgnored | Services/DatabaseService.cs:486 | adding a booking that does not block the range leaves the answer unchanged |
| Database.CancelledBookingNeverBlocks | Services/DatabaseService.cs:486 | a cancelled booking never changes the answer |
| Database.AdjacentStayNeverBlocks | Services/DatabaseService.cs:486 | a stay that ends when the search begins, or begins when it ends, does not make the room unavailable |
| Database.AvailabilityIgnoresCategory | Services/DatabaseService.cs:495-497 | the category argument makes no difference to the answer |
| Database.AvailabilityAgreesWithDateRange | Services/DatabaseService.cs:90-100 | a room in service is available exactly when every booking of it that the date-range query lists is cancelled |
| Database.Room102Scenario | Services/DatabaseService.cs:479-501 | room 102, confirmed for five nights from day 0, is not offered for days 1-3 and is offered for days 6-8 |
| Database.NavigationIsCategoryRow | Services/DatabaseService.cs:142-151 | in a consistent store a room's loaded category is exactly the category row its key finds |
| Database.BookingRoomExists | Services/DatabaseService.cs:164-171 | in a consistent store a booking's room key finds a room |
| Database.BookingGuestExists | Models/Booking.cs:28-33 | in a consistent store a booking's guest key finds a guest |
| Database.AbsentGuestHasNoBookings | Models/Booking.cs:28-33 | in a consistent store a guest key no guest row has is on no booking |
| Database.GuestBookingIds | Services/DatabaseService.cs:50-61 | exactly the keys of the guest's bookings, which the cascade of a guest deletion reaches |
| Database.CategoryDeletionKeepsConsistency | Services/DatabaseService.cs:237-242 | deleting a category that no room uses keeps keys unique and foreign keys resolving |
| Database.RoomDeletionKeepsConsistency | Services/DatabaseService.cs:181-187 | deleting a room that no booking uses keeps the store consistent |
| Database.ServiceDeletionKeepsConsistency | Services/DatabaseService.cs:292-297 | deleting a service that was never booked keeps the store consistent |
| Database.BookingDeletionKeepsConsistency | Services/DatabaseService.cs:115-127 | deleting a booking together with its booked services keeps the store consistent |
| Database.GuestDeletionKeepsConsistency | Services/DatabaseService.cs:50-61 | deleting a guest together with the guest's bookings and the services booked under them, as the required foreign keys cascade, keeps the store consistent |
| Database.LeafDeletionKeepsConsistency | Services/DatabaseService.cs:361-372 | deleting a booked service or a user keeps the store consistent |
| Database.UserUpdateKeepsConsistency | Services/DatabaseService.cs:409-425 | overwriting a user row keeps the store consistent |
| Database.BookingUpdateKeepsConsistency | Services/DatabaseService.cs:102-109 | overwriting a booking with one whose room and guest exist keeps the store consistent |
| Database.RoomUpdateKeepsConsistency | Services/DatabaseService.cs:164-171 | overwriting a room with one that carries its own category row keeps the store consistent |
| Database.BookingInsertKeepsConsistency | Services/DatabaseService.cs:65-73 | appending a booking under a fresh key with an existing room and guest keeps the store consistent |
| Database.NextBookingId | Services/DatabaseService.cs:65-73 | one more than the largest stored booking key: positive and larger than every stored key |
| Database.GeneratedBookingKey | Services/DatabaseService.cs:65-73 | the key AUTOINCREMENT gives a new booking: positive, larger than every key the table ever gave, and larger than every stored key |
| Database.DeletedKeyIsNotReused | Services/DatabaseService.cs:65-73 | with keys 1 and 2 stored after 3 was given and deleted, the next key is 4, not the 3 that one more than the largest stored key gives |
| Database.HotelDb.Empty | Services/DatabaseService.cs:12 | the empty store is consistent and its booking sequence is 0 |
| Database.HotelDb.DeleteRoom | Services/DatabaseService.cs:173-191 | refused with RoomHasBookings exactly when the room exists and any booking refers to it, and the table is then unchanged; otherwise the room's row is gone (an unknown id changes nothing); consistency is kept |
| Database.HotelDb.DeleteRoomCategory | Services/DatabaseService.cs:229-246 | refused with CategoryHasRooms exactly when the category exists and a room belongs to it; otherwise the row is gone; consistency is kept |
| Database.HotelDb.DeleteService | Services/DatabaseService.cs:284-301 | refused with ServiceWasBooked exactly when the service exists and was booked; otherwise the row is gone; consistency is kept |
| Database.HotelDb.DeleteBooking | Services/DatabaseService.cs:111-129 | a stored booking leaves together with every booked service under it; an unknown id changes neither table; consistency is kept |
| Database.HotelDb.DeleteGuest | Services/DatabaseService.cs:50-61 | the guest's row, if any, is removed, and the cascade removes the guest's bookings and the services booked under them; an unknown id changes no table; a valid store stays valid and holds no booking of the guest |
| Database.HotelDb.DeleteBookedService | Services/DatabaseService.cs:361-372 | the booked service's row, if any, is removed; consistency is kept |
| Database.HotelDb.DeleteUser | Services/DatabaseService.cs:444-455 | the user's row, if any, is removed; consistency is kept |
| Database.HotelDb.UpdateUser | Services/DatabaseService.cs:409-425 | an unknown id fails with UserNotFound and changes nothing, the caller's user included; otherwise the caller's user takes the stored password hash and the row is overwritten with it |
| Database.HotelDb.UpdateBooking | Services/DatabaseService.cs:102-109 | the row with the booking's key is overwritten; with no such row the update fails and changes nothing; a valid store stays valid when the new row's room and guest exist |
| Database.HotelDb.UpdateRoom | Services/DatabaseService.cs:164-171 | the row with the room's key is overwritten with the category its key names; with no such row the update fails |
| Database.HotelDb.AddBooking | Services/DatabaseService.cs:65-73 | a booking with key 0 is appended under the key AUTOINCREMENT gives, above every key the table ever gave, and the sequence counts the stored key; one bringing a key already taken is refused with DuplicateKey and changes nothing; a valid store stays valid when the row's room and guest exist |
| BookingsView.ClosedBookingsNeverMove | Pages/BookingsPage.xaml.cs:174-178 | a booking is cancelled or checked out exactly when no lifecycle move leaves it; no move leads back to Confirmed |
| BookingsView.ButtonStatesFor | Pages/BookingsPage.xaml.cs:50-59 | with a selection, edit is enabled and each lifecycle button exactly when its move is allowed (check-in not before the check-in day); without one all are disabled |
| BookingsView.CancelRefusal | Pages/BookingsPage.xaml.cs:174-178 | cancel is turned away, as already closed, exactly when the booking shown may not move to Cancelled |
| BookingsView.CheckInRefusal | Pages/BookingsPage.xaml.cs:243-252 | check-in goes ahead exactly when the booking shown is confirmed and its check-in day has come; otherwise the first failing check's notice |
| BookingsView.CheckOutRefusal | Pages/BookingsPage.xaml.cs:319-323 | check-out goes ahead exactly when the booking shown is checked in |
| BookingsView.ButtonsAgreeWithHandlers | Pages/BookingsPage.xaml.cs:50-59 | each button is enabled exactly when its handler's first checks let the action through |
| BookingsView.Refreshed | Pages/BookingsPage.xaml.cs:375-392 | the first entry with the key is replaced by the stored row, or removed when the store no longer has it; every other entry keeps its place; no such entry, no change |
| BookingsView.RefreshIsIdempotent | Pages/BookingsPage.xaml.cs:375-392 | refreshing twice from a store that has the booking is refreshing once |
| BookingsView.RoomFreedByCancel | Pages/BookingsPage.xaml.cs:215-222 | a cancellation frees a room exactly when the booking was shown checked in, has a room key, and its stored room is occupied |
| BookingsView.BookingsPage.constructor | Pages/BookingsPage.xaml.cs:16-27 | an empty list, nothing selected, every button disabled |
| BookingsView.BookingsPage.LoadData | Pages/BookingsPage.xaml.cs:29-38 | shows the list with nothing selected and the buttons of no selection |
| BookingsView.BookingsPage.Select | Pages/BookingsPage.xaml.cs:45-48 | the selection changes and the buttons follow it |
| BookingsView.BookingsPage.UpdateButtonStates | Pages/BookingsPage.xaml.cs:50-59 | the buttons become those of the current selection |
| BookingsView.BookingsPage.RefreshBookingInList | Pages/BookingsPage.xaml.cs:375-392 | the list becomes Refreshed of the store, the re-read row is selected when there is one, and the buttons follow |
| BookingsView.BookingsPage.NewBooking | Pages/BookingsPage.xaml.cs:70-111 | a booking from the dialog is stamped with the current instant, confirmed, stored under the key AUTOINCREMENT gives, appended to the list and selected, and the buttons follow the new selection for today; a refused insert changes nothing; a dismissed dialog changes nothing; a valid store stays valid when the booking's room and guest exist |
| BookingsView.BookingsPage.CancelBooking | Pages/BookingsPage.xaml.cs:165-232 | nothing selected, an already-closed booking, or no confirmation changes nothing; when confirmed, a vanished booking leaves the list, a closed stored booking is only refreshed, and an open one is cancelled in the store, its occupied room goes to cleaning if it was checked in, and the list is refreshed; consistency is kept |
| BookingsView.BookingsPage.CheckIn | Pages/BookingsPage.xaml.cs:234-308 | refusals for no selection, a non-confirmed booking and an early day change nothing; when confirmed, the re-read booking must still be confirmed and its room free or being cleaned; then the booking is checked in, the room becomes occupied and the list is refreshed |
| BookingsView.BookingsPage.CheckOut | Pages/BookingsPage.xaml.cs:310-373 | only a booking shown checked in goes ahead; when confirmed, the re-read booking must still be checked in; then it is checked out, its room (if stored) goes to cleaning and the list is refreshed |
| BookingsView.BookingsPage.CommitCancel | Pages/BookingsPage.xaml.cs:197-225 | the confirmed part of the cancel handler, as in CancelBooking |
| BookingsView.BookingsPage.CommitCheckIn | Pages/BookingsPage.xaml.cs:269-301 | the confirmed part of the check-in handler, as in CheckIn |
| BookingsView.BookingsPage.CommitCheckOut | Pages/BookingsPage.xaml.cs:341-365 | the confirmed part of the check-out handler, as in CheckOut |
| BookingsView.BookingsPage.MoveInStore | Pages/BookingsPage.xaml.cs:295-299 | the stored booking takes its new status, then the given room its new status; consistency is kept |
| BookingsView.BookingsPage.SaveBookingStatus | Pages/BookingsPage.xaml.cs:212-213 | `UpdateBookingAsync` of the re-read booking with a new status; consistency is kept |
| BookingsView.BookingsPage.SaveRoomStatus | Pages/BookingsPage.xaml.cs:220-221 | `UpdateRoomAsync` of the re-read room with a new status; consistency is kept |
| BookingDialog.Nights | Dialogs/AddEditBookingDialog.xaml.cs:243-244 | at least one night when check-out is after check-in; none or fewer otherwise |
| BookingDialog.NightsMeasureTheStay | Dialogs/AddEditBookingDialog.xaml.cs:243-244 | for a stay the night count is the stay's length in days within one day either way, and exactly its length when both dates are midnights |
| BookingDialog.Quote | Dialogs/AddEditBookingDialog.xaml.cs:239-263 | an estimate exactly when the room has a category and check-out is after check-in, for Nights nights at the category's nightly rate; never "check dates" |
| BookingDialog.Validation | Dialogs/AddEditBookingDialog.xaml.cs:292-299 | no error exactly when a guest and a room are chosen and check-out is after check-in; otherwise the first failing check, in that order |
| BookingDialog.SetField | Dialogs/AddEditBookingDialog.xaml.cs:324-330 | the field takes the new value, and the change is reported exactly when the value differs |
| BookingDialog.ListedMeansAvailable | Dialogs/AddEditBookingDialog.xaml.cs:178-179 | a room is listed exactly when the availability query returns it, and the list is ordered by room number |
| BookingDialog.RoomChoices | Dialogs/AddEditBookingDialog.xaml.cs:177-188 | the choices are the listed rooms, or those with the original room (its key the booking's) put first by `Insert(0, …)`; a new booking is offered only the listed rooms |
| BookingDialog.RoomChoicesOffer | Dialogs/AddEditBookingDialog.xaml.cs:169-209 | the choices are stored rooms: the available ones by number, plus the original room of an edited booking in first place when it is stored but not available |
| BookingDialog.RoomChoicesAreDistinct | Dialogs/AddEditBookingDialog.xaml.cs:182-188 | no room is offered twice |
| BookingDialog.EditKeepsOriginalRoom | Dialogs/AddEditBookingDialog.xaml.cs:192-195 | in edit mode the room selected from the choices is the booking's own room row whenever the store has it |
| BookingDialog.LexLessSeparated | Dialogs/AddEditBookingDialog.xaml.cs:148 | comparing two separator-joined keys compares the first parts, then on a tie the second parts |
| BookingDialog.GuestOrderIsLastThenFirst | Dialogs/AddEditBookingDialog.xaml.cs:148 | guests are ordered by last name, then by first name |
| BookingDialog.AddEditBookingDialog.ForNew | Dialogs/AddEditBookingDialog.xaml.cs:107-121 | a new booking from today's midnight to tomorrow's, confirmed, with nothing chosen |
| BookingDialog.AddEditBookingDialog.ForEdit | Dialogs/AddEditBookingDialog.xaml.cs:124-133 | the dialog works on the given booking and its dates |
| BookingDialog.AddEditBookingDialog.UpdatePriceDisplay | Dialogs/AddEditBookingDialog.xaml.cs:239-263 | the display becomes the quote, and the booking's total becomes nights times the nightly rate, or 0 without an estimate; nothing else changes |
| BookingDialog.AddEditBookingDialog.UpdateBookingDetails | Dialogs/AddEditBookingDialog.xaml.cs:223-236 | the chosen guest's and room's keys go into the booking (an absent choice keeps the old key), then the price is updated |
| BookingDialog.AddEditBookingDialog.SetSelectedGuest | Dialogs/AddEditBookingDialog.xaml.cs:28-38 | the selection takes the value; a change is reported and the details updated unless both old and new are none |
| BookingDialog.AddEditBookingDialog.SetSelectedRoom | Dialogs/AddEditBookingDialog.xaml.cs:42-52 | the same for the room |
| BookingDialog.AddEditBookingDialog.LoadAvailableRooms | Dialogs/AddEditBookingDialog.xaml.cs:169-209 | the room list becomes the room choices for the dates, and the room selection becomes the original room's entry in edit mode, or none |
| BookingDialog.AddEditBookingDialog.HandleDateChange | Dialogs/AddEditBookingDialog.xaml.cs:212-220 | a check-out before the check-in moves to one day after it; then the rooms are reloaded; check-out is never before check-in afterwards |
| BookingDialog.AddEditBookingDialog.SetCheckInDate | Dialogs/AddEditBookingDialog.xaml.cs:56-66 | an equal value changes nothing; a new one is stored and the date change handled |
| BookingDialog.AddEditBookingDialog.SetCheckOutDate | Dialogs/AddEditBookingDialog.xaml.cs:70-80 | an equal value changes nothing; a new one is stored and the date change handled |
| BookingDialog.AddEditBookingDialog.SelectBookingGuest | Dialogs/AddEditBookingDialog.xaml.cs:151-154 | in edit mode with a guest key the booking's guest is selected from the guest list; when the selection changes, the booking takes the chosen guest's and room's keys and the quoted total, and the quote is shown; otherwise the booking and the display are unchanged |
| BookingDialog.AddEditBookingDialog.LoadGuests | Dialogs/AddEditBookingDialog.xaml.cs:145-154 | the guests by last then first name, then the guest selection as in SelectBookingGuest, with the booking and the display it leaves |
| BookingDialog.AddEditBookingDialog.LoadRoomsAndPrice | Dialogs/AddEditBookingDialog.xaml.cs:156-159 | the room choices for the booking's room key, that room selected in edit mode, the booking re-detailed when the room selection changed, and the quote shown with the booking's total |
| BookingDialog.AddEditBookingDialog.LoadAndSetInitialData | Dialogs/AddEditBookingDialog.xaml.cs:142-166 | guests by last then first name; in edit mode the booking's guest selected; the room choices for the booking's room key after that step, with its room selected when editing; the booking is the initial one re-detailed by each selection change, with the total of the quote shown |
| BookingDialog.EditLoadKeepsBookingKeys | Dialogs/AddEditBookingDialog.xaml.cs:142-166 | opening a booking for editing, with the guest and room found being the booking's own or absent, changes only the booking's total |
| BookingDialog.AddEditBookingDialog.ShowValidationError | Dialogs/AddEditBookingDialog.xaml.cs:302-307 | the message is shown and false returned |
| BookingDialog.AddEditBookingDialog.HideValidationError | Dialogs/AddEditBookingDialog.xaml.cs:309-313 | the message is hidden |
| BookingDialog.AddEditBookingDialog.ValidateInput | Dialogs/AddEditBookingDialog.xaml.cs:292-299 | the shown error is Validation's first failing check, and the input is valid exactly when none shows |
| BookingDialog.AddEditBookingDialog.PrimaryButtonClick | Dialogs/AddEditBookingDialog.xaml.cs:266-289 | invalid input keeps the dialog open; valid input writes the chosen keys and dates into the booking, and the dialog closes only with both keys nonzero, which guarantees a guest, a room and dates in order |
| AvailabilityDialog.CategoryIdOf | Dialogs/CheckAvailabilityDialog.xaml.cs:117 | the selected category's key, or 0 with no selection |
| AvailabilityDialog.SearchMatchesNewBookingChoices | Dialogs/CheckAvailabilityDialog.xaml.cs:117-122 | for any category, the search lists exactly the rooms a new booking's dialog offers for the same dates |
| AvailabilityDialog.SortedListKeepsRooms | Dialogs/CheckAvailabilityDialog.xaml.cs:122-123 | listing by room number keeps the count and every room |
| AvailabilityDialog.CheckAvailabilityDialog.IsFindButtonEnabled | Dialogs/CheckAvailabilityDialog.xaml.cs:71 | Find is enabled exactly when no search is loading; FindButtonClick and the constructor leave it enabled |
| AvailabilityDialog.CheckAvailabilityDialog.constructor | Dialogs/CheckAvailabilityDialog.xaml.cs:21-71 | from today to tomorrow, nothing found, idle, with the Find button enabled |
| AvailabilityDialog.CheckAvailabilityDialog.LoadCategories | Dialogs/CheckAvailabilityDialog.xaml.cs:87-99 | the categories by name, or the load error and the old list when the store fails |
| AvailabilityDialog.CheckAvailabilityDialog.FindButtonClick | Dialogs/CheckAvailabilityDialog.xaml.cs:102-138 | dates out of order show the date error with an empty list; a store failure shows the search error; otherwise the available rooms by number, with their count or the none-found message; always idle with Find enabled afterwards |
| RoomsView.SortKey | Pages/RoomsPage.xaml.cs:60-84 | the key of each column: capacity, price, floor and status give one-number keys (a missing category counts as 0); a category name key is empty, so first, exactly when the room has no category |
| RoomsView.ColumnOf | Pages/RoomsPage.xaml.cs:57-87 | each of the six known tags names its column, and every other tag none |
| RoomsView.MissingCategorySortsAsZero | Pages/RoomsPage.xaml.cs:60-73 | a room without a category sorts as capacity 0 and price 0, and before every named category |
| RoomsView.NumberKeyOrder | Pages/RoomsPage.xaml.cs:79-84 | a numeric key orders rooms by that number |
| RoomsView.NameKeyOrder | Pages/RoomsPage.xaml.cs:60-63 | among rooms with categories, sorting by category name compares the names alone |
| RoomsView.NextSortState | Pages/RoomsPage.xaml.cs:45-53 | the clicked column becomes current; it sorts ascending unless it was current and ascending |
| RoomsView.SortToggleProperties | Pages/RoomsPage.xaml.cs:45-53 | a second click on a column reverses its direction, a third repeats the first, and a first click sorts ascending |
| RoomsView.RoomsPage.constructor | Pages/RoomsPage.xaml.cs:20-24 | no rows, no current column, ascending |
| RoomsView.RoomsPage.LoadData | Pages/RoomsPage.xaml.cs:26-33 | shows the rooms and resets the sort to no column, ascending |
| RoomsView.RoomsPage.SortColumnClick | Pages/RoomsPage.xaml.cs:40-93 | a click without a text tag changes nothing; otherwise the sort state steps; a known column re-sorts the rooms stably by its key in the new direction (a permutation, in order, ties in their old order); an unknown column keeps the rows |
| Ordering.SortBy | Pages/RoomsPage.xaml.cs:90 | the sorted list is a permutation of the input and in order of the key in the given direction |
| Ordering.SortByIsStable | Pages/RoomsPage.xaml.cs:57-87 | rows with equal keys keep their relative order |
| Auth.AuthService.constructor | Services/AuthService.cs:7-9 | nobody is logged in at start |
| Auth.AuthService.IsLoggedIn | Services/AuthService.cs:9 | someone is logged in exactly when there is a current user; the constructor, Login and Logout state it for each state they make |
| Auth.AuthService.Login | Services/AuthService.cs:11-15 | the given user becomes current, and IsLoggedIn holds |
| Auth.AuthService.Logout | Services/AuthService.cs:17-21 | nobody is current and IsLoggedIn fails; logging out when nobody was logged in changes nothing |

## Left out

- Password hashing and `VerifyUserPasswordAsync`, `AddUserAsync`, `UpdateUserPasswordAsync`: they call the BCrypt library, which is not part of this model.
- The ORM and SQLite plumbing: contexts, `Include`, change tracking, and the seed rows. Store updates are a replacement by key, and the store's own constraints are stated as `HotelDb.Valid`.
- Cascading deletes: the required foreign keys (`Models/Booking.cs:28-33`, `Models/BookedService.cs:17-24`) cascade in the schema `EnsureCreatedAsync` builds. The model writes the cascade out for a guest deletion only. Room, category and service deletions are refused while a row refers to them, so their cascades never fire. A booking deletion removes its booked services itself.
- Database.HotelDb.AddBooking: the store's refusal of a row whose room or guest key finds no row is not modelled. Any such row is stored, and `Valid` is promised only when both keys resolve.
- Database.HotelDb.UpdateBooking: the same refusal of an unresolved room or guest key is not modelled. `Valid` is promised only when both keys resolve.
- Database.HotelDb.UpdateRoom: the store's refusal of a room whose category key finds no row (`RoomCategoryId` is a required foreign key) is not modelled. Such a row is stored without a category, and `Valid` is promised only when the key resolves. The bookings page only writes back rooms it has just re-read.
- Database.HotelDb.UpdateUser: the caller's `User` object is not updated in place. The model returns the object as it is after the call, as `written`, instead.
- BookingsView.BookingsPage.NewBooking: the message for a booking that was added but cannot be read back (`Pages/BookingsPage.xaml.cs:95-98`) is not modelled. In the model the re-read always finds the row just stored.
- Operations of the service that the booking core does not use: plain adds and gets of guests, categories, services and booked services, `GetAllBookingsAsync` with its includes, and `GetBookedServicesByBookingIdAsync`.
- Culture-sensitive string comparison: `OrderBy` on names is modelled as ordinal comparison of character codes.
- `decimal` precision and overflow: money is an unbounded integer of minor units.
- `DateTimeOffset` offsets: all instants are in one time zone, as whole seconds, so local and UTC comparisons coincide; the current time is a parameter.
- The user interface: XAML, dialogs and their texts, currency formatting (`FormatPrice`), combo-box enabling, and the list control's own reaction to removals (such as clearing its selection). The answers of confirmation dialogs are parameters.
- Exceptions from the store are modelled only where the code reacts to them in a way the model can state: search and category-load failures in the availability dialog (`storeFault`), and the refused insert of a new booking. The catch blocks of the bookings page's cancel, check-in and check-out handlers, and of `LoadAndSetInitialDataAsync` and `LoadAvailableRoomsAsync`, are not modelled. The message texts of exceptions are not modelled either.
- async/await interleaving: each handler is one atomic step. In particular, the model does not show the window during the query in which the availability dialog's `IsLoading` is true. Property-change notifications are not modelled.
- Booking navigation properties (`Guest`, `Room`, `BookedServices`) and the texts built from them.
- The handlers outside the booking core: editing and deleting bookings from the page, the guests, services and categories pages, and `ManageCategoriesDialog`.
- Reference equality: the records do not override `Equals`, so `SetSelectedGuest` and `SetSelectedRoom` treat two loaded objects as different unless both are null, because every query returns fresh objects. `Bookings.Remove` on the page is modelled as removing the first equal value.
- BookingDialog.AddEditBookingDialog.UpdateBookingDetails: the early return for a null `CurrentBooking` is not modelled, because both constructors always set it.
- Auth.AuthService: the source class is static. It is modelled as one instance holding that static state, and the debug log lines are left out.
- The non-atomicity of a lifecycle move (the booking save and the room save are two separate writes): each handler's writes are one step of the model.
