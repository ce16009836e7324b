/** The hotel's records and status enums, taken out of the ORM.
    Each record is a value; the navigation properties that the store loads on
    request (`Include`) are kept only where the application reads them. */
module Models {

  datatype Option<+T> = None | Some(value: T)

  /** Room status: Свободно, Занято, Уборка, ТехОбслуживание (in declaration order). */
  datatype RoomStatus = Free | Occupied | Cleaning | Maintenance

  /** Booking status: Подтверждено, Проверено, Выписано, Отменено (in declaration order). */
  datatype BookingStatus = Confirmed | CheckedIn | CheckedOut | Cancelled

  datatype UserRole = Administrator | Receptionist

  /** The enum's underlying integer, which is what OrderBy compares. */
  function RoomStatusOrdinal(s: RoomStatus): (n: nat)
    ensures n < 4
  {
    match s
    case Free => 0
    case Occupied => 1
    case Cleaning => 2
    case Maintenance => 3
  }

  /** Instants are whole seconds from a fixed epoch, in one time zone. */
  type DateTime = nat

  const SecondsPerDay: nat := 86400

  /** The day number of an instant (what `.Date` keeps of it). */
  function DayOf(t: DateTime): int
  {
    t / SecondsPerDay
  }

  /** `t.Date`: midnight at the start of t's day. */
  function DateOf(t: DateTime): (d: DateTime)
    ensures d <= t < d + SecondsPerDay
    ensures DayOf(d) == DayOf(t)
  {
    DayOf(t) * SecondsPerDay
  }

  /** `t.AddDays(n)` for a whole number of days. */
  function AddDays(t: DateTime, n: nat): (r: DateTime)
    ensures DayOf(r) == DayOf(t) + n
  {
    t + n * SecondsPerDay
  }

  /** A `decimal` amount of money, in minor currency units. */
  type Money = int

  datatype RoomCategory = RoomCategory(
    roomCategoryId: int,
    name: string,
    description: Option<string>,
    capacity: int,
    basePricePerNight: Money)

  /** `roomCategory` is the navigation property the store loads with the room. */
  datatype Room = Room(
    roomId: int,
    roomNumber: string,
    floor: int,
    status: RoomStatus,
    roomCategoryId: int,
    roomCategory: Option<RoomCategory>)

  datatype Guest = Guest(
    guestId: int,
    firstName: string,
    lastName: string,
    phoneNumber: Option<string>,
    email: Option<string>)

  datatype Booking = Booking(
    bookingId: int,
    checkInDate: DateTime,
    checkOutDate: DateTime,
    bookingDate: DateTime,
    status: BookingStatus,
    totalPrice: Money,
    guestId: int,
    roomId: int)

  datatype BookedService = BookedService(
    bookedServiceId: int,
    quantity: int,
    dateProvided: DateTime,
    bookingId: int,
    serviceId: int)

  datatype Service = Service(
    serviceId: int,
    name: string,
    description: Option<string>,
    price: Money)

  datatype User = User(
    userId: int,
    username: string,
    passwordHash: string,
    fullName: Option<string>,
    role: UserRole)
}
