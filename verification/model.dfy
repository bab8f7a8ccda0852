/** The app's plain records: `Booking`, `User`, `Admin` and `BookingStats`.
    Timestamps are integers (milliseconds); `Timestamp.now()` is a clock read,
    so the constructors that default to it take the reading as a parameter.
 */
module Model {

  const Pending := "Pending"
  const Ongoing := "Ongoing"
  const Completed := "Completed"
  const Cancelled := "Cancelled"

  /** The four statuses the code compares against; nothing in `Booking`
      restricts `status` to them. */
  predicate IsKnownStatus(s: string) {
    s == Pending || s == Ongoing || s == Completed || s == Cancelled
  }

  /** A counselling appointment request. `status` is a free string. */
  datatype Booking = Booking(
    id: string,
    userId: string,
    namaMahasiswa: string,
    nimMahasiswa: string,
    prodiMahasiswa: string,
    nomorHP: string,
    tanggal: int,
    sesi: string,
    konselor: string,
    status: string,
    ktmUrl: string,
    createdAt: int)

  /** `Booking()` with every default: two independent clock reads fill
      `tanggal` and `createdAt`. */
  function NewBooking(tanggalNow: int, createdNow: int): (b: Booking)
    ensures b.status == Pending
    ensures b.id == "" && b.konselor == "" && b.ktmUrl == ""
    ensures b.tanggal == tanggalNow && b.createdAt == createdNow
  {
    Booking("", "", "", "", "", "", tanggalNow, "", "", Pending, "", createdNow)
  }

  /** A student profile, keyed by the auth uid. */
  datatype User = User(
    uid: string,
    nama: string,
    nim: string,
    prodi: string,
    nomorHP: string,
    email: string,
    photoUrl: string)

  /** An admin marker record; the app never reads it to decide a role. */
  datatype Admin = Admin(uid: string, nama: string, email: string, role: string, createdAt: int)

  function NewAdmin(uid: string, nama: string, email: string, now: int): (a: Admin)
    ensures a.role == "admin" && a.uid == uid && a.createdAt == now
  {
    Admin(uid, nama, email, "admin", now)
  }

  /** The derived aggregate shown on the admin dashboard. */
  datatype BookingStats = BookingStats(
    totalBookings: int,
    pendingBookings: int,
    ongoingBookings: int,
    completedBookings: int,
    cancelledBookings: int,
    todayBookings: int,
    thisWeekBookings: int,
    thisMonthBookings: int)

  const ZeroStats := BookingStats(0, 0, 0, 0, 0, 0, 0, 0)
}
