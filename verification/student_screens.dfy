/** The decision logic inside the student screens: the create form's submit
    gate and the values it sends, and the status labels, cancel gating and
    display fallbacks of the detail and history screens.
 */
module StudentScreens {
  import opened Wrappers
  import opened Model
  import opened BookingViewModel

  const SessionOptions: seq<string> :=
    ["Sesi 1 (10.00 - 11.00)", "Sesi 2 (11.00 - 12.00)", "Sesi 3 (13.00 - 14.00)", "Sesi 4 (14.00 - 15.00)"]

  /** The counsellor every submitted form names. */
  const DefaultKonselor := "Dr. Konselor"

  /** The create screen's text fields and dropdown. */
  datatype CreateFields = CreateFields(
    nama: string, nim: string, prodi: string, nomorHP: string, tanggalText: string, sesi: string)

  /** The submit button is enabled when nothing is uploading and every text
      field and the session are filled in; an attachment is optional. */
  predicate SubmitEnabled(isUploading: bool, f: CreateFields) {
    !isUploading && f.nama != "" && f.nim != "" && f.prodi != "" && f.nomorHP != ""
    && f.tanggalText != "" && f.sesi != ""
  }

  /** The form the submit button sends: the typed fields, the clock reading
      `now` as the date, and the fixed counsellor. */
  function SubmittedForm(f: CreateFields, now: int): (form: BookingForm)
    ensures form.nama == f.nama && form.nim == f.nim && form.prodi == f.prodi
    ensures form.nomorHP == f.nomorHP && form.sesi == f.sesi
    ensures form.tanggal == now && form.konselor == DefaultKonselor
  {
    BookingForm(f.nama, f.nim, f.prodi, f.nomorHP, now, f.sesi, DefaultKonselor)
  }

  /** The typed date never reaches the booking. */
  lemma TanggalTextUnused(f: CreateFields, other: string, now: int)
    ensures SubmittedForm(f, now) == SubmittedForm(f.(tanggalText := other), now)
  {
  }

  /** The screen shows the upload spinner exactly while the view model is loading. */
  function IsUploading(s: BookingUiState): bool {
    s.isLoading
  }

  /** Without a signed-in account, one tap disables the submit button for
      good: `createBooking` leaves the state loading. */
  lemma NoUserDisablesSubmit(s: BookingUiState, f: CreateFields, ktm: Option<Storage.LocalFile>, now: int,
                             createdNow: int, store: BookingStore.Store, bucket: Storage.Bucket, env: CreateEnv)
    ensures var o := CreateBooking(s, None, SubmittedForm(f, now), ktm, createdNow, store, bucket, env);
      !SubmitEnabled(IsUploading(o.state), f)
  {
  }

  /** With the corrected transition the button is usable again and the
      missing account is reported. */
  lemma CorrectedCreateReenablesSubmit(s: BookingUiState, f: CreateFields, ktm: Option<Storage.LocalFile>, now: int,
                                       createdNow: int, store: BookingStore.Store, bucket: Storage.Bucket, env: CreateEnv)
    ensures var o := CreateBookingCorrected(s, None, SubmittedForm(f, now), ktm, createdNow, store, bucket, env);
      (SubmitEnabled(IsUploading(o.state), f) <==> SubmitEnabled(false, f))
      && o.state.errorMessage == Some(NoUserMessage)
  {
  }

  /** The create screen's success effect: clear the flag and leave the screen. */
  function OnSuccess(s: BookingUiState): (t: (BookingUiState, bool))
    ensures t.1 <==> s.isSuccess
    ensures !t.0.isSuccess
    ensures t.0.(isSuccess := s.isSuccess) == s
  {
    if s.isSuccess then (ResetSuccess(s), true) else (s, false)
  }

  /** The detail screen's label for a status; an unknown status is shown as is. */
  function StatusText(status: string): (text: string)
    ensures status == Pending ==> text == "Menunggu Konfirmasi"
    ensures status == Ongoing ==> text == "Sedang Berlangsung"
    ensures status == Completed ==> text == "Selesai"
    ensures status == Cancelled ==> text == "Dibatalkan"
    ensures !IsKnownStatus(status) ==> text == status
  {
    if status == Pending then "Menunggu Konfirmasi"
    else if status == Ongoing then "Sedang Berlangsung"
    else if status == Completed then "Selesai"
    else if status == Cancelled then "Dibatalkan"
    else status
  }

  /** The labels of the four statuses are distinct, but a free-form status
      can read the same as a known one. */
  lemma StatusTextCanCollide()
    ensures forall a, b :: IsKnownStatus(a) && IsKnownStatus(b) && a != b ==> StatusText(a) != StatusText(b)
    ensures StatusText("Selesai") == StatusText(Completed)
  {
  }

  /** Both screens offer cancelling exactly for a pending or ongoing booking. */
  predicate CanCancel(b: Booking) {
    b.status == Pending || b.status == Ongoing
  }

  /** The id a card's or the detail screen's cancel button passes to `cancelBooking`. */
  function CancelRequest(b: Booking): (id: Option<string>)
    ensures id.Some? <==> CanCancel(b)
    ensures id.Some? ==> id.value == b.id
  {
    if CanCancel(b) then Some(b.id) else None
  }

  /** Cancelling from the screen lands in Cancelled, and only from the two
      statuses that offer the button. */
  lemma ScreenCancelFromActiveOnly(s: BookingUiState, store: BookingStore.Store, id: string)
    requires id in store && store[id].id == id
    ensures CancelRequest(store[id]).Some? ==>
      CancelBooking(s, store, CancelRequest(store[id]).value, None).1[id].status == Cancelled
    ensures CancelRequest(store[id]).None? <==> !CanCancel(store[id])
  {
  }

  /** `konselor.ifEmpty { "Belum ditentukan" }`. */
  function KonselorText(konselor: string): (text: string)
    ensures text != ""
    ensures konselor != "" ==> text == konselor
  {
    if konselor == "" then "Belum ditentukan" else konselor
  }

  /** The full-screen image dialog: a tap on the thumbnail requests it, and
      it opens only for a stored attachment. */
  function ImageDialogOpen(requested: bool, b: Booking): (open: bool)
    ensures open ==> b.ktmUrl != "" && requested
    ensures requested && b.ktmUrl != "" ==> open
  {
    requested && b.ktmUrl != ""
  }

  /** What the history screen shows. */
  datatype HistoryView = Loading | EmptyState | Cards(bookings: seq<Booking>)

  function HistoryViewOf(s: BookingUiState): (v: HistoryView)
    ensures v.Loading? <==> s.isLoading
    ensures v.EmptyState? <==> !s.isLoading && s.bookings == []
    ensures v.Cards? ==> v.bookings == s.bookings && |v.bookings| > 0
  {
    if s.isLoading then Loading
    else if s.bookings == [] then EmptyState
    else Cards(s.bookings)
  }

  /** Each card offers cancelling for its own booking only. */
  function CardCancelRequests(v: HistoryView): (ids: seq<Option<string>>)
    ensures v.Cards? ==> |ids| == |v.bookings|
    ensures v.Cards? ==> forall i :: 0 <= i < |ids| ==> ids[i] == CancelRequest(v.bookings[i])
    ensures !v.Cards? ==> ids == []
  {
    if v.Cards? then seq(|v.bookings|, i requires 0 <= i < |v.bookings| => CancelRequest(v.bookings[i]))
    else []
  }
}
