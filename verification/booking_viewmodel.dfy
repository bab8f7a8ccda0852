/** `BookingViewModel`: the student's `BookingUiState` transitions.

    The signed-in account is read once, when the view model is built, so it
    is a parameter of every transition. Each transition runs its coroutine
    to the end against the store; the list reload a transition starts is
    reported as a boolean instead of being run inline.
 */
module BookingViewModel {
  import opened Wrappers
  import opened Model
  import opened BookingStore
  import opened Storage
  import BookingRepository
  import AuthRepository

  datatype BookingUiState = BookingUiState(
    isLoading: bool,
    bookings: seq<Booking>,
    errorMessage: Option<string>,
    isSuccess: bool)

  /** `BookingUiState()` with every default. */
  const InitialBooking := BookingUiState(false, [], None, false)

  const NoUserMessage := "User tidak ditemukan"
  const LoadFallback := "Terjadi kesalahan"
  const CreateFallback := "Gagal membuat booking"
  const CancelFallback := "Gagal membatalkan booking"

  /** What the create form hands to `createBooking`. */
  datatype BookingForm = BookingForm(
    nama: string, nim: string, prodi: string, nomorHP: string,
    tanggal: int, sesi: string, konselor: string)

  /** The oracles of one `createBooking` call: the upload's UUID, the fresh
      document id, the bucket's public URL base and the two backend outcomes. */
  datatype CreateEnv = CreateEnv(
    uuid: string, newId: string, urlPrefix: string,
    uploadBackend: Option<Exn>, writeBackend: Option<Exn>)

  datatype CreateOutcome = CreateOutcome(state: BookingUiState, store: Store, bucket: Bucket, reload: bool)

  /** `loadUserBookings()`. */
  function LoadUserBookings(s: BookingUiState, user: Option<AuthRepository.AuthUser>,
                            docs: seq<Doc<Booking>>, backend: Option<Exn>): (t: BookingUiState)
    ensures !t.isLoading && t.isSuccess == s.isSuccess
    ensures user.None? ==> t.errorMessage == Some(NoUserMessage) && t.bookings == s.bookings
    ensures user.Some? && backend.Some? ==>
      t.errorMessage == Some(MessageOr(backend.value, LoadFallback)) && t.bookings == s.bookings
    ensures user.Some? && backend.None? ==> (t.errorMessage.None? && IsSortedDesc(t.bookings)
      && forall b :: b in t.bookings ==> b.userId == user.value.uid && Parsed(b) in docs)
    ensures user.Some? && backend.None? ==>
      t.bookings == BookingRepository.GetUserBookings(docs, user.value.uid, None).value
  {
    var s1 := s.(isLoading := true, errorMessage := None);
    match user
    case None => s1.(isLoading := false, errorMessage := Some(NoUserMessage))
    case Some(u) =>
      match BookingRepository.GetUserBookings(docs, u.uid, backend)
      case Success(bs) =>
        assert forall b :: b in bs ==> b.userId == u.uid && Parsed(b) in docs by {
          forall b | b in bs ensures b.userId == u.uid && Parsed(b) in docs {
            assert multiset(bs)[b] > 0;
          }
        }
        s1.(isLoading := false, bookings := bs, errorMessage := None)
      case Failure(e) => s1.(isLoading := false, errorMessage := Some(MessageOr(e, LoadFallback)))
  }

  /** The record `createBooking` builds before handing it to the repository:
      the account's uid, the form's fields, every other field at its default. */
  function BuildBooking(uid: string, form: BookingForm, createdNow: int): (b: Booking)
    ensures b.userId == uid && b.status == Pending && b.id == "" && b.ktmUrl == ""
    ensures b.namaMahasiswa == form.nama && b.nimMahasiswa == form.nim && b.prodiMahasiswa == form.prodi
    ensures b.nomorHP == form.nomorHP && b.tanggal == form.tanggal && b.sesi == form.sesi
    ensures b.konselor == form.konselor && b.createdAt == createdNow
  {
    NewBooking(form.tanggal, createdNow).(userId := uid, namaMahasiswa := form.nama, nimMahasiswa := form.nim,
      prodiMahasiswa := form.prodi, nomorHP := form.nomorHP, sesi := form.sesi, konselor := form.konselor)
  }

  /** `createBooking(...)`, as written: without a signed-in account nothing
      after the start runs, so the state is left loading. */
  function CreateBooking(s: BookingUiState, user: Option<AuthRepository.AuthUser>, form: BookingForm,
                         ktm: Option<LocalFile>, createdNow: int, store: Store, bucket: Bucket,
                         env: CreateEnv): (o: CreateOutcome)
    ensures user.None? ==> (o.state.isLoading && o.state.errorMessage.None? && o.store == store
      && o.bucket == bucket && !o.reload)
    ensures user.Some? ==> !o.state.isLoading
    ensures o.reload <==> user.Some? && o.state.errorMessage.None?
    ensures o.reload ==> (o.state.isSuccess && env.newId in o.store
      && o.store[env.newId] == BuildBooking(user.value.uid, form, createdNow).(id := env.newId, ktmUrl := o.store[env.newId].ktmUrl))
    ensures !o.reload ==> o.state.isSuccess == s.isSuccess && o.store == store
    ensures user.Some? ==>
      var r := BookingRepository.CreateBooking(store, bucket, BuildBooking(user.value.uid, form, createdNow), ktm,
                                               env.uuid, env.newId, env.urlPrefix, env.uploadBackend, env.writeBackend);
      (o.reload <==> r.result.Success?) && o.store == r.store && o.bucket == r.bucket
      && (r.result.Failure? ==> o.state.errorMessage == Some(MessageOr(r.result.exn, CreateFallback)))
  {
    var s1 := s.(isLoading := true, errorMessage := None);
    match user
    case None => CreateOutcome(s1, store, bucket, false)
    case Some(u) =>
      var r := BookingRepository.CreateBooking(store, bucket, BuildBooking(u.uid, form, createdNow), ktm,
                                               env.uuid, env.newId, env.urlPrefix, env.uploadBackend, env.writeBackend);
      match r.result
      case Success(_) => CreateOutcome(s1.(isLoading := false, isSuccess := true, errorMessage := None), r.store, r.bucket, true)
      case Failure(e) =>
        CreateOutcome(s1.(isLoading := false, errorMessage := Some(MessageOr(e, CreateFallback))), r.store, r.bucket, false)
  }

  /** `createBooking` with the missing-account case handled the way
      `loadUserBookings` handles it: loading stops and the error is shown. */
  function CreateBookingCorrected(s: BookingUiState, user: Option<AuthRepository.AuthUser>, form: BookingForm,
                                  ktm: Option<LocalFile>, createdNow: int, store: Store, bucket: Bucket,
                                  env: CreateEnv): (o: CreateOutcome)
    ensures !o.state.isLoading
    ensures user.None? ==> o.state.errorMessage == Some(NoUserMessage) && o.store == store && !o.reload
    ensures user.Some? ==> o == CreateBooking(s, user, form, ktm, createdNow, store, bucket, env)
  {
    match user
    case None => CreateOutcome(s.(isLoading := false, errorMessage := Some(NoUserMessage)), store, bucket, false)
    case Some(_) => CreateBooking(s, user, form, ktm, createdNow, store, bucket, env)
  }

  /** An attachment of the wrong type reaches the screen as the repository's
      format message; nothing is stored and the success flag is untouched. */
  lemma CreateRejectsWrongType(s: BookingUiState, u: AuthRepository.AuthUser, form: BookingForm, file: LocalFile,
                               createdNow: int, store: Store, bucket: Bucket, env: CreateEnv)
    requires !ValidateFileType(file.mime)
    ensures var o := CreateBooking(s, Some(u), form, Some(file), createdNow, store, bucket, env);
      o.state.errorMessage == Some(BookingRepository.CreateTypeMessage) && o.store == store
      && o.bucket == bucket && o.state.isSuccess == s.isSuccess && !o.reload
  {
  }

  /** `cancelBooking(bookingId)`: asks for "Cancelled" whatever the status is. */
  function CancelBooking(s: BookingUiState, store: Store, id: string, backend: Option<Exn>): (t: (BookingUiState, Store, bool))
    ensures t.2 <==> backend.None? && id in store
    ensures t.2 ==> t.0 == s && t.1 == store[id := store[id].(status := Cancelled)]
    ensures !t.2 ==> t.1 == store && t.0.errorMessage.Some? && t.0.(errorMessage := s.errorMessage) == s
    ensures backend.Some? ==> t.0 == s.(errorMessage := Some(MessageOr(backend.value, CancelFallback)))
    ensures backend.None? && id !in store ==> t.0 == s.(errorMessage := Some(NotFoundMessage))
  {
    var o := UpdateStatus(store, id, Cancelled, backend);
    match o.result
    case Success(_) => (s, o.store, true)
    case Failure(e) => (s.(errorMessage := Some(MessageOr(e, CancelFallback))), o.store, false)
  }

  /** Nothing stops a finished booking from being cancelled through this path. */
  lemma CancelIsUnguarded(s: BookingUiState, store: Store, id: string)
    requires id in store && store[id].status == Completed
    ensures CancelBooking(s, store, id, None).1[id].status == Cancelled
  {
  }

  function ResetSuccess(s: BookingUiState): (t: BookingUiState)
    ensures !t.isSuccess && t.(isSuccess := s.isSuccess) == s
  {
    s.(isSuccess := false)
  }

  function ClearError(s: BookingUiState): (t: BookingUiState)
    ensures t.errorMessage.None? && t.(errorMessage := s.errorMessage) == s
  {
    s.(errorMessage := None)
  }
}
