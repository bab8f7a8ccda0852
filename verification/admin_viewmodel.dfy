/** `AdminViewModel`: the `AdminUiState` transitions.

    `loadBookings`, `updateBookingStatus` and `assignKonselor` each run as a
    coroutine of their own; the follow-up reloads they start are returned as
    `AdminEffect`s rather than run inline, since the order in which those
    coroutines complete is not determined.
 */
module AdminViewModel {
  import opened Wrappers
  import opened Model
  import opened BookingStore
  import opened AdminRepository

  datatype AdminUiState = AdminUiState(
    isLoading: bool,
    bookings: seq<Booking>,
    users: seq<User>,
    stats: BookingStats,
    errorMessage: Option<string>,
    selectedFilter: string)

  /** A follow-up coroutine a transition starts. */
  datatype AdminEffect = ReloadBookings(status: Option<string>) | ReloadDashboard

  const AllFilter := "All"
  const LoadFallback := "Gagal memuat booking"
  const UpdateFallback := "Gagal update status"
  const AssignFallback := "Gagal assign konselor"

  /** `AdminUiState()` with every default. */
  const InitialAdmin := AdminUiState(false, [], [], ZeroStats, None, AllFilter)

  /** The end of `loadBookings(status)`: a success shows the list and
      remembers the filter ("All" for none); a failure only sets the error. */
  function LoadBookingsDone(s: AdminUiState, status: Option<string>, r: Result<seq<Booking>>): (t: AdminUiState)
  {
    match r
    case Success(bs) => s.(bookings := bs, selectedFilter := status.GetOr(AllFilter))
    case Failure(e) => s.(errorMessage := Some(MessageOr(e, LoadFallback)))
  }

  /** `loadBookings(status)` against a query snapshot. */
  function LoadBookings(s: AdminUiState, docs: seq<Doc<Booking>>, status: Option<string>,
                        backend: Option<Exn>): (t: AdminUiState)
    ensures backend.None? ==> (t.selectedFilter == status.GetOr(AllFilter) && IsSortedDesc(t.bookings)
      && t.bookings == GetAllBookings(docs, status, None).value
      && t.errorMessage == s.errorMessage && t.stats == s.stats && t.users == s.users)
    ensures backend.Some? ==> t == s.(errorMessage := Some(MessageOr(backend.value, LoadFallback)))
  {
    LoadBookingsDone(s, status, GetAllBookings(docs, status, backend))
  }

  /** The list on screen is what the selected filter selects from the snapshot. */
  predicate ShowsFilter(s: AdminUiState, docs: seq<Doc<Booking>>) {
    s.bookings == GetAllBookings(docs, Some(s.selectedFilter), None).value
  }

  /** Every load, whichever filter it used and whether or not it failed,
      keeps the list consistent with the selected filter. So the reloads a
      write starts may finish in either order, the dashboard's unfiltered
      one included, and the screen still shows what its chip says. */
  lemma LoadKeepsListConsistent(s: AdminUiState, docs: seq<Doc<Booking>>, status: Option<string>,
                                backend: Option<Exn>)
    requires ShowsFilter(s, docs)
    ensures ShowsFilter(LoadBookings(s, docs, status, backend), docs)
  {
    if status.None? {
      AllMeansNoFilter(docs, None);
    }
  }

  /** A successful reload with the current filter keeps that filter; the
      dashboard's unfiltered reload resets it to "All". */
  lemma ReloadFilters(s: AdminUiState, docs: seq<Doc<Booking>>)
    ensures LoadBookings(s, docs, Some(s.selectedFilter), None).selectedFilter == s.selectedFilter
    ensures LoadBookings(s, docs, None, None).selectedFilter == AllFilter
  {
  }

  /** The start of `loadDashboardData`. */
  function DashboardStart(s: AdminUiState): (t: AdminUiState)
  {
    s.(isLoading := true)
  }

  /** The end of `loadDashboardData`: successful parts are applied, failed
      parts are dropped without an error, and loading always stops. The
      bookings reload it starts is a separate `ReloadBookings(None)`. */
  function DashboardDone(s: AdminUiState, stats: Result<BookingStats>, users: Result<seq<User>>): (t: AdminUiState)
    ensures !t.isLoading
    ensures t.stats == (if stats.Success? then stats.value else s.stats)
    ensures t.users == (if users.Success? then users.value else s.users)
    ensures t.bookings == s.bookings && t.selectedFilter == s.selectedFilter && t.errorMessage == s.errorMessage
  {
    var s1 := if stats.Success? then s.(stats := stats.value) else s;
    var s2 := if users.Success? then s1.(users := users.value) else s1;
    s2.(isLoading := false)
  }

  /** `loadDashboardData`: the state it leaves and the reload it starts. */
  function LoadDashboardData(s: AdminUiState, docs: seq<Doc<Booking>>, userDocs: seq<Doc<User>>,
                             todayStart: int, weekStart: int, monthStart: int,
                             statsBackend: Option<Exn>, usersBackend: Option<Exn>): (t: (AdminUiState, AdminEffect))
    ensures !t.0.isLoading && t.1 == ReloadBookings(None)
    ensures statsBackend.None? ==> t.0.stats.totalBookings == |ParseAll(docs)|
    ensures statsBackend.Some? ==> t.0.stats == s.stats
    ensures usersBackend.Some? ==> t.0.users == s.users
    ensures statsBackend.None? ==>
      t.0.stats == GetBookingStats(docs, todayStart, weekStart, monthStart, None).value
    ensures usersBackend.None? ==> t.0.users == GetAllUsers(userDocs, None).value
    ensures t.0.errorMessage == s.errorMessage
    ensures t.0.bookings == s.bookings && t.0.selectedFilter == s.selectedFilter
  {
    var st := GetBookingStats(docs, todayStart, weekStart, monthStart, statsBackend);
    var us := GetAllUsers(userDocs, usersBackend);
    (DashboardDone(DashboardStart(s), st, us), ReloadBookings(None))
  }

  /** Construction: `init` runs `loadDashboardData` on the default state,
      whose unfiltered reload then shows every parsable record under the
      "All" chip, newest first. */
  lemma InitShowsAll(docs: seq<Doc<Booking>>, userDocs: seq<Doc<User>>,
                     todayStart: int, weekStart: int, monthStart: int,
                     statsBackend: Option<Exn>, usersBackend: Option<Exn>)
    ensures var d := LoadDashboardData(InitialAdmin, docs, userDocs, todayStart, weekStart, monthStart,
                                       statsBackend, usersBackend);
      var t := LoadBookings(d.0, docs, d.1.status, None);
      !t.isLoading && t.selectedFilter == AllFilter && ShowsFilter(t, docs)
      && |t.bookings| == |ParseAll(docs)| && t.errorMessage.None?
  {
    AllMeansNoFilter(docs, None);
  }

  /** The end of a write (`updateBookingStatus` or `assignKonselor`): on
      success the current filter and the dashboard are reloaded; on failure
      only the error is set and nothing is reloaded. */
  function WriteDone(s: AdminUiState, r: Result<()>, fallback: string): (t: (AdminUiState, seq<AdminEffect>))
  {
    match r
    case Success(_) => (s, [ReloadBookings(Some(s.selectedFilter)), ReloadDashboard])
    case Failure(e) => (s.(errorMessage := Some(MessageOr(e, fallback))), [])
  }

  /** `updateBookingStatus(bookingId, status)` against the store. */
  function UpdateBookingStatus(s: AdminUiState, store: Store, id: string, status: string,
                               backend: Option<Exn>): (t: (AdminUiState, Store, seq<AdminEffect>))
    ensures (t.2 != []) <==> backend.None? && id in store
    ensures t.2 != [] ==> t.0 == s && t.2 == [ReloadBookings(Some(s.selectedFilter)), ReloadDashboard]
    ensures t.2 != [] ==> t.1 == store[id := store[id].(status := status)]
    ensures t.2 == [] ==> t.1 == store
    ensures backend.Some? ==> t.0 == s.(errorMessage := Some(MessageOr(backend.value, UpdateFallback)))
    ensures backend.None? && id !in store ==> t.0 == s.(errorMessage := Some(NotFoundMessage))
  {
    var o := UpdateStatus(store, id, status, backend);
    var w := WriteDone(s, o.result, UpdateFallback);
    (w.0, o.store, w.1)
  }

  /** `assignKonselor(bookingId, konselorName)` against the store. */
  function AssignKonselorAction(s: AdminUiState, store: Store, id: string, konselorName: string,
                                backend: Option<Exn>): (t: (AdminUiState, Store, seq<AdminEffect>))
    ensures (t.2 != []) <==> backend.None? && id in store
    ensures t.2 != [] ==> t.1 == store[id := store[id].(konselor := konselorName, status := Ongoing)]
    ensures t.2 != [] ==> t.0 == s && t.2 == [ReloadBookings(Some(s.selectedFilter)), ReloadDashboard]
    ensures t.2 == [] ==> t.1 == store
    ensures backend.Some? ==> t.0 == s.(errorMessage := Some(MessageOr(backend.value, AssignFallback)))
    ensures backend.None? && id !in store ==> t.0 == s.(errorMessage := Some(NotFoundMessage))
  {
    var o := AssignKonselor(store, id, konselorName, backend);
    var w := WriteDone(s, o.result, AssignFallback);
    (w.0, o.store, w.1)
  }

  /** Every record of the store is among the documents a later query reads. */
  predicate SnapshotOf(docs: seq<Doc<Booking>>, store: Store) {
    forall k :: k in store ==> Parsed(store[k]) in docs
  }

  /** Whether a record is on the list a load with the remembered filter shows. */
  lemma ReloadShows(docs: seq<Doc<Booking>>, filter: string, b: Booking)
    requires Parsed(b) in docs
    ensures b in GetAllBookings(docs, Some(filter), None).value <==> (filter == AllFilter || b.status == filter)
  {
    var r := GetAllBookings(docs, Some(filter), None).value;
    assert multiset(docs)[Parsed(b)] > 0;
    assert b in r <==> multiset(r)[b] > 0;
  }

  /** After a successful status write, the reload it starts keeps the chip
      and shows the changed record exactly when the chip is "All" or the new
      status. */
  lemma UpdateThenReloadShowsRecord(s: AdminUiState, store: Store, id: string, status: string,
                                    docs: seq<Doc<Booking>>)
    requires id in store
    requires SnapshotOf(docs, store[id := store[id].(status := status)])
    ensures var t := UpdateBookingStatus(s, store, id, status, None);
      var r := LoadBookings(t.0, docs, t.2[0].status, None);
      r.selectedFilter == s.selectedFilter
      && (t.1[id] in r.bookings <==> (s.selectedFilter == AllFilter || s.selectedFilter == status))
  {
    var t := UpdateBookingStatus(s, store, id, status, None);
    assert Parsed(t.1[id]) in docs;
    ReloadShows(docs, s.selectedFilter, t.1[id]);
  }

  /** After a successful assignment, the reload it starts keeps the chip and
      shows the assigned record exactly when the chip is "All" or Ongoing. */
  lemma AssignThenReloadShowsRecord(s: AdminUiState, store: Store, id: string, konselorName: string,
                                    docs: seq<Doc<Booking>>)
    requires id in store
    requires SnapshotOf(docs, store[id := store[id].(konselor := konselorName, status := Ongoing)])
    ensures var t := AssignKonselorAction(s, store, id, konselorName, None);
      var r := LoadBookings(t.0, docs, t.2[0].status, None);
      r.selectedFilter == s.selectedFilter && t.1[id].konselor == konselorName
      && (t.1[id] in r.bookings <==> (s.selectedFilter == AllFilter || s.selectedFilter == Ongoing))
  {
    var t := AssignKonselorAction(s, store, id, konselorName, None);
    assert Parsed(t.1[id]) in docs;
    ReloadShows(docs, s.selectedFilter, t.1[id]);
  }

  function ClearError(s: AdminUiState): (t: AdminUiState)
    ensures t.errorMessage.None?
    ensures t.(errorMessage := s.errorMessage) == s
  {
    s.(errorMessage := None)
  }
}
