/** The decision tables inside the admin screens: the filter chips and the
    per-status actions of the booking list, the counsellor choice, and the
    dashboard's actions, recent-bookings cut and stat cards.
 */
module AdminScreens {
  import opened Wrappers
  import opened Model
  import opened BookingStore
  import opened AdminRepository
  import AdminViewModel

  /** A button's request to the admin view model. */
  datatype AdminAction =
    | Assign(id: string, konselor: string)
    | SetStatus(id: string, status: string)

  const FilterChips: seq<string> := ["All", "Pending", "Ongoing", "Completed", "Cancelled"]

  /** The filter a chip passes to `loadBookings`: none for "All", else its label. */
  function ChipStatus(chip: string): (status: Option<string>)
    ensures status.None? <==> chip == AdminViewModel.AllFilter
    ensures status.Some? ==> status.value == chip
  {
    if chip == AdminViewModel.AllFilter then None else Some(chip)
  }

  /** A chip is highlighted when it is the remembered filter. */
  predicate ChipSelected(s: AdminViewModel.AdminUiState, chip: string) {
    s.selectedFilter == chip
  }

  /** Tapping a chip, once the load succeeds, highlights that chip and no other. */
  lemma ChipHighlightsItself(s: AdminViewModel.AdminUiState, docs: seq<Doc<Booking>>, i: nat)
    requires i < |FilterChips|
    ensures var t := AdminViewModel.LoadBookings(s, docs, ChipStatus(FilterChips[i]), None);
      forall j :: 0 <= j < |FilterChips| ==> (ChipSelected(t, FilterChips[j]) <==> j == i)
  {
  }

  /** The counsellors offered by the assignment dialog; the first is preselected. */
  const KonselorList: seq<string> :=
    ["Dr. Ahmad Konselor", "Dr. Siti Konselor", "Dr. Budi Konselor", "Dr. Maya Konselor"]

  /** The buttons of a booking-list card, with the dialog's choice `pick`. */
  function ListActions(b: Booking, pick: nat): (acts: seq<AdminAction>)
    requires pick < |KonselorList|
    ensures b.status == Pending ==> acts == [Assign(b.id, KonselorList[pick]), SetStatus(b.id, Cancelled)]
    ensures b.status == Ongoing ==> acts == [SetStatus(b.id, Completed)]
    ensures b.status != Pending && b.status != Ongoing ==> acts == []
    ensures forall a :: a in acts ==> a.id == b.id
    ensures forall a :: a in acts && a.Assign? ==> a.konselor != "" && a.konselor in KonselorList
  {
    if b.status == Pending then [Assign(b.id, KonselorList[pick]), SetStatus(b.id, Cancelled)]
    else if b.status == Ongoing then [SetStatus(b.id, Completed)]
    else []
  }

  /** The buttons of a dashboard card: "Terima" only moves to Ongoing. */
  function DashboardActions(b: Booking): (acts: seq<AdminAction>)
    ensures b.status == Pending ==> acts == [SetStatus(b.id, Ongoing), SetStatus(b.id, Cancelled)]
    ensures b.status == Ongoing ==> acts == [SetStatus(b.id, Completed)]
    ensures b.status != Pending && b.status != Ongoing ==> acts == []
    ensures forall a :: a in acts ==> a.SetStatus? && a.id == b.id
  {
    if b.status == Pending then [SetStatus(b.id, Ongoing), SetStatus(b.id, Cancelled)]
    else if b.status == Ongoing then [SetStatus(b.id, Completed)]
    else []
  }

  /** What an action does to the store when its write succeeds. */
  function ApplyAdmin(store: Store, a: AdminAction): (r: StoreOutcome)
    ensures r.store.Keys == store.Keys
    ensures a.id in store ==> r.result.Success? && r.store[a.id].status == (if a.Assign? then Ongoing else a.status)
    ensures a.id in store && a.SetStatus? ==> r.store[a.id].konselor == store[a.id].konselor
    ensures a.id in store && a.Assign? ==> r.store[a.id].konselor == a.konselor
  {
    match a
    case Assign(id, k) => AssignKonselor(store, id, k, None)
    case SetStatus(id, st) => UpdateStatus(store, id, st, None)
  }

  /** The two tables disagree on accepting: the list's assignment names a
      counsellor, the dashboard's "Terima" leaves the counsellor as it was
      (empty for a booking created without one). */
  lemma AcceptPathsDiffer(store: Store, id: string, pick: nat)
    requires id in store && store[id].id == id && store[id].status == Pending && store[id].konselor == ""
    requires pick < |KonselorList|
    ensures ApplyAdmin(store, ListActions(store[id], pick)[0]).store[id].konselor != ""
    ensures ApplyAdmin(store, DashboardActions(store[id])[0]).store[id].konselor == ""
    ensures ApplyAdmin(store, ListActions(store[id], pick)[0]).store[id].status
         == ApplyAdmin(store, DashboardActions(store[id])[0]).store[id].status == Ongoing
  {
    var acts := ListActions(store[id], pick);
    assert acts[0] in acts;
  }

  /** `bookings.take(5)`: the dashboard's recent section. */
  function RecentBookings(bs: seq<Booking>): (r: seq<Booking>)
    ensures |r| == if |bs| < 5 then |bs| else 5
    ensures r == bs[..|r|]
  {
    if |bs| < 5 then bs else bs[..5]
  }

  /** Loaded newest first, the recent section holds the newest bookings:
      nothing left out is newer than anything shown. */
  lemma RecentAreNewest(bs: seq<Booking>)
    requires IsSortedDesc(bs)
    ensures var r := RecentBookings(bs);
      forall i, j :: 0 <= i < |r| <= j < |bs| ==> r[i].createdAt >= bs[j].createdAt
  {
  }

  /** The four stat cards: label and value. */
  function StatCards(st: BookingStats): (cards: seq<(string, int)>)
    ensures |cards| == 4
    ensures cards[0].1 == st.totalBookings && cards[1].1 == st.pendingBookings
    ensures cards[2].1 == st.ongoingBookings && cards[3].1 == st.completedBookings
    ensures forall c :: c in cards ==> c.0 != Cancelled
  {
    [("Total Booking", st.totalBookings), (Pending, st.pendingBookings),
     (Ongoing, st.ongoingBookings), (Completed, st.completedBookings)]
  }
}
