/** `AdminRepository`: the admin's list query, the dashboard statistics and
    the counsellor assignment. The status update it shares with
    `BookingRepository` is `BookingStore.UpdateStatus`.

    The `Calendar` arithmetic that finds the start of today, of the week and
    of the month depends on locale, time zone and clock; the three window
    starts are parameters.
 */
module AdminRepository {
  import opened Wrappers
  import opened Model
  import opened BookingStore

  /** `status != null && status != "All"`: only then is a filter applied. */
  predicate FilterActive(status: Option<string>) {
    status.Some? && status.value != "All"
  }

  predicate MatchesFilter(status: Option<string>, b: Booking) {
    !FilterActive(status) || b.status == status.value
  }

  /** `getAllBookings(status)`: optional status filter, newest first, unparsable records dropped. */
  function GetAllBookings(docs: seq<Doc<Booking>>, status: Option<string>, backend: Option<Exn>): (r: Result<seq<Booking>>)
    ensures backend.Some? ==> r == Failure(backend.value)
    ensures backend.None? ==> r.Success?
    ensures r.Success? ==> IsSortedDesc(r.value)
    ensures r.Success? ==> forall b :: (multiset(r.value)[b] ==
      if MatchesFilter(status, b) then multiset(docs)[Parsed(b)] else 0)
    ensures r.Success? && !FilterActive(status) ==> |r.value| == |ParseAll(docs)|
  {
    if backend.Some? then Failure(backend.value)
    else
      var bs := ParseAll(docs);
      var r := SortDesc(Filter(bs, (b: Booking) => MatchesFilter(status, b)));
      FilteredListing(docs, (b: Booking) => MatchesFilter(status, b), r);
      if !FilterActive(status) then
        CountWhereAll(bs, (b: Booking) => MatchesFilter(status, b));
        Success(r)
      else
        Success(r)
  }

  /** The "All" sentinel and a missing filter give the same list. */
  lemma AllMeansNoFilter(docs: seq<Doc<Booking>>, backend: Option<Exn>)
    ensures GetAllBookings(docs, Some("All"), backend) == GetAllBookings(docs, None, backend)
  {
    var bs := ParseAll(docs);
    assert Filter(bs, (b: Booking) => MatchesFilter(Some("All"), b)) == Filter(bs, (b: Booking) => MatchesFilter(None, b)) by {
      FilterSamePredicate(bs, (b: Booking) => MatchesFilter(Some("All"), b), (b: Booking) => MatchesFilter(None, b));
    }
  }

  lemma {:induction false} FilterSamePredicate(bs: seq<Booking>, p: Booking -> bool, q: Booking -> bool)
    requires forall b :: p(b) == q(b)
    ensures Filter(bs, p) == Filter(bs, q)
    decreases |bs|
  {
    if |bs| > 0 {
      FilterSamePredicate(bs[1..], p, q);
    }
  }

  function CountStatus(bs: seq<Booking>, s: string): nat {
    CountWhere(bs, (b: Booking) => b.status == s)
  }

  /** Strict `after`: created later than the window start. */
  function CountAfter(bs: seq<Booking>, start: int): nat {
    CountWhere(bs, (b: Booking) => b.createdAt > start)
  }

  function CountUnknown(bs: seq<Booking>): nat {
    CountWhere(bs, (b: Booking) => !IsKnownStatus(b.status))
  }

  /** The four status counts and the unknown-status count partition the records. */
  lemma {:induction false} StatusCountsPartition(bs: seq<Booking>)
    ensures CountStatus(bs, Pending) + CountStatus(bs, Ongoing) + CountStatus(bs, Completed)
      + CountStatus(bs, Cancelled) + CountUnknown(bs) == |bs|
    decreases |bs|
  {
    if |bs| > 0 {
      StatusCountsPartition(bs[1..]);
    }
  }

  /** Window counts grow as the window start moves back, and never exceed the total. */
  lemma WindowMonotone(bs: seq<Booking>, earlier: int, later: int)
    ensures earlier <= later ==> CountAfter(bs, later) <= CountAfter(bs, earlier)
    ensures CountAfter(bs, earlier) <= |bs|
  {
    if earlier <= later {
      CountWhereMonotone(bs, (b: Booking) => b.createdAt > later, (b: Booking) => b.createdAt > earlier);
    }
    CountWhereMonotone(bs, (b: Booking) => b.createdAt > earlier, (b: Booking) => true);
  }

  /** One more record adds one to its own status count and nothing to the others. */
  lemma CountStatusAppendOne(bs: seq<Booking>, b: Booking, s: string)
    ensures CountStatus(bs + [b], s) == CountStatus(bs, s) + (if b.status == s then 1 else 0)
  {
    CountWhereAppendOne(bs, b, (x: Booking) => x.status == s);
  }

  /** One more record adds one to a window exactly when it was created strictly after its start. */
  lemma CountAfterAppendOne(bs: seq<Booking>, b: Booking, start: int)
    ensures CountAfter(bs + [b], start) == CountAfter(bs, start) + (if b.createdAt > start then 1 else 0)
  {
    CountWhereAppendOne(bs, b, (x: Booking) => x.createdAt > start);
  }

  /** The `BookingStats` built from the parsed records. */
  function ComputeStats(bs: seq<Booking>, todayStart: int, weekStart: int, monthStart: int): (st: BookingStats)
    ensures st.totalBookings == |bs|
    ensures st.pendingBookings + st.ongoingBookings + st.completedBookings + st.cancelledBookings
      <= st.totalBookings
    ensures (st.pendingBookings + st.ongoingBookings + st.completedBookings + st.cancelledBookings
      == st.totalBookings) <==> forall b :: b in bs ==> IsKnownStatus(b.status)
    ensures st.todayBookings <= st.totalBookings && st.thisWeekBookings <= st.totalBookings
      && st.thisMonthBookings <= st.totalBookings
    ensures weekStart <= todayStart ==> st.todayBookings <= st.thisWeekBookings
    ensures monthStart <= weekStart ==> st.thisWeekBookings <= st.thisMonthBookings
    ensures monthStart <= todayStart ==> st.todayBookings <= st.thisMonthBookings
    ensures |bs| == 0 ==> st == ZeroStats
    ensures st.pendingBookings == CountStatus(bs, Pending) && st.ongoingBookings == CountStatus(bs, Ongoing)
    ensures st.completedBookings == CountStatus(bs, Completed) && st.cancelledBookings == CountStatus(bs, Cancelled)
    ensures st.todayBookings == CountAfter(bs, todayStart) && st.thisWeekBookings == CountAfter(bs, weekStart)
    ensures st.thisMonthBookings == CountAfter(bs, monthStart)
  {
    StatusCountsPartition(bs);
    CountWhereZero(bs, (b: Booking) => !IsKnownStatus(b.status));
    WindowMonotone(bs, weekStart, todayStart);
    WindowMonotone(bs, monthStart, weekStart);
    WindowMonotone(bs, monthStart, todayStart);
    WindowMonotone(bs, todayStart, weekStart);
    WindowMonotone(bs, todayStart, todayStart);
    BookingStats(
      |bs|,
      CountStatus(bs, Pending), CountStatus(bs, Ongoing),
      CountStatus(bs, Completed), CountStatus(bs, Cancelled),
      CountAfter(bs, todayStart), CountAfter(bs, weekStart), CountAfter(bs, monthStart))
  }

  /** Adding one record to the snapshot moves each statistic by exactly that
      record's contribution: its own status count, and each window whose
      start it was created strictly after. */
  lemma StatsOfAppend(bs: seq<Booking>, b: Booking, todayStart: int, weekStart: int, monthStart: int)
    ensures var before := ComputeStats(bs, todayStart, weekStart, monthStart);
      var after := ComputeStats(bs + [b], todayStart, weekStart, monthStart);
      after.totalBookings == before.totalBookings + 1
      && after.pendingBookings == before.pendingBookings + (if b.status == Pending then 1 else 0)
      && after.ongoingBookings == before.ongoingBookings + (if b.status == Ongoing then 1 else 0)
      && after.completedBookings == before.completedBookings + (if b.status == Completed then 1 else 0)
      && after.cancelledBookings == before.cancelledBookings + (if b.status == Cancelled then 1 else 0)
      && after.todayBookings == before.todayBookings + (if b.createdAt > todayStart then 1 else 0)
      && after.thisWeekBookings == before.thisWeekBookings + (if b.createdAt > weekStart then 1 else 0)
      && after.thisMonthBookings == before.thisMonthBookings + (if b.createdAt > monthStart then 1 else 0)
  {
    CountStatusAppendOne(bs, b, Pending);
    CountStatusAppendOne(bs, b, Ongoing);
    CountStatusAppendOne(bs, b, Completed);
    CountStatusAppendOne(bs, b, Cancelled);
    CountAfterAppendOne(bs, b, todayStart);
    CountAfterAppendOne(bs, b, weekStart);
    CountAfterAppendOne(bs, b, monthStart);
  }

  /** `after(start)` is strict: a booking created exactly at a window's start
      leaves that window's count as it was, one created a millisecond later
      adds one, whatever else the snapshot holds. */
  lemma WindowExcludesStart(bs: seq<Booking>, b: Booking, todayStart: int, weekStart: int, monthStart: int)
    ensures var before := ComputeStats(bs, todayStart, weekStart, monthStart);
      var after := ComputeStats(bs + [b], todayStart, weekStart, monthStart);
      (b.createdAt == todayStart ==> after.todayBookings == before.todayBookings)
      && (b.createdAt == todayStart + 1 ==> after.todayBookings == before.todayBookings + 1)
      && (b.createdAt == weekStart ==> after.thisWeekBookings == before.thisWeekBookings)
      && (b.createdAt == weekStart + 1 ==> after.thisWeekBookings == before.thisWeekBookings + 1)
      && (b.createdAt == monthStart ==> after.thisMonthBookings == before.thisMonthBookings)
      && (b.createdAt == monthStart + 1 ==> after.thisMonthBookings == before.thisMonthBookings + 1)
  {
    StatsOfAppend(bs, b, todayStart, weekStart, monthStart);
  }

  /** `getBookingStats`: statistics over every parsable record. */
  function GetBookingStats(docs: seq<Doc<Booking>>, todayStart: int, weekStart: int, monthStart: int,
                           backend: Option<Exn>): (r: Result<BookingStats>)
    ensures r.Success? <==> backend.None?
    ensures r.Failure? ==> r.exn == backend.value
    ensures r.Success? ==> (r.value.totalBookings == |ParseAll(docs)|
      && r.value == ComputeStats(ParseAll(docs), todayStart, weekStart, monthStart))
  {
    if backend.Some? then Failure(backend.value)
    else Success(ComputeStats(ParseAll(docs), todayStart, weekStart, monthStart))
  }

  /** `getAllUsers`: every parsable profile, in the order the query returned them. */
  function GetAllUsers(docs: seq<Doc<User>>, backend: Option<Exn>): (r: Result<seq<User>>)
    ensures r.Success? <==> backend.None?
    ensures r.Failure? ==> r.exn == backend.value
    ensures r.Success? ==> forall u :: multiset(r.value)[u] == multiset(docs)[Parsed(u)]
    ensures r.Success? ==> forall u :: u in r.value <==> Parsed(u) in docs
  {
    if backend.Some? then Failure(backend.value)
    else
      var us := ParseAll(docs);
      assert forall u :: u in us <==> Parsed(u) in docs by {
        forall u ensures u in us <==> Parsed(u) in docs {
          assert u in us <==> multiset(us)[u] > 0;
          assert Parsed(u) in docs <==> multiset(docs)[Parsed(u)] > 0;
        }
      }
      Success(us)
  }

  /** `assignKonselor`: counsellor and status "Ongoing" in one update, whatever the prior status. */
  function AssignKonselor(store: Store, id: string, konselorName: string, backend: Option<Exn>): (o: StoreOutcome)
    ensures o.result.Success? <==> backend.None? && id in store
    ensures o.result.Success? ==>
      o.store == store[id := store[id].(konselor := konselorName, status := Ongoing)]
    ensures o.result.Failure? ==> o.store == store
    ensures o.store.Keys == store.Keys
  {
    if backend.Some? then StoreOutcome(store, Failure(backend.value))
    else if id !in store then StoreOutcome(store, Fail(NotFoundMessage))
    else StoreOutcome(store[id := store[id].(konselor := konselorName, status := Ongoing)], Success(()))
  }

  /** Neither write checks the current status: a finished booking can be
      reopened or reassigned. */
  lemma WritesAreUnguarded(store: Store, id: string)
    requires id in store && store[id].status == Completed
    ensures var o := UpdateStatus(store, id, Pending, None);
      o.result.Success? && o.store[id].status == Pending
    ensures var o := AssignKonselor(store, id, "", None);
      o.result.Success? && o.store[id].status == Ongoing && o.store[id].konselor == ""
  {
  }

  /** A status outside the four literals is accepted and then escapes every
      per-status count. */
  lemma UnknownStatusEscapesCounts(b: Booking, t: int)
    ensures var st := ComputeStats([b.(status := "Archived")], t, t, t);
      st.pendingBookings + st.ongoingBookings + st.completedBookings + st.cancelledBookings
        < st.totalBookings
  {
    assert !IsKnownStatus("Archived");
  }
}
