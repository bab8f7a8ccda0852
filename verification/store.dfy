/** The `bookings` collection of the document store, as both repositories see it.

    Mutations act on `Store`, a map from document id to a well-formed booking.
    Queries return documents in no particular order; each is either parsed
    into a booking or fails to parse (`Malformed`). The repositories drop the
    malformed ones after the query. The model parses first, then filters the
    parsed records, then orders by `createdAt`, most recent first. This
    agrees with the server's equality filter on documents that store every
    field. A document without `status` parses with the default "Pending",
    so it is counted and filtered here as Pending, where the server's filter
    on the stored field would not select it.
 */
module BookingStore {
  import opened Wrappers
  import opened Model

  type Store = map<string, Booking>

  /** One document of a query snapshot: it maps to a record of type `T` or fails to. */
  datatype Doc<T> = Parsed(value: T) | Malformed

  datatype StoreOutcome = StoreOutcome(store: Store, result: Result<()>)

  /** What the store answers to an update of a document that does not exist. */
  const NotFoundMessage := "NOT_FOUND: No document to update"

  /** `documents.mapNotNull { toObject(...) }` with parse errors swallowed. */
  function ParseAll<T(!new)>(docs: seq<Doc<T>>): (bs: seq<T>)
    ensures |bs| <= |docs|
    ensures forall b :: multiset(bs)[b] == multiset(docs)[Parsed(b)]
  {
    if |docs| == 0 then []
    else
      var rest := ParseAll(docs[1..]);
      assert docs == [docs[0]] + docs[1..];
      match docs[0]
      case Parsed(b) => [b] + rest
      case Malformed => rest
  }

  /** Parsing distributes over concatenation of query results. */
  lemma {:induction false} ParseAllAppend<T(!new)>(a: seq<Doc<T>>, b: seq<Doc<T>>)
    ensures ParseAll(a + b) == ParseAll(a) + ParseAll(b)
    decreases |a|
  {
    if |a| == 0 {
      assert a + b == b;
    } else {
      assert (a + b)[0] == a[0];
      assert (a + b)[1..] == a[1..] + b;
      ParseAllAppend(a[1..], b);
    }
  }

  /** A malformed record is dropped wherever it sits; it never hides a
      parsable record nor fails the list. */
  lemma ParseAllSkipsMalformed<T(!new)>(a: seq<Doc<T>>, b: seq<Doc<T>>)
    ensures ParseAll(a + [Malformed] + b) == ParseAll(a + b)
  {
    ParseAllAppend(a + [Malformed], b);
    ParseAllAppend(a, [Malformed]);
    ParseAllAppend(a, b);
    assert ParseAll<T>([Malformed]) == [];
  }

  /** `list.filter(p)`. */
  function Filter(bs: seq<Booking>, p: Booking -> bool): (r: seq<Booking>)
    ensures |r| == CountWhere(bs, p)
    ensures forall b :: multiset(r)[b] == if p(b) then multiset(bs)[b] else 0
    ensures forall b :: b in r ==> b in bs && p(b)
  {
    if |bs| == 0 then []
    else
      assert bs == [bs[0]] + bs[1..];
      if p(bs[0]) then [bs[0]] + Filter(bs[1..], p) else Filter(bs[1..], p)
  }

  /** `list.count(p)`. */
  function CountWhere(bs: seq<Booking>, p: Booking -> bool): nat {
    if |bs| == 0 then 0
    else (if p(bs[0]) then 1 else 0) + CountWhere(bs[1..], p)
  }

  /** A weaker predicate counts at least as many records. */
  lemma {:induction false} CountWhereMonotone(bs: seq<Booking>, p: Booking -> bool, q: Booking -> bool)
    requires forall b :: b in bs && p(b) ==> q(b)
    ensures CountWhere(bs, p) <= CountWhere(bs, q) <= |bs|
    decreases |bs|
  {
    if |bs| > 0 {
      CountWhereMonotone(bs[1..], p, q);
    }
  }

  /** A predicate every record satisfies counts every record. */
  lemma {:induction false} CountWhereAll(bs: seq<Booking>, p: Booking -> bool)
    requires forall b :: b in bs ==> p(b)
    ensures CountWhere(bs, p) == |bs|
    decreases |bs|
  {
    if |bs| > 0 {
      CountWhereAll(bs[1..], p);
    }
  }

  /** Appending a record adds one to the count exactly when it satisfies the predicate. */
  lemma {:induction false} CountWhereAppendOne(bs: seq<Booking>, b: Booking, p: Booking -> bool)
    ensures CountWhere(bs + [b], p) == CountWhere(bs, p) + (if p(b) then 1 else 0)
    decreases |bs|
  {
    if |bs| == 0 {
      assert bs + [b] == [b];
      assert [b][1..] == [];
    } else {
      assert (bs + [b])[1..] == bs[1..] + [b];
      CountWhereAppendOne(bs[1..], b, p);
    }
  }

  lemma CountWhereSingleton(b: Booking, p: Booking -> bool)
    ensures CountWhere([b], p) == if p(b) then 1 else 0
  {
    assert [b][1..] == [];
  }

  /** Most recent first. */
  predicate IsSortedDesc(bs: seq<Booking>) {
    forall i, j :: 0 <= i < j < |bs| ==> bs[i].createdAt >= bs[j].createdAt
  }

  function InsertDesc(b: Booking, bs: seq<Booking>): (r: seq<Booking>)
    requires IsSortedDesc(bs)
    ensures IsSortedDesc(r)
    ensures multiset(r) == multiset(bs) + multiset{b}
    ensures forall x :: x in r ==> x in bs || x == b
    ensures |r| == |bs| + 1 && (r[0] == b || (|bs| > 0 && r[0] == bs[0]))
  {
    if |bs| == 0 || b.createdAt >= bs[0].createdAt then [b] + bs
    else
      var tail := InsertDesc(b, bs[1..]);
      assert bs == [bs[0]] + bs[1..];
      SortedCons(bs[0], tail);
      [bs[0]] + tail
  }

  /** A record no older than the head of a sorted list can go in front of it. */
  lemma SortedCons(x: Booking, t: seq<Booking>)
    requires IsSortedDesc(t)
    requires |t| > 0 ==> x.createdAt >= t[0].createdAt
    ensures IsSortedDesc([x] + t)
  {
    var r := [x] + t;
    forall i, j | 0 <= i < j < |r| ensures r[i].createdAt >= r[j].createdAt {
      assert r[j] == t[j - 1];
      if i > 0 {
        assert r[i] == t[i - 1];
      }
    }
  }

  /** `orderBy("createdAt", DESCENDING)`, as an insertion sort. */
  function SortDesc(bs: seq<Booking>): (r: seq<Booking>)
    ensures IsSortedDesc(r)
    ensures multiset(r) == multiset(bs)
    ensures |r| == |bs|
  {
    if |bs| == 0 then []
    else
      assert bs == [bs[0]] + bs[1..];
      InsertDesc(bs[0], SortDesc(bs[1..]))
  }

  /** A count is zero exactly when no record satisfies the predicate. */
  lemma {:induction false} CountWhereZero(bs: seq<Booking>, p: Booking -> bool)
    ensures CountWhere(bs, p) == 0 <==> forall b :: b in bs ==> !p(b)
    decreases |bs|
  {
    if |bs| > 0 {
      CountWhereZero(bs[1..], p);
      assert forall b :: b in bs ==> b == bs[0] || b in bs[1..];
    }
  }

  /** A listing query: parse, keep what `p` accepts, newest first. Exactly
      the parsable records `p` accepts come out, each as often as it was stored. */
  lemma FilteredListing(docs: seq<Doc<Booking>>, p: Booking -> bool, r: seq<Booking>)
    requires r == SortDesc(Filter(ParseAll(docs), p))
    ensures |r| == CountWhere(ParseAll(docs), p)
    ensures forall b :: multiset(r)[b] == if p(b) then multiset(docs)[Parsed(b)] else 0
  {
    var bs := ParseAll(docs);
    var f := Filter(bs, p);
    forall b ensures multiset(r)[b] == if p(b) then multiset(docs)[Parsed(b)] else 0 {
      assert multiset(r)[b] == multiset(f)[b];
      assert multiset(bs)[b] == multiset(docs)[Parsed(b)];
    }
  }

  /** Firestore's single-field `update("status", status)`: any string is accepted. */
  function UpdateStatus(store: Store, id: string, status: string, backend: Option<Exn>): (o: StoreOutcome)
    ensures o.result.Success? <==> backend.None? && id in store
    ensures o.result.Success? ==> o.store == store[id := store[id].(status := status)]
    ensures o.result.Failure? ==> o.store == store
    ensures o.store.Keys == store.Keys
    ensures forall k :: k in store && k != id ==> o.store[k] == store[k]
  {
    if backend.Some? then StoreOutcome(store, Failure(backend.value))
    else if id !in store then StoreOutcome(store, Fail(NotFoundMessage))
    else StoreOutcome(store[id := store[id].(status := status)], Success(()))
  }
}
