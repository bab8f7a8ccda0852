/** Whole-system facts about the `bookings` collection: the document id a
    record is stored under agrees with its `id` field across every write,
    and the buttons of the screens realise exactly the booking lifecycle
    Pending → Ongoing → Completed, with Cancelled reachable from the first two.
 */
module Lifecycle {
  import opened Wrappers
  import opened Model
  import opened BookingStore
  import opened Storage
  import BookingRepository
  import AdminRepository
  import AdminScreens
  import StudentScreens

  /** Every record's `id` field names the document it is stored in. */
  predicate KeysMatchIds(store: Store) {
    forall k :: k in store ==> store[k].id == k
  }

  /** `createBooking` stores the record under the fresh id and writes that id into it. */
  lemma CreatePreservesIds(store: Store, bucket: Bucket, booking: Booking, ktm: Option<LocalFile>,
                           uuid: string, newId: string, urlPrefix: string,
                           uploadBackend: Option<Exn>, writeBackend: Option<Exn>)
    requires KeysMatchIds(store)
    ensures KeysMatchIds(BookingRepository.CreateBooking(store, bucket, booking, ktm, uuid, newId, urlPrefix,
                                                         uploadBackend, writeBackend).store)
  {
  }

  /** `updateBooking` writes under the record's own id. */
  lemma UpdatePreservesIds(store: Store, bucket: Bucket, booking: Booking, ktm: Option<LocalFile>,
                           uuid: string, urlPrefix: string, uploadBackend: Option<Exn>, writeBackend: Option<Exn>)
    requires KeysMatchIds(store)
    ensures KeysMatchIds(BookingRepository.UpdateBooking(store, bucket, booking, ktm, uuid, urlPrefix,
                                                         uploadBackend, writeBackend).store)
  {
  }

  /** Deleting, changing the status and assigning a counsellor leave ids alone. */
  lemma OtherWritesPreserveIds(store: Store, bucket: Bucket, id: string, status: string, konselor: string,
                               b1: Option<Exn>, b2: Option<Exn>, b3: Option<Exn>)
    requires KeysMatchIds(store)
    ensures KeysMatchIds(BookingRepository.DeleteBooking(store, bucket, id, b1, b2, b3).store)
    ensures KeysMatchIds(UpdateStatus(store, id, status, b1).store)
    ensures KeysMatchIds(AdminRepository.AssignKonselor(store, id, konselor, b1).store)
  {
  }

  /** The lifecycle a counselling booking is meant to follow. */
  predicate LifecycleStep(from: string, to: string) {
    (from == Pending && (to == Ongoing || to == Cancelled))
    || (from == Ongoing && (to == Completed || to == Cancelled))
  }

  /** The status an admin action leaves behind when its write succeeds. */
  function TargetOf(a: AdminScreens.AdminAction): (status: string)
    ensures a.Assign? ==> status == Ongoing
    ensures a.SetStatus? ==> status == a.status
  {
    if a.Assign? then Ongoing else a.status
  }

  /** Every status some button on some screen can move `b` to: the booking
      list (with dialog choice `pick`), the dashboard, and the student's
      cancel button. */
  function ScreenTargets(b: Booking, pick: nat): (targets: set<string>)
    requires pick < |AdminScreens.KonselorList|
  {
    var acts := AdminScreens.ListActions(b, pick) + AdminScreens.DashboardActions(b);
    (set a | a in acts :: TargetOf(a))
    + (if StudentScreens.CancelRequest(b).Some? then {Cancelled} else {})
  }

  /** The screens offer exactly the lifecycle's steps: nothing from a
      finished, cancelled or unknown status, and every step from the others. */
  lemma ScreensRealiseLifecycle(b: Booking, pick: nat, to: string)
    requires pick < |AdminScreens.KonselorList|
    ensures to in ScreenTargets(b, pick) <==> LifecycleStep(b.status, to)
  {
    var la := AdminScreens.ListActions(b, pick);
    var da := AdminScreens.DashboardActions(b);
    var acts := la + da;
    if b.status == Pending {
      assert acts[2] == AdminScreens.SetStatus(b.id, Ongoing);
      assert acts[1] == AdminScreens.SetStatus(b.id, Cancelled);
      assert TargetOf(acts[2]) == Ongoing && TargetOf(acts[1]) == Cancelled;
    } else if b.status == Ongoing {
      assert acts[0] == AdminScreens.SetStatus(b.id, Completed);
      assert TargetOf(acts[0]) == Completed;
    } else {
      assert acts == [];
    }
  }

  /** Applied to a store that keeps ids consistent, any button's action
      changes the chosen record to one of the lifecycle's next statuses. */
  lemma AdminButtonsFollowLifecycle(store: Store, id: string, pick: nat, a: AdminScreens.AdminAction)
    requires KeysMatchIds(store) && id in store && pick < |AdminScreens.KonselorList|
    requires a in AdminScreens.ListActions(store[id], pick) + AdminScreens.DashboardActions(store[id])
    ensures var r := AdminScreens.ApplyAdmin(store, a);
      r.result.Success? && LifecycleStep(store[id].status, r.store[id].status)
  {
    var b := store[id];
    assert a.id == id;
    assert TargetOf(a) in ScreenTargets(b, pick);
    ScreensRealiseLifecycle(b, pick, TargetOf(a));
  }
}
