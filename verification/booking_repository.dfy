/** `BookingRepository`: the student-side create / list / delete / update
    operations, composing the booking store with the attachment bucket.

    The fresh document id (`collection("bookings").document().id`) and the
    upload's UUID are parameters; each backend call's success or failure is
    an `Option<Exn>` oracle. The status update is `BookingStore.UpdateStatus`,
    the same single-field write the admin side uses.
 */
module BookingRepository {
  import opened Wrappers
  import opened Text
  import opened Model
  import opened BookingStore
  import opened Storage

  datatype RepoOutcome<T> = RepoOutcome(store: Store, bucket: Bucket, result: Result<T>)

  const KtmFolder := "ktm"
  const CreateTypeMessage := "Format file tidak didukung. Gunakan JPG, PNG, atau GIF."
  const CreateSizeMessage := "Ukuran file terlalu besar. Maksimal 5MB."
  const UpdateTypeMessage := "Format file tidak didukung."
  const UpdateSizeMessage := "Ukuran file terlalu besar."
  const UploadFailedPrefix := "Gagal upload KTM: "

  /** The object key an attachment of `file` gets with this UUID. */
  function KtmKey(file: LocalFile, uuid: string): string {
    UploadKey(KtmFolder, uuid, GetFileExtension(file.mime))
  }

  /** The attachment passes both checks `createBooking` and `updateBooking` run. */
  predicate ChecksPass(file: LocalFile) {
    ValidateFileType(file.mime) && ValidateFileSize(file.probe, DefaultMaxMB)
  }

  /** Everything before the record write went through: there is no
      attachment, or it passed both checks and its upload succeeded. */
  predicate ReadyToWrite(bucket: Bucket, ktm: Option<LocalFile>, uuid: string, urlPrefix: string,
                         uploadBackend: Option<Exn>) {
    ktm.None?
    || (ChecksPass(ktm.value)
        && UploadFile(bucket, ktm.value, KtmFolder, uuid, urlPrefix, uploadBackend).result.Success?)
  }

  /** The key `deleteBooking` derives from a stored URL: "ktm/" + the text after the last '/'. */
  function AttachmentKey(ktmUrl: string): string {
    KtmFolder + "/" + SubstringAfterLast(ktmUrl, '/')
  }

  /** The URL round-trips to its key whenever the UUID holds no '/'. */
  lemma AttachmentKeyOfUploadUrl(urlPrefix: string, file: LocalFile, uuid: string)
    requires '/' !in uuid
    ensures AttachmentKey(PublicUrl(urlPrefix, KtmKey(file, uuid))) == KtmKey(file, uuid)
  {
    var ext := GetFileExtension(file.mime);
    var tail := uuid + "." + ext;
    assert '/' !in tail;
    var key := KtmKey(file, uuid);
    assert key == KtmFolder + ['/'] + tail;
    assert PublicUrl(urlPrefix, key) == (urlPrefix + KtmFolder) + ['/'] + tail;
    SubstringAfterLastOfJoin(urlPrefix + KtmFolder, '/', tail);
  }

  /** Type check, size check, upload, then persist under a fresh id; any
      failure before the write leaves the store untouched. */
  function CreateBooking(store: Store, bucket: Bucket, booking: Booking, ktm: Option<LocalFile>,
                         uuid: string, newId: string, urlPrefix: string,
                         uploadBackend: Option<Exn>, writeBackend: Option<Exn>): (o: RepoOutcome<string>)
    ensures o.result.Failure? ==> o.store == store
    ensures ktm.Some? && !ValidateFileType(ktm.value.mime) ==>
      o == RepoOutcome(store, bucket, Fail(CreateTypeMessage))
    ensures ktm.Some? && ValidateFileType(ktm.value.mime) && !ValidateFileSize(ktm.value.probe, DefaultMaxMB) ==>
      o == RepoOutcome(store, bucket, Fail(CreateSizeMessage))
    ensures ktm.Some? && UploadFile(bucket, ktm.value, KtmFolder, uuid, urlPrefix, uploadBackend).result.Failure? ==>
      o.result.Failure? && o.bucket == bucket
    ensures o.result.Success? ==> (o.result.value == newId && writeBackend.None? && newId in o.store
      && o.store == store[newId := booking.(id := newId, ktmUrl := o.store[newId].ktmUrl)])
    ensures o.result.Success? && ktm.None? ==> o.store[newId] == booking.(id := newId) && o.bucket == bucket
    ensures o.result.Success? && ktm.Some? ==>
      o.store[newId].ktmUrl == PublicUrl(urlPrefix, KtmKey(ktm.value, uuid))
      && KtmKey(ktm.value, uuid) in o.bucket
    ensures (ktm.Some? && ChecksPass(ktm.value)
             && UploadFile(bucket, ktm.value, KtmFolder, uuid, urlPrefix, uploadBackend).result.Failure?) ==>
      var up := UploadFile(bucket, ktm.value, KtmFolder, uuid, urlPrefix, uploadBackend);
      o == RepoOutcome(store, bucket, Fail(UploadFailedPrefix + MessageText(up.result.exn.message)))
    ensures ReadyToWrite(bucket, ktm, uuid, urlPrefix, uploadBackend) ==>
      (o.result.Success? <==> writeBackend.None?)
      && (writeBackend.Some? ==> o.result == Failure(writeBackend.value))
    ensures forall k :: k in bucket ==> k in o.bucket && o.bucket[k] == bucket[k]
    ensures ReadyToWrite(bucket, ktm, uuid, urlPrefix, uploadBackend) && ktm.Some? ==>
      o.bucket == UploadFile(bucket, ktm.value, KtmFolder, uuid, urlPrefix, uploadBackend).bucket
    ensures ktm.None? ==> o.bucket == bucket
  {
    if ktm.Some? && !ValidateFileType(ktm.value.mime) then RepoOutcome(store, bucket, Fail(CreateTypeMessage))
    else if ktm.Some? && !ValidateFileSize(ktm.value.probe, DefaultMaxMB) then
      RepoOutcome(store, bucket, Fail(CreateSizeMessage))
    else
      var up := if ktm.Some? then UploadFile(bucket, ktm.value, KtmFolder, uuid, urlPrefix, uploadBackend)
                else StorageOutcome(bucket, Success(booking.ktmUrl));
      if up.result.Failure? then
        RepoOutcome(store, bucket, Fail(UploadFailedPrefix + MessageText(up.result.exn.message)))
      else
        var data := booking.(ktmUrl := up.result.value, id := newId);
        if writeBackend.Some? then RepoOutcome(store, up.bucket, Failure(writeBackend.value))
        else RepoOutcome(store[newId := data], up.bucket, Success(newId))
  }

  /** When the record write fails after a successful upload, the uploaded
      object stays in the bucket with no booking referring to it. */
  lemma CreateLeavesOrphanOnWriteFailure(store: Store, bucket: Bucket, booking: Booking, file: LocalFile,
                                         uuid: string, newId: string, urlPrefix: string, e: Exn)
    requires ValidateFileType(file.mime) && ValidateFileSize(file.probe, DefaultMaxMB)
    requires UploadFile(bucket, file, KtmFolder, uuid, urlPrefix, None).result.Success?
    ensures var o := CreateBooking(store, bucket, booking, Some(file), uuid, newId, urlPrefix, None, Some(e));
      o.result == Failure(e) && o.store == store && KtmKey(file, uuid) in o.bucket
      && KtmKey(file, uuid) !in bucket
  {
  }

  /** `getUserBookings(userId)`: that user's parsable records, newest first. */
  function GetUserBookings(docs: seq<Doc<Booking>>, userId: string, backend: Option<Exn>): (r: Result<seq<Booking>>)
    ensures backend.Some? ==> r == Failure(backend.value)
    ensures backend.None? ==> r.Success?
    ensures r.Success? ==> IsSortedDesc(r.value)
    ensures r.Success? ==> forall b :: (multiset(r.value)[b] ==
      if b.userId == userId then multiset(docs)[Parsed(b)] else 0)
  {
    if backend.Some? then Failure(backend.value)
    else
      var r := SortDesc(Filter(ParseAll(docs), (b: Booking) => b.userId == userId));
      FilteredListing(docs, (b: Booking) => b.userId == userId, r);
      Success(r)
  }

  /** `deleteBooking`: best-effort attachment delete, then the record delete,
      which happens whatever the attachment delete returned. */
  function DeleteBooking(store: Store, bucket: Bucket, id: string, getBackend: Option<Exn>,
                         fileBackend: Option<Exn>, deleteBackend: Option<Exn>): (o: RepoOutcome<()>)
    ensures o.result.Success? <==> getBackend.None? && deleteBackend.None?
    ensures o.result.Success? ==> o.store == store - {id}
    ensures o.result.Failure? ==> o.store == store
    ensures getBackend.Some? ==> o.bucket == bucket
    ensures (id !in store || store[id].ktmUrl == "" || fileBackend.Some?) ==> o.bucket == bucket
    ensures getBackend.None? && id in store && store[id].ktmUrl != "" && fileBackend.None? ==>
      o.bucket == bucket - {AttachmentKey(store[id].ktmUrl)}
  {
    if getBackend.Some? then RepoOutcome(store, bucket, Failure(getBackend.value))
    else
      var bucket' :=
        if id in store && store[id].ktmUrl != "" then
          DeleteFile(bucket, AttachmentKey(store[id].ktmUrl), fileBackend).bucket
        else bucket;
      if deleteBackend.Some? then RepoOutcome(store, bucket', Failure(deleteBackend.value))
      else RepoOutcome(store - {id}, bucket', Success(()))
  }

  /** A booking created with an attachment and then deleted leaves neither
      the record nor the uploaded object behind. */
  lemma CreateThenDeleteRemovesAttachment(store: Store, bucket: Bucket, booking: Booking, file: LocalFile,
                                          uuid: string, newId: string, urlPrefix: string)
    requires '/' !in uuid
    requires CreateBooking(store, bucket, booking, Some(file), uuid, newId, urlPrefix, None, None).result.Success?
    ensures var c := CreateBooking(store, bucket, booking, Some(file), uuid, newId, urlPrefix, None, None);
      var d := DeleteBooking(c.store, c.bucket, newId, None, None, None);
      d.result.Success? && newId !in d.store && KtmKey(file, uuid) !in d.bucket
      && d.store == store - {newId}
  {
    var c := CreateBooking(store, bucket, booking, Some(file), uuid, newId, urlPrefix, None, None);
    AttachmentKeyOfUploadUrl(urlPrefix, file, uuid);
    assert c.store[newId].ktmUrl != "";
  }

  /** `updateBooking`: the whole record is written under `booking.id`; a new
      file, when valid and uploaded, replaces only `ktmUrl`. */
  function UpdateBooking(store: Store, bucket: Bucket, booking: Booking, ktm: Option<LocalFile>,
                         uuid: string, urlPrefix: string,
                         uploadBackend: Option<Exn>, writeBackend: Option<Exn>): (o: RepoOutcome<()>)
    ensures o.result.Failure? ==> o.store == store
    ensures ktm.Some? && !ValidateFileType(ktm.value.mime) ==>
      o == RepoOutcome(store, bucket, Fail(UpdateTypeMessage))
    ensures ktm.Some? && ValidateFileType(ktm.value.mime) && !ValidateFileSize(ktm.value.probe, DefaultMaxMB) ==>
      o == RepoOutcome(store, bucket, Fail(UpdateSizeMessage))
    ensures o.result.Success? && ktm.None? ==> o.store == store[booking.id := booking] && o.bucket == bucket
    ensures o.result.Success? && ktm.Some? ==>
      o.store == store[booking.id := booking.(ktmUrl := PublicUrl(urlPrefix, KtmKey(ktm.value, uuid)))]
    ensures forall k :: k in bucket ==> k in o.bucket && o.bucket[k] == bucket[k]
    ensures (ktm.Some? && ChecksPass(ktm.value)
             && UploadFile(bucket, ktm.value, KtmFolder, uuid, urlPrefix, uploadBackend).result.Failure?) ==>
      var up := UploadFile(bucket, ktm.value, KtmFolder, uuid, urlPrefix, uploadBackend);
      o == RepoOutcome(store, bucket, Fail(UploadFailedPrefix + MessageText(up.result.exn.message)))
    ensures ReadyToWrite(bucket, ktm, uuid, urlPrefix, uploadBackend) ==>
      (o.result.Success? <==> writeBackend.None?)
      && (writeBackend.Some? ==> o.result == Failure(writeBackend.value))
  {
    if ktm.Some? && !ValidateFileType(ktm.value.mime) then RepoOutcome(store, bucket, Fail(UpdateTypeMessage))
    else if ktm.Some? && !ValidateFileSize(ktm.value.probe, DefaultMaxMB) then
      RepoOutcome(store, bucket, Fail(UpdateSizeMessage))
    else
      var up := if ktm.Some? then UploadFile(bucket, ktm.value, KtmFolder, uuid, urlPrefix, uploadBackend)
                else StorageOutcome(bucket, Success(booking.ktmUrl));
      if up.result.Failure? then
        RepoOutcome(store, bucket, Fail(UploadFailedPrefix + MessageText(up.result.exn.message)))
      else
        var data := booking.(ktmUrl := up.result.value);
        if writeBackend.Some? then RepoOutcome(store, up.bucket, Failure(writeBackend.value))
        else RepoOutcome(store[booking.id := data], up.bucket, Success(()))
  }
}
