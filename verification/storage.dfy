/** The attachment helper over the object-storage bucket (`SupabaseStorageHelper`).

    What the platform reports about a picked file is an oracle (`LocalFile`):
    its MIME type from the content resolver, what `available()` returned when
    the size was probed, and what `readBytes()` returned when it was read.
    The bucket is a map from object key to bytes; the storage service's
    own success or failure is an `Option<Exn>` oracle.
 */
module Storage {
  import opened Wrappers
  import opened Text

  type Bucket = map<string, seq<bv8>>

  /** Result of opening the stream and calling `available()`. */
  datatype SizeProbe = ProbeThrows | NoStream | Available(n: nat)

  /** Result of opening the stream and calling `readBytes()`. */
  datatype ReadOutcome = ReadThrows(e: Exn) | NoBytes | Bytes(data: seq<bv8>)

  datatype LocalFile = LocalFile(mime: Option<string>, probe: SizeProbe, read: ReadOutcome)

  datatype StorageOutcome<T> = StorageOutcome(bucket: Bucket, result: Result<T>)

  const ReadFailedMessage := "Gagal membaca file"
  /** What the storage service answers to a no-clobber upload onto an existing key. */
  const DuplicateMessage := "The resource already exists"
  const DefaultMaxMB := 5

  /** The MIME type `getFileExtension` maps to each extension it can produce. */
  function MimeOfExtension(ext: string): string {
    "image/" + (if ext == "jpg" then "jpeg" else ext)
  }

  predicate IsTableExtension(ext: string) {
    ext == "jpg" || ext == "png" || ext == "gif" || ext == "webp"
  }

  /** `getFileExtension`: a fixed table with "jpg" for everything else,
      including an unknown (null) type. */
  function GetFileExtension(mime: Option<string>): (ext: string)
    ensures IsTableExtension(ext)
    ensures '/' !in ext && '.' !in ext
    ensures mime.None? ==> ext == "jpg"
    ensures mime == Some("image/jpeg") || mime == Some("image/jpg") ==> ext == "jpg"
    ensures mime == Some("image/png") ==> ext == "png"
    ensures mime == Some("image/gif") ==> ext == "gif"
    ensures mime == Some("image/webp") ==> ext == "webp"
    ensures mime.Some? && mime.value !in {"image/jpeg", "image/jpg", "image/png", "image/gif", "image/webp"}
      ==> ext == "jpg"
  {
    match mime
    case None => "jpg"
    case Some(m) =>
      if m == "image/jpeg" || m == "image/jpg" then "jpg"
      else if m == "image/png" then "png"
      else if m == "image/gif" then "gif"
      else if m == "image/webp" then "webp"
      else "jpg"
  }

  /** Every extension the table produces is recovered from its canonical type. */
  lemma ExtensionRoundTrip(ext: string)
    requires IsTableExtension(ext)
    ensures GetFileExtension(Some(MimeOfExtension(ext))) == ext
    ensures ValidateFileType(Some(MimeOfExtension(ext)))
  {
    var m := MimeOfExtension(ext);
    assert m == "image/" + (if ext == "jpg" then "jpeg" else ext);
    assert m[..6] == "image/";
    if ext == "jpg" {
      assert m == "image/jpeg";
    } else if ext == "png" {
      assert m == "image/png";
    } else if ext == "gif" {
      assert m == "image/gif";
    } else {
      assert m == "image/webp";
    }
  }

  /** `validateFileType`: a prefix test on the reported type, false when there is none. */
  function ValidateFileType(mime: Option<string>): (ok: bool)
    ensures ok <==> mime.Some? && |mime.value| >= 6 && mime.value[..6] == "image/"
  {
    mime.Some? && StartsWith(mime.value, "image/")
  }

  /** The type check is not an allow-list: an image type the extension table
      does not know passes it and is stored under the default extension. */
  lemma TypeCheckIsNotAllowList()
    ensures ValidateFileType(Some("image/svg+xml"))
    ensures GetFileExtension(Some("image/svg+xml")) == "jpg"
    ensures !ValidateFileType(Some("application/pdf")) && !ValidateFileType(None)
  {
    assert "image/svg+xml"[..6] == "image/";
    assert "application/pdf"[0] != "image/"[0];
  }

  /** Kotlin `Int` arithmetic: two's-complement 32-bit wrap-around. */
  function Wrap32(x: int): (r: int)
    ensures -0x8000_0000 <= r < 0x8000_0000
    ensures -0x8000_0000 <= x < 0x8000_0000 ==> r == x
  {
    (x + 0x8000_0000) % 0x1_0000_0000 - 0x8000_0000
  }

  /** `maxSizeMB * 1024 * 1024` evaluated in `Int`. */
  function MaxSizeBytes(maxSizeMB: int): int {
    Wrap32(Wrap32(maxSizeMB * 1024) * 1024)
  }

  /** Without overflow the bound is exactly `maxSizeMB` mebibytes; at 2048 MB it wraps negative. */
  lemma MaxSizeBytesNoOverflow(maxSizeMB: int)
    requires 0 <= maxSizeMB < 2048
    ensures MaxSizeBytes(maxSizeMB) == maxSizeMB * 1048576
  {
  }

  lemma MaxSizeBytesWraps()
    ensures MaxSizeBytes(2048) < 0
  {
  }

  /** `validateFileSize`: a missing stream reads as size 0, any exception rejects. */
  function ValidateFileSize(probe: SizeProbe, maxSizeMB: int): (ok: bool)
    requires -0x8000_0000 <= maxSizeMB < 0x8000_0000
    ensures probe.ProbeThrows? ==> !ok
    ensures 0 <= maxSizeMB < 2048 ==>
      (ok <==> (probe.NoStream? || (probe.Available? && probe.n <= maxSizeMB * 1048576)))
  {
    match probe
    case ProbeThrows => false
    case NoStream => 0 <= MaxSizeBytes(maxSizeMB)
    case Available(n) => n <= MaxSizeBytes(maxSizeMB)
  }

  /** At the default 5 MB the boundary byte count passes and one more fails. */
  lemma SizeBoundary()
    ensures ValidateFileSize(Available(5242880), DefaultMaxMB)
    ensures !ValidateFileSize(Available(5242881), DefaultMaxMB)
    ensures ValidateFileSize(NoStream, DefaultMaxMB)
  {
  }

  /** `"${folder}/${UUID.randomUUID()}.$fileExtension"`. */
  function UploadKey(folder: string, uuid: string, ext: string): string {
    folder + "/" + uuid + "." + ext
  }

  /** Keys in one folder are distinct for distinct UUIDs: the extension holds
      no '.', so the key determines both the UUID and the extension. */
  lemma UploadKeyInjective(folder: string, u1: string, e1: string, u2: string, e2: string)
    requires '.' !in e1 && '.' !in e2
    requires UploadKey(folder, u1, e1) == UploadKey(folder, u2, e2)
    ensures u1 == u2 && e1 == e2
  {
    var k := UploadKey(folder, u1, e1);
    assert k == (folder + "/" + u1) + ['.'] + e1;
    assert k == (folder + "/" + u2) + ['.'] + e2;
    SubstringAfterLastOfJoin(folder + "/" + u1, '.', e1);
    SubstringAfterLastOfJoin(folder + "/" + u2, '.', e2);
    assert (folder + "/" + u1) == k[..|k| - |e1| - 1];
    assert (folder + "/" + u2) == k[..|k| - |e2| - 1];
    assert u1 == (folder + "/" + u1)[|folder| + 1..];
    assert u2 == (folder + "/" + u2)[|folder| + 1..];
  }

  /** The public URL of an object: the bucket's public base followed by the key. */
  function PublicUrl(urlPrefix: string, key: string): string {
    urlPrefix + key
  }

  /** `uploadFile`: read, then a no-clobber upload under a fresh key, then the public URL. */
  function UploadFile(bucket: Bucket, file: LocalFile, folder: string, uuid: string,
                      urlPrefix: string, backend: Option<Exn>): (o: StorageOutcome<string>)
    ensures o.result.Success? <==>
      file.read.Bytes? && UploadKey(folder, uuid, GetFileExtension(file.mime)) !in bucket && backend.None?
    ensures o.result.Success? ==>
      var key := UploadKey(folder, uuid, GetFileExtension(file.mime));
      o.bucket == bucket[key := file.read.data] && o.result.value == PublicUrl(urlPrefix, key)
    ensures o.result.Failure? ==> o.bucket == bucket
    ensures file.read.NoBytes? ==> o.result == Fail(ReadFailedMessage)
    ensures forall k :: k in bucket ==> k in o.bucket && o.bucket[k] == bucket[k]
  {
    var key := UploadKey(folder, uuid, GetFileExtension(file.mime));
    match file.read
    case ReadThrows(e) => StorageOutcome(bucket, Failure(e))
    case NoBytes => StorageOutcome(bucket, Fail(ReadFailedMessage))
    case Bytes(data) =>
      if key in bucket then StorageOutcome(bucket, Fail(DuplicateMessage))
      else if backend.Some? then StorageOutcome(bucket, Failure(backend.value))
      else StorageOutcome(bucket[key := data], Success(PublicUrl(urlPrefix, key)))
  }

  /** Two uploads of the same file with different UUIDs land under two keys. */
  lemma UploadTwiceDistinctKeys(bucket: Bucket, file: LocalFile, folder: string,
                                u1: string, u2: string, urlPrefix: string)
    requires u1 != u2
    requires UploadFile(bucket, file, folder, u1, urlPrefix, None).result.Success?
    ensures var b1 := UploadFile(bucket, file, folder, u1, urlPrefix, None).bucket;
      UploadKey(folder, u2, GetFileExtension(file.mime)) !in bucket ==>
        var o2 := UploadFile(b1, file, folder, u2, urlPrefix, None);
        o2.result.Success? && |o2.bucket| == |bucket| + 2
  {
    var ext := GetFileExtension(file.mime);
    var k1 := UploadKey(folder, u1, ext);
    var k2 := UploadKey(folder, u2, ext);
    if k1 == k2 {
      UploadKeyInjective(folder, u1, ext, u2, ext);
    }
    assert k2 != k1;
  }

  /** `updateFile`: the same read, then an upsert onto the given key. */
  function UpdateFile(bucket: Bucket, file: LocalFile, key: string, urlPrefix: string,
                      backend: Option<Exn>): (o: StorageOutcome<string>)
    ensures o.result.Success? <==> file.read.Bytes? && backend.None?
    ensures o.result.Success? ==>
      o.bucket == bucket[key := file.read.data] && o.result.value == PublicUrl(urlPrefix, key)
    ensures o.result.Failure? ==> o.bucket == bucket
    ensures file.read.NoBytes? ==> o.result == Fail(ReadFailedMessage)
  {
    match file.read
    case ReadThrows(e) => StorageOutcome(bucket, Failure(e))
    case NoBytes => StorageOutcome(bucket, Fail(ReadFailedMessage))
    case Bytes(data) =>
      if backend.Some? then StorageOutcome(bucket, Failure(backend.value))
      else StorageOutcome(bucket[key := data], Success(PublicUrl(urlPrefix, key)))
  }

  /** Upload and update differ only on a key that is already taken: there
      the upload refuses to overwrite the object, and the update replaces
      it. On a fresh key, the two have the same outcome. */
  lemma UploadRefusesWhatUpdateReplaces(bucket: Bucket, file: LocalFile, folder: string, uuid: string,
                                        urlPrefix: string)
    requires file.read.Bytes?
    ensures var key := UploadKey(folder, uuid, GetFileExtension(file.mime));
      key in bucket ==>
        UploadFile(bucket, file, folder, uuid, urlPrefix, None) == StorageOutcome(bucket, Fail(DuplicateMessage))
        && UpdateFile(bucket, file, key, urlPrefix, None)
           == StorageOutcome(bucket[key := file.read.data], Success(PublicUrl(urlPrefix, key)))
    ensures var key := UploadKey(folder, uuid, GetFileExtension(file.mime));
      key !in bucket ==>
        UploadFile(bucket, file, folder, uuid, urlPrefix, None) == UpdateFile(bucket, file, key, urlPrefix, None)
  {
  }

  /** `deleteFile`: an error comes back as a failure value, never as an exception. */
  function DeleteFile(bucket: Bucket, key: string, backend: Option<Exn>): (o: StorageOutcome<()>)
    ensures o.result.Success? <==> backend.None?
    ensures o.result.Success? ==> key !in o.bucket && o.bucket.Keys == bucket.Keys - {key}
    ensures o.result.Failure? ==> o.bucket == bucket && o.result.exn == backend.value
    ensures forall k :: k in o.bucket ==> k in bucket && o.bucket[k] == bucket[k]
  {
    if backend.Some? then StorageOutcome(bucket, Failure(backend.value))
    else StorageOutcome(bucket - {key}, Success(()))
  }
}
