# Booking Konseling — a Dafny model of the client's decision logic

Booking Konseling is an Android client. Students use it to book counselling
sessions, and administrators use it to accept, assign, complete or reject them.
Records live in a document store (`bookings`, `users`), and identity comes from an
authentication service. Student-card scans ("KTM") go to an object-storage bucket.

This project models the logic the client itself decides:

- **Records and store.** The `Booking` record and its defaults. The `bookings`
  collection is a `map<string, Booking>`. Query snapshots are sequences of
  documents, some of which may fail to parse.
- **Booking repository.** Create, list, status-update, delete and update. This
  includes the attachment checks (type prefix, 32-bit size bound, extension
  table) and the object-key scheme.
- **Admin repository.** The filtered list, the dashboard statistics with their
  three time windows, and the counsellor assignment.
- **Auth repository.** Result shaping of sign-in, sign-up, profile read and the
  two-attempt sign-out.
- **View models.** The state machines of the three view models: auth, student
  booking and admin.
- **Routing.** The e-mail role classifier, the post-authentication navigation
  effect, and the start destination `MainActivity` computes. The navigation
  graph ignores that value and always opens at login; the effect then moves on.
- **Screen tables.**
  - The admin screens' per-status action tables, filter chips, counsellor list,
    recent-bookings cut and stat cards.
  - The student screens' status labels, cancel gating, display fallbacks, submit
    gate and submitted fields.
  - The login and register screens' submit predicates, validation flags,
    trimming and first-match error-message tables.

Everything the platform or a backend decides is an explicit parameter:

- whether a call succeeded (`Option<Exn>`, `None` = completed);
- the fresh document id and upload UUID;
- what the content resolver reports about a picked file;
- the clock reading and the window starts;
- the bucket's public URL base;
- whether the e-mail regular expression matches.

A coroutine that launches follow-up coroutines returns them as effects
(`AdminEffect`, a reload flag) rather than running them inline.

Modules follow the source layout:

- `Wrappers`, `Text`, `Model`
- `BookingStore`, `Storage`
- `BookingRepository`, `AdminRepository`, `AuthRepository`
- `AuthViewModel`, `BookingViewModel`, `AdminViewModel`
- `Routing`
- `AdminScreens`, `StudentScreens`, `AuthScreens`
- `Lifecycle`: cross-cutting facts about the store and the screens.

Where the comments or UI text promise more than the code does, the model follows the code:

- The file-type check is a prefix test on "image/", not the JPG/PNG/GIF
  allow-list its error text names.
- A missing input stream passes the size check.
- The dashboard time windows use a strict "after".
- The dashboard's "Terima" sets Ongoing without assigning a counsellor.
- No repository write checks the current status.
- `Navigation` reads an `isInitialized` flag that `AuthUiState` does not
  declare. It is a parameter here.

## Model

| member | source | states |
|---|---|---|
| Model.NewBooking | app/src/main/java/com/example/bookingkonseling/data/model/Booking.kt:6-19 | A default booking is "Pending" with empty id, counsellor and attachment URL; `tanggal` and `createdAt` are two independent clock readings |
| Model.NewAdmin | app/src/main/java/com/example/bookingkonseling/data/model/Admin.kt:4-10 | The admin marker record defaults its role to "admin" |
| Text.ContainsIffOccurs | app/src/main/java/com/example/bookingkonseling/presentation/ui/screens/LoginScreen.kt:175-181 | The left-to-right scan modelling `String.contains` holds exactly when the needle occurs at some position |
| Text.ContainsChars | app/src/main/java/com/example/bookingkonseling/presentation/ui/screens/LoginScreen.kt:175-181 | Every character of a contained needle occurs in the text, so a needle with a character the message lacks cannot match |
| Text.SubstringAfterLast | app/src/main/java/com/example/bookingkonseling/data/repository/BookingRepository.kt:118 | `substringAfterLast('/')` is a '/'-free suffix, preceded by the last '/', or the whole string when there is none |
| Text.Trim | app/src/main/java/com/example/bookingkonseling/presentation/ui/screens/RegisterScreen.kt:296-301 | `trim()` returns a contiguous middle of the input with blank margins and no whitespace at either end |
| Text.TrimEmptyIffBlank | app/src/main/java/com/example/bookingkonseling/presentation/ui/screens/LoginScreen.kt:119-120 | Trimming yields the empty string exactly on blank input, so a non-blank e-mail is sent non-empty |
| BookingStore.ParseAll | app/src/main/java/com/example/bookingkonseling/data/repository/AdminRepository.kt:26-33 | `mapNotNull { toObject }` keeps each parsable record as often as it occurs and never grows the list |
| BookingStore.ParseAllAppend | app/src/main/java/com/example/bookingkonseling/data/repository/AdminRepository.kt:26-33 | Parsing distributes over concatenation of snapshots |
| BookingStore.ParseAllSkipsMalformed | app/src/main/java/com/example/bookingkonseling/data/repository/AdminRepository.kt:26-35 | One unparsable document anywhere changes nothing in the parsed list |
| BookingStore.Filter | app/src/main/java/com/example/bookingkonseling/data/repository/AdminRepository.kt:21-23 | The status filter keeps exactly the matching records with their multiplicities, and its length is the match count |
| BookingStore.SortDesc | app/src/main/java/com/example/bookingkonseling/data/repository/AdminRepository.kt:18-19 | The descending `createdAt` order is a permutation of its input and sorted newest first |
| BookingStore.UpdateStatus | app/src/main/java/com/example/bookingkonseling/data/repository/AdminRepository.kt:42-53 | The status update writes only `status`, accepts any string, fails without change on a missing document or backend error, and keeps every other record |
| Storage.GetFileExtension | app/src/main/java/com/example/bookingkonseling/utils/SupabaseStorageHelper.kt:103-112 | The table as written: image/jpeg and image/jpg give jpg, image/png png, image/gif gif, image/webp webp, and a missing or any other type gives jpg; the extension never holds a '/' or '.' |
| Storage.ExtensionRoundTrip | app/src/main/java/com/example/bookingkonseling/utils/SupabaseStorageHelper.kt:103-112 | Each table extension is recovered from its canonical image type, which also passes the type check |
| Storage.ValidateFileType | app/src/main/java/com/example/bookingkonseling/utils/SupabaseStorageHelper.kt:135-138 | True iff a type is reported and its first six characters are "image/" |
| Storage.TypeCheckIsNotAllowList | app/src/main/java/com/example/bookingkonseling/utils/SupabaseStorageHelper.kt:135-138 | image/svg+xml passes the check and is stored as jpg; application/pdf and a missing type fail |
| Storage.Wrap32 | app/src/main/java/com/example/bookingkonseling/utils/SupabaseStorageHelper.kt:124 | Kotlin `Int` arithmetic stays in 32-bit range and is the identity inside it |
| Storage.MaxSizeBytesNoOverflow | app/src/main/java/com/example/bookingkonseling/utils/SupabaseStorageHelper.kt:124 | Below 2048 MB the bound is exactly `maxSizeMB` mebibytes |
| Storage.MaxSizeBytesWraps | app/src/main/java/com/example/bookingkonseling/utils/SupabaseStorageHelper.kt:124 | At 2048 MB the 32-bit product wraps negative |
| Storage.ValidateFileSize | app/src/main/java/com/example/bookingkonseling/utils/SupabaseStorageHelper.kt:117-130 | An exception rejects; otherwise accepted iff no stream, or the reported size is at most the bound |
| Storage.SizeBoundary | app/src/main/java/com/example/bookingkonseling/utils/SupabaseStorageHelper.kt:124-125 | At 5 MB, 5242880 bytes pass, 5242881 fail, and a missing stream passes |
| Storage.UploadKeyInjective | app/src/main/java/com/example/bookingkonseling/utils/SupabaseStorageHelper.kt:27-28 | Within one folder the key `folder/uuid.ext` determines the UUID and the extension |
| Storage.UploadFile | app/src/main/java/com/example/bookingkonseling/utils/SupabaseStorageHelper.kt:23-52 | Succeeds iff bytes were read, the fresh key is unused (no-clobber) and the service succeeds; then only that key is added and its public URL returned; unreadable bytes give "Gagal membaca file" |
| Storage.UploadTwiceDistinctKeys | app/src/main/java/com/example/bookingkonseling/utils/SupabaseStorageHelper.kt:27-37 | Two uploads with different UUIDs land under two keys, growing the bucket by two |
| Storage.UpdateFile | app/src/main/java/com/example/bookingkonseling/utils/SupabaseStorageHelper.kt:57-77 | The update is an upsert onto the given key: succeeds iff bytes were read and the service succeeds |
| Storage.UploadRefusesWhatUpdateReplaces | app/src/main/java/com/example/bookingkonseling/utils/SupabaseStorageHelper.kt:23-77 | On a key already taken, `upsert = false` refuses with the duplicate message while `upsert = true` replaces the object; on a fresh key the two outcomes are identical |
| Storage.DeleteFile | app/src/main/java/com/example/bookingkonseling/utils/SupabaseStorageHelper.kt:82-91 | An error comes back as a failure value with the bucket unchanged; success removes exactly that key |
| BookingRepository.AttachmentKeyOfUploadUrl | app/src/main/java/com/example/bookingkonseling/data/repository/BookingRepository.kt:114-119 | The key `deleteBooking` derives from an upload's public URL is the key the upload used |
| BookingRepository.CreateBooking | app/src/main/java/com/example/bookingkonseling/data/repository/BookingRepository.kt:16-65 | Type check before size check before upload before write, each failing with its own message ("Format file…", "Ukuran file…", "Gagal upload KTM: " + the upload's message, the write's own exception) and no record stored; once the checks and upload pass, success iff the write completes, storing the input under the fresh id with that id and, with an attachment, the upload's URL; every existing object survives, and once ready the bucket is the upload's, even when the write then fails |
| BookingRepository.CreateLeavesOrphanOnWriteFailure | app/src/main/java/com/example/bookingkonseling/data/repository/BookingRepository.kt:33-53 | A record write failing after a successful upload leaves the uploaded object with no record |
| BookingRepository.GetUserBookings | app/src/main/java/com/example/bookingkonseling/data/repository/BookingRepository.kt:67-88 | Exactly the user's parsable records, newest first; a query failure is returned as is |
| BookingRepository.DeleteBooking | app/src/main/java/com/example/bookingkonseling/data/repository/BookingRepository.kt:103-137 | Succeeds iff the read and the record delete succeed, whatever the attachment delete did; the attachment key "ktm/" + last URL segment is removed only for a non-empty URL and a successful file delete |
| BookingRepository.CreateThenDeleteRemovesAttachment | app/src/main/java/com/example/bookingkonseling/data/repository/BookingRepository.kt:103-131 | Creating with an attachment then deleting leaves neither the record nor the object |
| BookingRepository.UpdateBooking | app/src/main/java/com/example/bookingkonseling/data/repository/BookingRepository.kt:139-174 | Writes the given record under its own id; a valid new file replaces only `ktmUrl`; type and size failures change nothing; an upload failure gives "Gagal upload KTM: " + its message; once the file is ready, success iff the write completes, else the write's exception; existing objects are kept |
| AdminRepository.GetAllBookings | app/src/main/java/com/example/bookingkonseling/data/repository/AdminRepository.kt:16-39 | Every parsable record for no filter or "All", else exactly those with that status, newest first |
| AdminRepository.AllMeansNoFilter | app/src/main/java/com/example/bookingkonseling/data/repository/AdminRepository.kt:21-23 | The "All" sentinel gives the same result as no filter |
| AdminRepository.StatusCountsPartition | app/src/main/java/com/example/bookingkonseling/data/repository/AdminRepository.kt:92-96 | The four status counts plus the unknown-status count equal the total |
| AdminRepository.WindowMonotone | app/src/main/java/com/example/bookingkonseling/data/repository/AdminRepository.kt:97-105 | An earlier window start counts at least as many bookings; no window exceeds the total |
| AdminRepository.WindowExcludesStart | app/src/main/java/com/example/bookingkonseling/data/repository/AdminRepository.kt:97-105 | Adding a booking created exactly at a window start leaves that window's dashboard count unchanged; one created a millisecond later raises it by one |
| AdminRepository.ComputeStats | app/src/main/java/com/example/bookingkonseling/data/repository/AdminRepository.kt:91-106 | Total is the record count; each status field counts the records with that status; each window field counts the records created strictly after its start; status counts sum to at most the total, with equality iff every status is one of the four; windows nest by their starts |
| AdminRepository.StatsOfAppend | app/src/main/java/com/example/bookingkonseling/data/repository/AdminRepository.kt:91-106 | One more booking raises the total by one, exactly its own status count by one, and each window count by one iff it was created after that window's start |
| AdminRepository.GetBookingStats | app/src/main/java/com/example/bookingkonseling/data/repository/AdminRepository.kt:56-112 | Success iff the query succeeds; the total counts the parsable records |
| AdminRepository.GetAllUsers | app/src/main/java/com/example/bookingkonseling/data/repository/AdminRepository.kt:115-130 | Every parsable profile with its multiplicity, nothing else; a query failure is returned as is |
| AdminRepository.AssignKonselor | app/src/main/java/com/example/bookingkonseling/data/repository/AdminRepository.kt:133-149 | One write sets the counsellor and "Ongoing", whatever the prior status; no other field or record changes |
| AdminRepository.WritesAreUnguarded | app/src/main/java/com/example/bookingkonseling/data/repository/AdminRepository.kt:133-143 | A Completed booking can be set back to Pending, or reassigned to an empty counsellor |
| AdminRepository.UnknownStatusEscapesCounts | app/src/main/java/com/example/bookingkonseling/data/repository/AdminRepository.kt:93-96 | A record with a status outside the four makes the status counts sum to less than the total |
| AuthRepository.GetCurrentUser | app/src/main/java/com/example/bookingkonseling/data/repository/AuthRepository.kt:17-24 | Never fails: an exception reads as no account |
| AuthRepository.Login | app/src/main/java/com/example/bookingkonseling/data/repository/AuthRepository.kt:27-40 | Success iff the call completed with an account; a null account gives "Login failed: User is null"; a thrown exception is passed through |
| AuthRepository.NewProfile | app/src/main/java/com/example/bookingkonseling/data/repository/AuthRepository.kt:59-66 | The stored profile carries the uid and the arguments, with an empty photo URL |
| AuthRepository.Register | app/src/main/java/com/example/bookingkonseling/data/repository/AuthRepository.kt:43-81 | Success iff sign-up returned an account and the profile write succeeded; then the profile is stored under the uid; any failure stores nothing |
| AuthRepository.GetUserData | app/src/main/java/com/example/bookingkonseling/data/repository/AuthRepository.kt:105-123 | A stored profile is returned; a missing one gives "User data not found"; a read failure is passed through |
| AuthRepository.RegisterThenGetUserData | app/src/main/java/com/example/bookingkonseling/data/repository/AuthRepository.kt:59-71 | A profile written by a successful sign-up is read back with the registration's fields |
| AuthRepository.RegisterCanLeaveAccountWithoutProfile | app/src/main/java/com/example/bookingkonseling/data/repository/AuthRepository.kt:54-71 | If the profile write fails after account creation, the account has no profile and the read reports it missing |
| AuthRepository.Logout | app/src/main/java/com/example/bookingkonseling/data/repository/AuthRepository.kt:84-102 | One or two sign-out attempts, the second iff the first threw; signed out iff either attempt returned |
| AuthViewModel.CheckAuthStatus | app/src/main/java/com/example/bookingkonseling/presentation/viewmodel/AuthViewModel.kt:32-46 | Logged in iff the current-account read found an account; loading stops; nothing else changes |
| AuthViewModel.Initial | app/src/main/java/com/example/bookingkonseling/presentation/viewmodel/AuthViewModel.kt:24-30 | The first state: logged in iff an account exists, not loading, no error |
| AuthViewModel.SubmitStart | app/src/main/java/com/example/bookingkonseling/presentation/viewmodel/AuthViewModel.kt:52 | Starting a submit sets loading and clears the error, keeping the session flags |
| AuthViewModel.SubmitFinish | app/src/main/java/com/example/bookingkonseling/presentation/viewmodel/AuthViewModel.kt:55-62 | Success replaces the whole state with the logged-in default; failure stops loading, keeps the session, and shows the message or the fallback |
| AuthViewModel.Login | app/src/main/java/com/example/bookingkonseling/presentation/viewmodel/AuthViewModel.kt:49-71 | After sign-in, logged in iff it was before or the call returned an account; an error is shown exactly when it did not |
| AuthViewModel.Register | app/src/main/java/com/example/bookingkonseling/presentation/viewmodel/AuthViewModel.kt:74-103 | After sign-up, logged in iff it was before or both the account and the profile write succeeded; then the new profile is stored under the account's uid; an error is shown exactly when they did not, and then no profile is stored |
| AuthViewModel.LogoutStart | app/src/main/java/com/example/bookingkonseling/presentation/viewmodel/AuthViewModel.kt:109-112 | Logging out is flagged and the error cleared |
| AuthViewModel.Logout | app/src/main/java/com/example/bookingkonseling/presentation/viewmodel/AuthViewModel.kt:106-138 | Always ends logged out, not logging out, not loading; a warning appears iff the coroutine was interrupted |
| AuthViewModel.ClearError | app/src/main/java/com/example/bookingkonseling/presentation/viewmodel/AuthViewModel.kt:141-143 | Only the error is cleared |
| AuthViewModel.LoginThenLogoutIsIdle | app/src/main/java/com/example/bookingkonseling/presentation/viewmodel/AuthViewModel.kt:106-127 | Signing out after a successful sign-in returns to the default state |
| AuthViewModel.FailedLoginKeepsSession | app/src/main/java/com/example/bookingkonseling/presentation/viewmodel/AuthViewModel.kt:58-62 | A failed sign-in keeps the previous session and shows the exception's message or "Login gagal" |
| Routing.IsAdminEmailIffContainsAdmin | app/src/main/java/com/example/bookingkonseling/navigation/Navigation.kt:49-54 | The two-part admin test reduces to "contains admin": the domain suffix adds nothing |
| Routing.RoleOf | app/src/main/java/com/example/bookingkonseling/navigation/Navigation.kt:49-58 | The role is "admin" iff the e-mail exists and contains "admin", else "student" |
| Routing.RoleAfterEffect | app/src/main/java/com/example/bookingkonseling/navigation/Navigation.kt:45-61 | The role is recomputed only when there is a current account |
| Routing.SignedInDestination | app/src/main/java/com/example/bookingkonseling/navigation/Navigation.kt:67-71 | admin_main iff the role is "admin"; a role not yet computed goes to main |
| Routing.NavigationEffect | app/src/main/java/com/example/bookingkonseling/navigation/Navigation.kt:32-87 | Uninitialized shows loading only; logged in navigates to the role's home unless already there; logged out navigates to login unless on login or register |
| Routing.NavigationSettles | app/src/main/java/com/example/bookingkonseling/navigation/Navigation.kt:73-85 | Once at the chosen route, the effect stays |
| Routing.NavigationEffectCorrected | app/src/main/java/com/example/bookingkonseling/navigation/Navigation.kt:44-77 | With the role computed for the routed account before the decision, a signed-in account goes to (or stays at) its start destination whatever role was remembered; signed out it is the as-written decision |
| Routing.StaleRoleMisroutes | app/src/main/java/com/example/bookingkonseling/navigation/Navigation.kt:27-77 | As written, the decision reads the remembered role: an admin's first sign-in goes to main, and a student after an admin's session goes to admin_main; the corrected decision sends both to their own home |
| Routing.StartDestination | app/src/main/java/com/example/bookingkonseling/MainActivity.kt:43-57 | Login when signed out; admin_main iff the account's e-mail contains "admin"; main otherwise |
| Routing.StartDestinationAgreesWithNavigation | app/src/main/java/com/example/bookingkonseling/MainActivity.kt:47-48 | The start destination and the navigation effect classify the same account alike |
| Routing.GraphStart | app/src/main/java/com/example/bookingkonseling/navigation/Navigation.kt:91-93 | The navigation graph opens at login whatever start destination it is handed |
| Routing.GraphStartReachesStartDestination | app/src/main/java/com/example/bookingkonseling/navigation/Navigation.kt:64-93 | With the role computed for the account first: from the login start, a signed-in account is navigated to the destination the start computation chose; a signed-out one stays at login, which is that destination |
| Routing.LogoutLeadsToLogin | app/src/main/java/com/example/bookingkonseling/MainActivity.kt:60-66 | After any logout the app redirects to login, and navigation leaves only login and register alone |
| Routing.LoginNavigatesHome | app/src/main/java/com/example/bookingkonseling/navigation/Navigation.kt:64-77 | With the role computed for the new account first: a successful sign-in from the login screen navigates to the home its e-mail selects, whatever role was remembered |
| AdminViewModel.LoadBookings | app/src/main/java/com/example/bookingkonseling/presentation/viewmodel/AdminViewModel.kt:63-78 | Success shows exactly the repository's list for that status, newest first, and remembers `status ?: "All"`, keeping error, stats and users; failure changes only the error, to the exception's message or "Gagal memuat booking" |
| AdminViewModel.LoadKeepsListConsistent | app/src/main/java/com/example/bookingkonseling/presentation/viewmodel/AdminViewModel.kt:63-78 | Every load, of any filter and outcome, keeps the list equal to what the remembered filter selects |
| AdminViewModel.ReloadFilters | app/src/main/java/com/example/bookingkonseling/presentation/viewmodel/AdminViewModel.kt:80-101 | A reload with the current filter keeps it; the dashboard's unfiltered reload resets it to "All" |
| AdminViewModel.InitShowsAll | app/src/main/java/com/example/bookingkonseling/presentation/viewmodel/AdminViewModel.kt:14-31 | From the default state, construction ends not loading, with "All" selected and every parsable record shown |
| AdminViewModel.DashboardDone | app/src/main/java/com/example/bookingkonseling/presentation/viewmodel/AdminViewModel.kt:37-59 | Loading always stops; successful parts are applied, failed parts dropped without an error |
| AdminViewModel.LoadDashboardData | app/src/main/java/com/example/bookingkonseling/presentation/viewmodel/AdminViewModel.kt:33-61 | Ends not loading and starts one unfiltered reload; loaded stats and users are exactly the repository's, a failed part keeps its old value; list, filter and error are untouched |
| AdminViewModel.UpdateBookingStatus | app/src/main/java/com/example/bookingkonseling/presentation/viewmodel/AdminViewModel.kt:80-93 | Success iff the record exists and the write completes: the status is written, the state kept, and a reload with the current filter plus a dashboard reload started; failure keeps the store, starts nothing and changes only the error, to the exception's message or "Gagal update status", or the not-found text |
| AdminViewModel.UpdateThenReloadShowsRecord | app/src/main/java/com/example/bookingkonseling/presentation/viewmodel/AdminViewModel.kt:63-93 | After a successful status write, the reload it starts keeps the chip and lists the changed record iff the chip is "All" or the new status |
| AdminViewModel.AssignKonselorAction | app/src/main/java/com/example/bookingkonseling/presentation/viewmodel/AdminViewModel.kt:95-108 | Success iff the record exists and the write completes: counsellor and Ongoing are written, the state kept, and the filtered and dashboard reloads started; failure keeps the store, starts nothing and changes only the error, to the exception's message or "Gagal assign konselor", or the not-found text |
| AdminViewModel.AssignThenReloadShowsRecord | app/src/main/java/com/example/bookingkonseling/presentation/viewmodel/AdminViewModel.kt:63-108 | After a successful assignment, the reload it starts keeps the chip and lists the assigned record, with its counsellor, iff the chip is "All" or Ongoing |
| AdminViewModel.ClearError | app/src/main/java/com/example/bookingkonseling/presentation/viewmodel/AdminViewModel.kt:110-112 | Only the error changes |
| BookingViewModel.LoadUserBookings | app/src/main/java/com/example/bookingkonseling/presentation/viewmodel/BookingViewModel.kt:34-67 | Loading always stops; no account gives "User tidak ditemukan"; success shows exactly the repository's list of the account's own parsable records, newest first; a query failure keeps the list and shows its message or "Terjadi kesalahan" |
| BookingViewModel.BuildBooking | app/src/main/java/com/example/bookingkonseling/presentation/viewmodel/BookingViewModel.kt:84-93 | The built record has the account's uid, the form's fields, "Pending" and no id or attachment URL |
| BookingViewModel.CreateBooking | app/src/main/java/com/example/bookingkonseling/presentation/viewmodel/BookingViewModel.kt:69-118 | As written: without an account the state stays loading; otherwise loading stops and the outcome is the repository create of the built record: a reload is asked iff it succeeded, which also sets `isSuccess`; store and bucket are the repository's; a failure keeps `isSuccess` and shows the exception's message or "Gagal membuat booking" |
| BookingViewModel.CreateBookingCorrected | app/src/main/java/com/example/bookingkonseling/presentation/viewmodel/BookingViewModel.kt:54-58 | With the missing-account branch of `loadUserBookings`: loading always stops and the missing account is reported |
| BookingViewModel.CreateRejectsWrongType | app/src/main/java/com/example/bookingkonseling/presentation/viewmodel/BookingViewModel.kt:95-109 | A wrong-type attachment shows the repository's format message; nothing is stored |
| BookingViewModel.CancelBooking | app/src/main/java/com/example/bookingkonseling/presentation/viewmodel/BookingViewModel.kt:120-138 | Requests "Cancelled" on the record; success iff the record exists and the write completes, then the state is kept and a reload asked; failure keeps the store and changes only the error, to the exception's message or "Gagal membatalkan booking", or the not-found text |
| BookingViewModel.CancelIsUnguarded | app/src/main/java/com/example/bookingkonseling/presentation/viewmodel/BookingViewModel.kt:120-123 | A Completed booking is cancelled through this path too |
| BookingViewModel.ResetSuccess | app/src/main/java/com/example/bookingkonseling/presentation/viewmodel/BookingViewModel.kt:140-142 | Only `isSuccess` changes, to false |
| BookingViewModel.ClearError | app/src/main/java/com/example/bookingkonseling/presentation/viewmodel/BookingViewModel.kt:144-146 | Only the error changes, to none |
| AdminScreens.ChipStatus | app/src/main/java/com/example/bookingkonseling/presentation/ui/screens/admin/AdminBookingListScreen.kt:49-52 | The "All" chip loads with no filter; every other chip passes its label |
| AdminScreens.ChipHighlightsItself | app/src/main/java/com/example/bookingkonseling/presentation/ui/screens/admin/AdminBookingListScreen.kt:49-54 | After a successful load from a chip, that chip and no other is highlighted |
| AdminScreens.ListActions | app/src/main/java/com/example/bookingkonseling/presentation/ui/screens/admin/AdminBookingListScreen.kt:198-232 | Pending offers assign (a listed, non-empty counsellor) and reject; Ongoing offers complete; others offer nothing; every action targets this booking |
| AdminScreens.DashboardActions | app/src/main/java/com/example/bookingkonseling/presentation/ui/screens/admin/AdminDashboardScreens.kt:260-291 | Pending offers accept (status Ongoing only) and reject; Ongoing offers complete; others nothing |
| AdminScreens.ApplyAdmin | app/src/main/java/com/example/bookingkonseling/presentation/ui/screens/admin/AdminBookingListScreen.kt:98-104 | A button's action applied to the store sets the expected status and counsellor on an existing record, keeping the key set |
| AdminScreens.AcceptPathsDiffer | app/src/main/java/com/example/bookingkonseling/presentation/ui/screens/admin/AdminDashboardScreens.kt:260-272 | Both accept paths lead to Ongoing, but only the list's names a counsellor |
| AdminScreens.RecentBookings | app/src/main/java/com/example/bookingkonseling/presentation/ui/screens/admin/AdminDashboardScreens.kt:104 | The recent section is the first min(5, n) loaded bookings |
| AdminScreens.RecentAreNewest | app/src/main/java/com/example/bookingkonseling/presentation/ui/screens/admin/AdminDashboardScreens.kt:104 | From a newest-first list, nothing left out is newer than anything shown |
| AdminScreens.StatCards | app/src/main/java/com/example/bookingkonseling/presentation/ui/screens/admin/AdminDashboardScreens.kt:83-88 | Four cards show total, pending, ongoing and completed; cancelled is not shown |
| StudentScreens.SubmittedForm | app/src/main/java/com/example/bookingkonseling/presentation/ui/screens/CreateBookingScreen.kt:291-304 | The sent form has the typed fields, the clock reading as date, and "Dr. Konselor" |
| StudentScreens.TanggalTextUnused | app/src/main/java/com/example/bookingkonseling/presentation/ui/screens/CreateBookingScreen.kt:293-301 | The typed date text never reaches the booking |
| StudentScreens.NoUserDisablesSubmit | app/src/main/java/com/example/bookingkonseling/presentation/ui/screens/CreateBookingScreen.kt:314-320 | Without an account, one tap leaves the submit button disabled for good |
| StudentScreens.CorrectedCreateReenablesSubmit | app/src/main/java/com/example/bookingkonseling/presentation/ui/screens/CreateBookingScreen.kt:314-320 | With the corrected transition the button's enablement returns to depending on the fields, and the missing account is shown |
| StudentScreens.OnSuccess | app/src/main/java/com/example/bookingkonseling/presentation/ui/screens/CreateBookingScreen.kt:85-90 | On success the flag is reset and the screen leaves; otherwise nothing happens |
| StudentScreens.StatusText | app/src/main/java/com/example/bookingkonseling/presentation/ui/screens/BookingDetailScreen.kt:63-69 | The four statuses get their Indonesian labels; any other status is shown unchanged |
| StudentScreens.StatusTextCanCollide | app/src/main/java/com/example/bookingkonseling/presentation/ui/screens/BookingDetailScreen.kt:63-69 | The four labels are distinct, but a free-form status "Selesai" reads the same as Completed |
| StudentScreens.CancelRequest | app/src/main/java/com/example/bookingkonseling/presentation/ui/screens/BookingDetailScreen.kt:180-183 | Cancel is offered iff the status is Pending or Ongoing, and it passes this booking's id |
| StudentScreens.ScreenCancelFromActiveOnly | app/src/main/java/com/example/bookingkonseling/presentation/ui/screens/BookingHistoryScreen.kt:192 | A cancel offered by a screen ends in Cancelled for that record |
| StudentScreens.KonselorText | app/src/main/java/com/example/bookingkonseling/presentation/ui/screens/BookingDetailScreen.kt:171 | An empty counsellor is shown as "Belum ditentukan"; others as they are |
| StudentScreens.ImageDialogOpen | app/src/main/java/com/example/bookingkonseling/presentation/ui/screens/BookingDetailScreen.kt:207 | The image dialog opens iff it was requested and the attachment URL is non-empty |
| StudentScreens.HistoryViewOf | app/src/main/java/com/example/bookingkonseling/presentation/ui/screens/BookingHistoryScreen.kt:55-64 | Loading wins; then an empty list shows the empty state; otherwise the cards |
| StudentScreens.CardCancelRequests | app/src/main/java/com/example/bookingkonseling/presentation/ui/screens/BookingHistoryScreen.kt:72-77 | Each card's cancel passes its own booking's id, and only for Pending or Ongoing |
| AuthScreens.FirstMatch | app/src/main/java/com/example/bookingkonseling/presentation/ui/screens/LoginScreen.kt:175-182 | The `when` picks the first rule whose needle the message contains, or none |
| AuthScreens.ErrorText | app/src/main/java/com/example/bookingkonseling/presentation/ui/screens/LoginScreen.kt:175-182 | The shown text is the first matching rule's, or the `else` text when no needle occurs |
| AuthScreens.ErrorTextPicksRule | app/src/main/java/com/example/bookingkonseling/presentation/ui/screens/LoginScreen.kt:175-182 | A rule wins whenever its needle occurs and no earlier needle does |
| AuthScreens.LoginErrorText | app/src/main/java/com/example/bookingkonseling/presentation/ui/screens/LoginScreen.kt:175-182 | The login error text is one of the five rule texts or the generic text |
| AuthScreens.LoginPasswordFirst | app/src/main/java/com/example/bookingkonseling/presentation/ui/screens/LoginScreen.kt:176-177 | A message mentioning "password" is shown as a wrong password, even when it also mentions "user" |
| AuthScreens.LoginInvalidEmailShadowed | app/src/main/java/com/example/bookingkonseling/presentation/ui/screens/LoginScreen.kt:176-179 | "invalid-email" is recognised iff the message mentions none of "password", "user", "network" |
| AuthScreens.NullMessageLacksUser | app/src/main/java/com/example/bookingkonseling/data/repository/AuthRepository.kt:34 | The null-account message does not contain lower-case "user" |
| AuthScreens.LoginNullMessageIsGeneric | app/src/main/java/com/example/bookingkonseling/presentation/ui/screens/LoginScreen.kt:175-182 | The repository's null-account message matches no rule and is shown as the generic text |
| AuthScreens.LoginRequest | app/src/main/java/com/example/bookingkonseling/presentation/ui/screens/LoginScreen.kt:119-121 | Sent iff both fields are non-blank; the e-mail trimmed and non-empty, the password as typed |
| AuthScreens.LoginEnabledIffRequest | app/src/main/java/com/example/bookingkonseling/presentation/ui/screens/LoginScreen.kt:126 | When idle, the button is enabled exactly when a tap would send |
| AuthScreens.OnEdit | app/src/main/java/com/example/bookingkonseling/presentation/ui/screens/LoginScreen.kt:78-83 | Typing clears a shown error, changes nothing else, and no field stays outlined red |
| AuthScreens.IsFormValidMeaning | app/src/main/java/com/example/bookingkonseling/presentation/ui/screens/RegisterScreen.kt:281-290 | As written, the form is valid iff e-mail present and matching, password of 6+, confirmation empty or equal, name, valid NIM, prodi and phone present |
| AuthScreens.EmptyConfirmationAccepted | app/src/main/java/com/example/bookingkonseling/presentation/ui/screens/RegisterScreen.kt:64-66 | A filled-in form with an empty confirmation is accepted as written |
| AuthScreens.CorrectedFormConfirms | app/src/main/java/com/example/bookingkonseling/presentation/ui/screens/RegisterScreen.kt:281-290 | The corrected check admits exactly the valid forms whose confirmation repeats the password, so the confirmation has 6+ characters |
| AuthScreens.RegisterRequest | app/src/main/java/com/example/bookingkonseling/presentation/ui/screens/RegisterScreen.kt:281-302 | As written: sent iff the form check passes, an empty confirmation included; e-mail, name, prodi and phone trimmed, password untrimmed, the validated NIM sent unchanged |
| AuthScreens.RegisterRequestCorrected | app/src/main/java/com/example/bookingkonseling/presentation/ui/screens/RegisterScreen.kt:281-302 | Under the corrected check: sent iff the form is valid and confirmed, and then the same request as written, whose password equals the confirmation |
| AuthScreens.EmptyConfirmationSends | app/src/main/java/com/example/bookingkonseling/presentation/ui/screens/RegisterScreen.kt:64-66 | A filled-in form with an empty confirmation enables the button and sends the unconfirmed password; the corrected request sends nothing |
| AuthScreens.RegisterRequestStoresProfile | app/src/main/java/com/example/bookingkonseling/presentation/ui/screens/RegisterScreen.kt:293-302 | A request sent from a valid form that succeeds signs in and stores a profile with the typed NIM and trimmed name |
| AuthScreens.RegisterErrorText | app/src/main/java/com/example/bookingkonseling/presentation/ui/screens/RegisterScreen.kt:344-350 | The register error text is one of the four rule texts or the generic text |
| AuthScreens.RegisterDuplicateFirst | app/src/main/java/com/example/bookingkonseling/presentation/ui/screens/RegisterScreen.kt:345 | "email-already-in-use" is recognised whatever else the message says |
| Lifecycle.CreatePreservesIds | app/src/main/java/com/example/bookingkonseling/data/repository/BookingRepository.kt:47-53 | Creating keeps every record's `id` equal to its document id |
| Lifecycle.UpdatePreservesIds | app/src/main/java/com/example/bookingkonseling/data/repository/BookingRepository.kt:165-168 | Updating keeps every record's `id` equal to its document id |
| Lifecycle.OtherWritesPreserveIds | app/src/main/java/com/example/bookingkonseling/data/repository/AdminRepository.kt:42-53 | Deleting, status updates and assignment keep every record's `id` equal to its document id |
| Lifecycle.ScreensRealiseLifecycle | app/src/main/java/com/example/bookingkonseling/presentation/ui/screens/admin/AdminBookingListScreen.kt:198-232 | The buttons of all screens together move a booking exactly along Pending→Ongoing, Pending→Cancelled, Ongoing→Completed, Ongoing→Cancelled |
| Lifecycle.AdminButtonsFollowLifecycle | app/src/main/java/com/example/bookingkonseling/presentation/ui/screens/admin/AdminDashboardScreens.kt:260-291 | Any admin button, applied to a store with consistent ids, succeeds when the write completes and moves its record one lifecycle step |

## Left out

- The Compose layout, colours, icons and theming. The navigation host and back-stack mechanics are also left out. Only the decision tables inside the screens are modelled.
- The authentication service, document store and object-storage SDKs. Each is replaced by a map and success/failure oracles, because their own semantics are not visible.
- Coroutine interleaving, StateFlow propagation and the `delay` calls in logout. Follow-up coroutines are returned as effects instead of being run. The order in which they complete is left open; `AdminViewModel.LoadKeepsListConsistent` holds for every order.
- `Routing.LoginNavigatesHome`: stated for the corrected order, in which the role is computed for the signed-in account before the navigation effect reads it. As written, the effect reads the role remembered from before the sign-in (see Findings and `Routing.StaleRoleMisroutes`).
- `Routing.GraphStartReachesStartDestination`: stated for the same corrected order. As written, the first route after login follows the remembered role, not the account's.
- `AdminRepository.GetAllBookings`: the model filters the parsed record, whose `status` defaults to "Pending". The server's `whereEqualTo("status", …)` (AdminRepository.kt:21-23) filters the stored field, so a stored document without `status` is listed under the Pending chip here but not by the service. Documents are taken to store every field; `getBookingStats` counts such a document as Pending in both.
- `BookingStore.NotFoundMessage` and `Storage.DuplicateMessage` stand in for the document store's and the storage service's own error messages. Those services are not part of this model; only the fact that a message reaches the screen through `exception.message` is modelled.
- The `Calendar` window starts, `SimpleDateFormat` and `Timestamp.now()`. They are integer parameters, because they depend on locale, time zone and clock. `Timestamp.toDate()` truncation to milliseconds is not modelled; timestamps are milliseconds throughout.
- `UUID.randomUUID()`, `InputStream.available()`/`readBytes()` and `contentResolver.getType`. They are oracle inputs.
- `android.util.Patterns.EMAIL_ADDRESS`, because the regular expression is not part of this model. Whether it matches is a boolean parameter.
- The document store's server-side `orderBy` drops documents lacking `createdAt`. The model keeps every parsable record and sorts by an always-present `createdAt`.
- Stable ordering among bookings with equal `createdAt`. The model's sort is one valid order, and only sortedness and permutation are stated.
- Unreachable exception handlers:
  - the catch in `checkAuthStatus`, because `getCurrentUser` already catches;
  - the "Unexpected error" catches in `login`/`register`, because the repository catches;
  - the catch in `loadDashboardData`, because both repository calls return `Result`s.
- `BookingViewModel`'s "Terjadi kesalahan tidak terduga" handlers. They are reachable only through exceptions the repository already converts.
- `Text.IsDigit`: ASCII digits only. Kotlin's `Char.isDigit` also accepts other Unicode decimal digits.
- `Text.IsWhitespace`: the JVM whitespace set, without locale effects.
- `AuthRepository.Logout`: the sign-out's effect on the service is not modelled, only the attempt count and the outcome.
- `AuthViewModel.Logout`: `repository.logout()` never throws, so the only way into the warning branch is an interrupted coroutine. That interruption is a parameter.
- The `Admin` record is never read to decide a role, so only its default is modelled.
- `deleteBooking` reads the record with `toObject`. An unparsable stored record would throw there. The store holds only parsable records, so that path is not modelled.
- The `users` query has no `orderBy`. `AdminRepository.GetAllUsers` states contents and multiplicities, not order.
- `AdminViewModel.LoadDashboardData`: it does not say which bookings list ends up on screen, because the reload it starts is a separate coroutine. `AdminViewModel.InitShowsAll` covers the construction path.
- `Routing.StartDestination`: the value is computed and handed to `AppNavigation`, but `NavHost` is given the login route (Navigation.kt:91-93), so it never selects the first screen. `Routing.GraphStart` models the real start.

## Findings

| source | as written | input that shows it | evidently intended | confidence | as-written member | corrected member |
|---|---|---|---|---|---|---|
| app/src/main/java/com/example/bookingkonseling/presentation/viewmodel/BookingViewModel.kt:80-110 | `createBooking` sets `isLoading = true`, then handles only `currentUser?.let { … }`, with no branch for a null account | a create submitted while no account is signed in: the state stays loading, the submit button stays disabled and no message appears | stop loading and report "User tidak ditemukan", as `loadUserBookings` does | medium, not executed | BookingViewModel.CreateBooking (exhibited by StudentScreens.NoUserDisablesSubmit) | BookingViewModel.CreateBookingCorrected (with StudentScreens.CorrectedCreateReenablesSubmit) |
| app/src/main/java/com/example/bookingkonseling/presentation/ui/screens/RegisterScreen.kt:64-66 | `isFormValid` reuses the display flag `isPasswordMatch`, which is true for an empty confirmation | e-mail "a@b.id", password "rahasia", confirmation "", name "Ani", NIM "2250000001", prodi "TI", phone "0812": the form is valid and registration proceeds unconfirmed | require the confirmation to equal the password before enabling "DAFTAR" | medium, not executed | AuthScreens.EmptyConfirmationAccepted, AuthScreens.EmptyConfirmationSends (on AuthScreens.IsFormValid and AuthScreens.RegisterRequest) | AuthScreens.CorrectedFormConfirms, AuthScreens.RegisterRequestCorrected (on AuthScreens.IsFormValidCorrected) |
| app/src/main/java/com/example/bookingkonseling/navigation/Navigation.kt:44-77 | the role is set in a coroutine that `LaunchedEffect(currentUser)` launches; the navigation effect, keyed only on `isLoggedIn` and started in the same frame, reads `userRole` before that coroutine runs and never again; `userRole` is remembered across sign-outs | "admin@ub.ac.id" signing in with no role yet is sent to main; "ani@ub.ac.id" signing in after an admin's session is sent to admin_main | route by the role of the account being signed in (compute it inside the navigation effect, or key that effect on `userRole`) | medium, not executed (it rests on Compose running the child coroutine after the second effect) | Routing.NavigationEffect (exhibited by Routing.StaleRoleMisroutes) | Routing.NavigationEffectCorrected (with Routing.LoginNavigatesHome, Routing.GraphStartReachesStartDestination) |
