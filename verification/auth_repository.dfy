/** `AuthRepository`: result shaping around the authentication service and
    the `users` collection.

    What the authentication service does is an oracle: a call either throws
    or completes with a possibly-null account (`AuthCall`). Profiles are a
    map from uid to `User`; the profile write and read succeed or fail by an
    `Option<Exn>` oracle.
 */
module AuthRepository {
  import opened Wrappers
  import opened Model

  /** The signed-in account as the authentication service reports it. */
  datatype AuthUser = AuthUser(uid: string, email: Option<string>)

  /** A sign-in or sign-up call: it throws, or completes with a possibly-null account. */
  datatype AuthCall = AuthThrows(e: Exn) | AuthDone(user: Option<AuthUser>)

  type Profiles = map<string, User>

  datatype RegisterOutcome = RegisterOutcome(profiles: Profiles, result: Result<AuthUser>)

  const LoginNullMessage := "Login failed: User is null"
  const RegisterNullMessage := "Registration failed: User is null"
  const UserNotFoundMessage := "User data not found"

  /** `getCurrentUser`: reading the current account may throw; that reads as signed out. */
  function GetCurrentUser(probe: Result<Option<AuthUser>>): (u: Option<AuthUser>)
    ensures u.Some? <==> probe.Success? && probe.value.Some?
    ensures u.Some? ==> u == probe.value
  {
    match probe
    case Failure(_) => None
    case Success(v) => v
  }

  /** `login`: a completed call without an account is a failure of its own. */
  function Login(call: AuthCall): (r: Result<AuthUser>)
    ensures r.Success? <==> call.AuthDone? && call.user.Some?
    ensures r.Success? ==> r.value == call.user.value
    ensures call.AuthThrows? ==> r == Failure(call.e)
    ensures call.AuthDone? && call.user.None? ==> r == Fail(LoginNullMessage)
  {
    match call
    case AuthThrows(e) => Failure(e)
    case AuthDone(None) => Fail(LoginNullMessage)
    case AuthDone(Some(u)) => Success(u)
  }

  /** The profile `register` stores: the arguments, the new uid, no photo. */
  function NewProfile(uid: string, email: string, nama: string, nim: string, prodi: string,
                      nomorHP: string): (u: User)
    ensures u.uid == uid && u.email == email && u.nama == nama && u.nim == nim
    ensures u.prodi == prodi && u.nomorHP == nomorHP && u.photoUrl == ""
  {
    User(uid, nama, nim, prodi, nomorHP, email, "")
  }

  /** `register`: create the account, then write its profile under the uid.
      The profile is written only when the whole call succeeds. */
  function Register(profiles: Profiles, call: AuthCall, email: string, nama: string, nim: string,
                    prodi: string, nomorHP: string, writeBackend: Option<Exn>): (o: RegisterOutcome)
    ensures o.result.Success? <==> call.AuthDone? && call.user.Some? && writeBackend.None?
    ensures o.result.Success? ==> (o.result.value == call.user.value
      && o.profiles == profiles[call.user.value.uid := NewProfile(call.user.value.uid, email, nama, nim, prodi, nomorHP)])
    ensures o.result.Failure? ==> o.profiles == profiles
    ensures call.AuthThrows? ==> o.result == Failure(call.e)
    ensures call.AuthDone? && call.user.None? ==> o.result == Fail(RegisterNullMessage)
  {
    match call
    case AuthThrows(e) => RegisterOutcome(profiles, Failure(e))
    case AuthDone(None) => RegisterOutcome(profiles, Fail(RegisterNullMessage))
    case AuthDone(Some(u)) =>
      if writeBackend.Some? then RegisterOutcome(profiles, Failure(writeBackend.value))
      else RegisterOutcome(profiles[u.uid := NewProfile(u.uid, email, nama, nim, prodi, nomorHP)], Success(u))
  }

  /** `getUserData`: a missing profile is reported by name. */
  function GetUserData(profiles: Profiles, uid: string, backend: Option<Exn>): (r: Result<User>)
    ensures r.Success? <==> backend.None? && uid in profiles
    ensures r.Success? ==> r.value == profiles[uid]
    ensures backend.None? && uid !in profiles ==> r == Fail(UserNotFoundMessage)
    ensures backend.Some? ==> r == Failure(backend.value)
  {
    if backend.Some? then Failure(backend.value)
    else if uid !in profiles then Fail(UserNotFoundMessage)
    else Success(profiles[uid])
  }

  /** A profile written by a successful `register` is read back by `getUserData`
      with the registration's fields. */
  lemma RegisterThenGetUserData(profiles: Profiles, call: AuthCall, email: string, nama: string,
                                nim: string, prodi: string, nomorHP: string)
    requires call.AuthDone? && call.user.Some?
    ensures var o := Register(profiles, call, email, nama, nim, prodi, nomorHP, None);
      var r := GetUserData(o.profiles, call.user.value.uid, None);
      r.Success? && r.value.uid == call.user.value.uid && r.value.email == email
      && r.value.nama == nama && r.value.nim == nim && r.value.prodi == prodi
      && r.value.nomorHP == nomorHP && r.value.photoUrl == ""
  {
  }

  /** The account exists once sign-up completed, but a failed profile write
      leaves it without a profile: `getUserData` then reports it missing. */
  lemma RegisterCanLeaveAccountWithoutProfile(profiles: Profiles, u: AuthUser, email: string, nama: string,
                                              nim: string, prodi: string, nomorHP: string, e: Exn)
    requires u.uid !in profiles
    ensures var o := Register(profiles, AuthDone(Some(u)), email, nama, nim, prodi, nomorHP, Some(e));
      o.result == Failure(e) && GetUserData(o.profiles, u.uid, None) == Fail(UserNotFoundMessage)
  {
  }

  /** What `logout` did: how many sign-out calls it made and whether one returned normally. */
  datatype LogoutTrace = LogoutTrace(attempts: nat, signedOut: bool)

  /** `logout`: sign out, and once more only if the first attempt threw; never throws. */
  function Logout(first: Option<Exn>, second: Option<Exn>): (t: LogoutTrace)
    ensures 1 <= t.attempts <= 2
    ensures t.attempts == 2 <==> first.Some?
    ensures t.signedOut <==> first.None? || second.None?
  {
    if first.None? then LogoutTrace(1, true)
    else LogoutTrace(2, second.None?)
  }
}
