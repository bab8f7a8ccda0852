/** `AuthViewModel`: the `AuthUiState` state machine.

    Each coroutine is split at its suspension point into a start transition
    (what is set before the repository call) and a finish transition (what
    is set from its result); `Login` and `Register` compose the two with the
    repository. The navigation layer also reads an `isInitialized` flag that
    `AuthUiState` does not declare; it is a separate parameter of the
    routing functions.
 */
module AuthViewModel {
  import opened Wrappers
  import opened Model
  import AuthRepository

  datatype AuthUiState = AuthUiState(
    isLoading: bool,
    isLoggedIn: bool,
    errorMessage: Option<string>,
    isLoggingOut: bool)

  /** `AuthUiState()` with every default. */
  const Idle := AuthUiState(false, false, None, false)

  const LoginFallback := "Login gagal"
  const RegisterFallback := "Register gagal"
  const LogoutWarningPrefix := "Logout completed with warning: "

  /** `checkAuthStatus`, run once from `init` on the default state. The
      repository swallows its own exception, so the handler that would set
      an error message is never reached. */
  function CheckAuthStatus(s: AuthUiState, probe: Result<Option<AuthRepository.AuthUser>>): (r: AuthUiState)
    ensures r.isLoggedIn <==> probe.Success? && probe.value.Some?
    ensures !r.isLoading
    ensures r.errorMessage == s.errorMessage && r.isLoggingOut == s.isLoggingOut
  {
    s.(isLoggedIn := AuthRepository.GetCurrentUser(probe).Some?, isLoading := false)
  }

  /** The state right after the view model is created. */
  function Initial(probe: Result<Option<AuthRepository.AuthUser>>): (r: AuthUiState)
    ensures r.isLoggedIn <==> probe.Success? && probe.value.Some?
    ensures !r.isLoading && !r.isLoggingOut && r.errorMessage.None?
  {
    CheckAuthStatus(Idle, probe)
  }

  /** Before the login or register call: loading, previous error cleared. */
  function SubmitStart(s: AuthUiState): (r: AuthUiState)
    ensures r.isLoading && r.errorMessage.None?
    ensures r.isLoggedIn == s.isLoggedIn && r.isLoggingOut == s.isLoggingOut
  {
    s.(isLoading := true, errorMessage := None)
  }

  /** After the login or register call: success replaces the whole state;
      failure stops loading and shows the exception's message, or `fallback`
      when it has none. */
  function SubmitFinish<T>(s: AuthUiState, r: Result<T>, fallback: string): (t: AuthUiState)
    ensures r.Success? ==> t == Idle.(isLoggedIn := true)
    ensures r.Failure? ==> (!t.isLoading && t.isLoggedIn == s.isLoggedIn && t.isLoggingOut == s.isLoggingOut
      && t.errorMessage == Some(MessageOr(r.exn, fallback)))
  {
    match r
    case Success(_) => AuthUiState(false, true, None, false)
    case Failure(e) => s.(isLoading := false, errorMessage := Some(MessageOr(e, fallback)))
  }

  /** `login(email, password)`, the whole coroutine. */
  function Login(s: AuthUiState, call: AuthRepository.AuthCall): (t: AuthUiState)
    ensures !t.isLoading
    ensures t.isLoggedIn <==> s.isLoggedIn || (call.AuthDone? && call.user.Some?)
    ensures t.errorMessage.None? <==> call.AuthDone? && call.user.Some?
    ensures call == AuthRepository.AuthDone(None) ==> t.errorMessage == Some(AuthRepository.LoginNullMessage)
  {
    SubmitFinish(SubmitStart(s), AuthRepository.Login(call), LoginFallback)
  }

  /** `register(...)`, the whole coroutine, against the profile store. */
  function Register(s: AuthUiState, profiles: AuthRepository.Profiles, call: AuthRepository.AuthCall,
                    email: string, nama: string, nim: string, prodi: string, nomorHP: string,
                    writeBackend: Option<Exn>): (t: (AuthUiState, AuthRepository.Profiles))
    ensures !t.0.isLoading
    ensures t.0.isLoggedIn <==> s.isLoggedIn || (call.AuthDone? && call.user.Some? && writeBackend.None?)
    ensures t.0.errorMessage.None? <==> call.AuthDone? && call.user.Some? && writeBackend.None?
    ensures t.0.errorMessage.Some? ==> t.1 == profiles
    ensures call.AuthDone? && call.user.Some? && writeBackend.None? ==>
      t.1 == profiles[call.user.value.uid :=
                      AuthRepository.NewProfile(call.user.value.uid, email, nama, nim, prodi, nomorHP)]
  {
    var o := AuthRepository.Register(profiles, call, email, nama, nim, prodi, nomorHP, writeBackend);
    (SubmitFinish(SubmitStart(s), o.result, RegisterFallback), o.profiles)
  }

  /** Before the sign-out: logging out, previous error cleared. */
  function LogoutStart(s: AuthUiState): (r: AuthUiState)
    ensures r.isLoggingOut && r.errorMessage.None?
    ensures r.isLoggedIn == s.isLoggedIn && r.isLoading == s.isLoading
  {
    s.(isLoggingOut := true, errorMessage := None)
  }

  /** `logout()`, the whole coroutine, from any state: the state is reset
      whether or not the coroutine was interrupted, and only an interruption
      leaves a warning. The repository's `logout` is total
      (`AuthRepository.Logout` returns for every outcome of its sign-out
      attempts), so nothing else reaches the handler. */
  function Logout(s: AuthUiState, interrupted: Option<Exn>): (t: AuthUiState)
    ensures !t.isLoggedIn && !t.isLoggingOut && !t.isLoading
    ensures t.errorMessage.Some? <==> interrupted.Some?
    ensures interrupted.None? ==> t == Idle
  {
    match interrupted
    case None => AuthUiState(false, false, None, false)
    case Some(e) => AuthUiState(false, false, Some(LogoutWarningPrefix + MessageText(e.message)), false)
  }

  function ClearError(s: AuthUiState): (r: AuthUiState)
    ensures r.errorMessage.None?
    ensures r.isLoading == s.isLoading && r.isLoggedIn == s.isLoggedIn && r.isLoggingOut == s.isLoggingOut
  {
    s.(errorMessage := None)
  }

  /** Signing out after a successful sign-in, uninterrupted, returns to the
      default state, whatever the state before sign-in. */
  lemma LoginThenLogoutIsIdle(s: AuthUiState, u: AuthRepository.AuthUser)
    ensures var t := Login(s, AuthRepository.AuthDone(Some(u)));
      t.isLoggedIn && Logout(LogoutStart(t), None) == Idle
  {
  }

  /** A failed sign-in keeps the session as it was: a signed-in user stays signed in. */
  lemma FailedLoginKeepsSession(s: AuthUiState, e: Exn)
    ensures var t := Login(s, AuthRepository.AuthThrows(e));
      t.isLoggedIn == s.isLoggedIn && t.errorMessage == Some(MessageOr(e, LoginFallback))
  {
  }
}
