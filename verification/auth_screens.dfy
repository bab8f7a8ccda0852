/** The decision logic inside the login and register screens: when the
    submit button is enabled, what it sends, and how an error message is
    turned into the text shown under the form.

    `android.util.Patterns.EMAIL_ADDRESS` is a regular expression this model
    does not reproduce; whether it matches the typed e-mail is a parameter.
 */
module AuthScreens {
  import opened Wrappers
  import opened Text
  import AuthRepository
  import AuthViewModel

  /** A `when` over `error.contains(needle)` branches: the index of the first
      rule whose needle occurs in `error`, `|rules|` when none does. */
  function FirstMatch(rules: seq<(string, string)>, error: string): (i: nat)
    ensures i <= |rules|
    ensures forall j :: 0 <= j < i ==> !Contains(error, rules[j].0)
    ensures i < |rules| ==> Contains(error, rules[i].0)
    decreases |rules|
  {
    if |rules| == 0 then 0
    else if Contains(error, rules[0].0) then 0
    else
      var k := FirstMatch(rules[1..], error);
      assert forall j :: 1 <= j < k + 1 ==> rules[j] == rules[1..][j - 1];
      k + 1
  }

  /** The text of the first matching rule, or the `else` branch. */
  function ErrorText(rules: seq<(string, string)>, error: string, fallback: string): (text: string)
    ensures (exists i :: 0 <= i < |rules| && Contains(error, rules[i].0)) ==>
      text == rules[FirstMatch(rules, error)].1
    ensures (forall i :: 0 <= i < |rules| ==> !Contains(error, rules[i].0)) ==> text == fallback
  {
    var i := FirstMatch(rules, error);
    if i < |rules| then rules[i].1 else fallback
  }

  /** A rule wins whenever its needle occurs and no earlier needle does. */
  lemma ErrorTextPicksRule(rules: seq<(string, string)>, error: string, fallback: string, i: nat)
    requires i < |rules| && Contains(error, rules[i].0)
    requires forall j :: 0 <= j < i ==> !Contains(error, rules[j].0)
    ensures ErrorText(rules, error, fallback) == rules[i].1
  {
    var k := FirstMatch(rules, error);
    assert k >= i;
  }

  // ---------------------------------------------------------------- login

  const LoginErrorRules: seq<(string, string)> := [
    ("password", "Password salah. Silakan coba lagi."),
    ("user", "Email tidak terdaftar."),
    ("network", "Periksa koneksi internet Anda."),
    ("invalid-email", "Format email tidak valid."),
    ("too-many-requests", "Terlalu banyak percobaan. Coba lagi nanti.")]
  const LoginErrorFallback := "Login gagal. Periksa email dan password Anda."

  function LoginErrorText(error: string): (text: string)
    ensures text == LoginErrorFallback || exists i :: 0 <= i < |LoginErrorRules| && text == LoginErrorRules[i].1
  {
    ErrorText(LoginErrorRules, error, LoginErrorFallback)
  }

  /** A message mentioning the password is always read as a wrong password,
      even when it also mentions the user or the network. */
  lemma LoginPasswordFirst(error: string)
    requires Contains(error, "password")
    ensures LoginErrorText(error) == "Password salah. Silakan coba lagi."
  {
    ErrorTextPicksRule(LoginErrorRules, error, LoginErrorFallback, 0);
  }

  /** "invalid-email" is only recognised when the message mentions neither
      the password, nor the user, nor the network. */
  lemma LoginInvalidEmailShadowed(error: string)
    requires Contains(error, "invalid-email")
    ensures LoginErrorText(error) == "Format email tidak valid." <==>
      !Contains(error, "password") && !Contains(error, "user") && !Contains(error, "network")
  {
    if !Contains(error, "password") && !Contains(error, "user") && !Contains(error, "network") {
      ErrorTextPicksRule(LoginErrorRules, error, LoginErrorFallback, 3);
    } else if Contains(error, "password") {
      ErrorTextPicksRule(LoginErrorRules, error, LoginErrorFallback, 0);
    } else if Contains(error, "user") {
      ErrorTextPicksRule(LoginErrorRules, error, LoginErrorFallback, 1);
    } else {
      ErrorTextPicksRule(LoginErrorRules, error, LoginErrorFallback, 2);
    }
  }

  /** A needle whose first character occurs only at `k`, not followed there
      by the needle's second character, does not occur. */
  lemma OnlyOccurrenceNotContained(s: string, t: string, k: int)
    requires |t| >= 2
    requires forall i :: 0 <= i < |s| && s[i] == t[0] ==> i == k
    requires 0 <= k && (k + 1 < |s| ==> s[k + 1] != t[1])
    ensures !Contains(s, t)
  {
    forall i ensures !OccursAt(s, t, i) {
      if 0 <= i && i + |t| <= |s| {
        if s[i] != t[0] {
          assert s[i..i + |t|][0] != t[0];
        } else {
          assert s[i..i + |t|][1] != t[1];
        }
      }
    }
    ContainsIffOccurs(s, t);
  }

  /** The only lower-case "u" of the null-account message is followed by "l". */
  lemma NullMessageLacksUser()
    ensures !Contains(AuthRepository.LoginNullMessage, "user")
  {
    var m := AuthRepository.LoginNullMessage;
    var pre, post := "Login failed: User is n", "ll";
    assert m == pre + "u" + post;
    assert 'u' !in pre && 'u' !in post;
    OnlyOccurrenceNotContained(m, "user", |pre|);
  }

  /** A message without "p", "w" or "-" and without "user" matches no login rule. */
  lemma LoginFallbackWhen(error: string)
    requires 'p' !in error && 'w' !in error && '-' !in error && !Contains(error, "user")
    ensures LoginErrorText(error) == LoginErrorFallback
  {
    ContainsChars(error, "password");
    ContainsChars(error, "network");
    ContainsChars(error, "invalid-email");
    ContainsChars(error, "too-many-requests");
    assert 'p' in "password" && 'w' in "network" && '-' in "invalid-email" && '-' in "too-many-requests";
    assert forall i :: 0 <= i < |LoginErrorRules| ==> !Contains(error, LoginErrorRules[i].0);
  }

  /** The repository's null-account message matches no rule: the screen
      shows the generic text. */
  lemma LoginNullMessageIsGeneric()
    ensures LoginErrorText(AuthRepository.LoginNullMessage) == LoginErrorFallback
  {
    var m := AuthRepository.LoginNullMessage;
    assert 'p' !in m && 'w' !in m && '-' !in m;
    NullMessageLacksUser();
    LoginFallbackWhen(m);
  }

  /** The login button: enabled when idle and both fields are non-blank. */
  predicate LoginEnabled(isLoading: bool, email: string, password: string) {
    !isLoading && !IsBlank(email) && !IsBlank(password)
  }

  /** The arguments a tap hands to `login`: the trimmed e-mail and the
      password as typed, or nothing when a field is blank. */
  function LoginRequest(email: string, password: string): (r: Option<(string, string)>)
    ensures r.Some? <==> !IsBlank(email) && !IsBlank(password)
    ensures r.Some? ==> r.value.1 == password && r.value.0 != [] && r.value.0 == Trim(email)
  {
    if !IsBlank(email) && !IsBlank(password) then
      TrimEmptyIffBlank(email);
      Some((Trim(email), password))
    else None
  }

  /** When idle, the button is enabled exactly when a tap sends a request. */
  lemma LoginEnabledIffRequest(email: string, password: string)
    ensures LoginEnabled(false, email, password) <==> LoginRequest(email, password).Some?
    ensures LoginRequest(email, password).Some? ==> !IsBlank(LoginRequest(email, password).value.0)
  {
    if LoginRequest(email, password).Some? {
      TrimEmptyIffBlank(email);
      var e := Trim(email);
      assert !IsWhitespace(e[0]);
    }
  }

  /** A field is outlined in red while an error is shown and it is not empty. */
  predicate FieldShowsError(s: AuthViewModel.AuthUiState, field: string) {
    s.errorMessage.Some? && field != ""
  }

  /** Typing in any field clears a shown error and changes nothing else. */
  function OnEdit(s: AuthViewModel.AuthUiState): (t: AuthViewModel.AuthUiState)
    ensures t.errorMessage.None?
    ensures t.(errorMessage := s.errorMessage) == s
    ensures forall f :: !FieldShowsError(t, f)
  {
    if s.errorMessage.Some? then AuthViewModel.ClearError(s) else s
  }

  // ------------------------------------------------------------- register

  /** The register screen's fields. */
  datatype RegisterFields = RegisterFields(
    email: string, password: string, confirm: string,
    nama: string, nim: string, prodi: string, nomorHP: string)

  /** `isValidNIM`: digits only, at least ten of them. */
  predicate IsValidNim(nim: string) {
    AllDigits(nim) && |nim| >= 10
  }

  /** The three flags the screen keeps, each true for an empty field. */
  predicate EmailFlag(f: RegisterFields, emailMatches: bool) { f.email == "" || emailMatches }
  predicate NimFlag(f: RegisterFields) { f.nim == "" || IsValidNim(f.nim) }
  predicate PasswordMatchFlag(f: RegisterFields) { f.confirm == "" || f.password == f.confirm }

  /** `isFormValid`, as written. */
  predicate IsFormValid(f: RegisterFields, emailMatches: bool) {
    f.email != "" && f.password != "" && |f.password| >= 6 && PasswordMatchFlag(f)
    && f.nama != "" && f.nim != "" && NimFlag(f) && f.prodi != "" && f.nomorHP != ""
    && EmailFlag(f, emailMatches)
  }

  /** What the conjunction amounts to: the empty-field escapes of the e-mail
      and NIM flags are cancelled by the non-empty checks, the one of the
      confirmation is not. */
  lemma IsFormValidMeaning(f: RegisterFields, emailMatches: bool)
    ensures IsFormValid(f, emailMatches) <==>
      (f.email != "" && emailMatches && |f.password| >= 6 && (f.confirm == "" || f.confirm == f.password)
       && f.nama != "" && IsValidNim(f.nim) && f.prodi != "" && f.nomorHP != "")
  {
  }

  /** A filled-in form with the confirmation left empty is accepted. */
  lemma EmptyConfirmationAccepted()
    ensures IsFormValid(RegisterFields("a@b.id", "rahasia", "", "Ani", "2250000001", "TI", "0812"), true)
  {
  }

  /** The form check with the confirmation required to be typed. */
  predicate IsFormValidCorrected(f: RegisterFields, emailMatches: bool) {
    IsFormValid(f, emailMatches) && f.confirm == f.password
  }

  /** The corrected check admits exactly the as-written forms whose
      confirmation repeats the password; so the confirmation is never empty. */
  lemma CorrectedFormConfirms(f: RegisterFields, emailMatches: bool)
    ensures IsFormValidCorrected(f, emailMatches) <==>
      IsFormValid(f, emailMatches) && f.confirm != "" && f.confirm == f.password
    ensures IsFormValidCorrected(f, emailMatches) ==> |f.confirm| >= 6
  {
  }

  /** The register button: enabled when idle and the form is valid, as written. */
  predicate RegisterEnabled(isLoading: bool, f: RegisterFields, emailMatches: bool) {
    !isLoading && IsFormValid(f, emailMatches)
  }

  /** The arguments a tap hands to `register`. */
  datatype RegisterArgs = RegisterArgs(
    email: string, password: string, nama: string, nim: string, prodi: string, nomorHP: string)

  /** What the button sends, as written: every text field trimmed except the password. */
  function RegisterRequest(f: RegisterFields, emailMatches: bool): (r: Option<RegisterArgs>)
    ensures r.Some? <==> IsFormValid(f, emailMatches)
    ensures r.Some? ==> r.value.password == f.password && r.value.email == Trim(f.email)
    ensures r.Some? ==> (r.value.nama == Trim(f.nama) && r.value.prodi == Trim(f.prodi)
      && r.value.nomorHP == Trim(f.nomorHP))
    ensures r.Some? ==> r.value.nim == f.nim && IsValidNim(r.value.nim)
  {
    if IsFormValid(f, emailMatches) then
      ValidNimTrimsToItself(f.nim);
      Some(TrimmedArgs(f))
    else None
  }

  /** Every text field trimmed except the password. */
  function TrimmedArgs(f: RegisterFields): (a: RegisterArgs)
    ensures a.password == f.password && a.email == Trim(f.email) && a.nim == Trim(f.nim)
    ensures a.nama == Trim(f.nama) && a.prodi == Trim(f.prodi) && a.nomorHP == Trim(f.nomorHP)
  {
    RegisterArgs(Trim(f.email), f.password, Trim(f.nama), Trim(f.nim), Trim(f.prodi), Trim(f.nomorHP))
  }

  /** A valid NIM is all digits, so trimming leaves it as it is. */
  lemma ValidNimTrimsToItself(nim: string)
    requires IsValidNim(nim)
    ensures Trim(nim) == nim
  {
    DigitsHaveNoWhitespace(nim);
    TrimNoWhitespace(nim);
  }

  /** The request with the corrected form check: the same arguments, sent
      only when the confirmation repeats the password. */
  function RegisterRequestCorrected(f: RegisterFields, emailMatches: bool): (r: Option<RegisterArgs>)
    ensures r.Some? <==> IsFormValidCorrected(f, emailMatches)
    ensures r.Some? ==> r == RegisterRequest(f, emailMatches) && f.confirm == r.value.password
  {
    if IsFormValidCorrected(f, emailMatches) then RegisterRequest(f, emailMatches) else None
  }

  /** As written, a tap sends the request with the confirmation left empty;
      the corrected request holds it back. */
  lemma EmptyConfirmationSends()
    ensures var f := RegisterFields("a@b.id", "rahasia", "", "Ani", "2250000001", "TI", "0812");
      RegisterEnabled(false, f, true) && RegisterRequest(f, true).Some?
      && RegisterRequest(f, true).value.password == "rahasia"
      && RegisterRequestCorrected(f, true).None?
  {
    var f := RegisterFields("a@b.id", "rahasia", "", "Ani", "2250000001", "TI", "0812");
    EmptyConfirmationAccepted();
    assert f.confirm != f.password;
  }

  lemma DigitsHaveNoWhitespace(s: string)
    requires AllDigits(s)
    ensures NoWhitespace(s)
  {
  }

  /** A sent request reaches the repository; its success signs the user in
      with a profile under the new uid holding the trimmed fields. */
  lemma RegisterRequestStoresProfile(f: RegisterFields, emailMatches: bool, s: AuthViewModel.AuthUiState,
                                     profiles: AuthRepository.Profiles, u: AuthRepository.AuthUser)
    requires IsFormValid(f, emailMatches)
    ensures var a := RegisterRequest(f, emailMatches).value;
      var t := AuthViewModel.Register(s, profiles, AuthRepository.AuthDone(Some(u)),
                                      a.email, a.nama, a.nim, a.prodi, a.nomorHP, None);
      t.0.isLoggedIn && u.uid in t.1 && t.1[u.uid].nim == f.nim && t.1[u.uid].nama == Trim(f.nama)
  {
    var a := RegisterRequest(f, emailMatches).value;
    SignUpStoresArgs(s, profiles, u, a.email, a.nama, a.nim, a.prodi, a.nomorHP);
  }

  /** A completed sign-up signs in and stores the profile it was given. */
  lemma SignUpStoresArgs(s: AuthViewModel.AuthUiState, profiles: AuthRepository.Profiles, u: AuthRepository.AuthUser,
                         email: string, nama: string, nim: string, prodi: string, nomorHP: string)
    ensures var t := AuthViewModel.Register(s, profiles, AuthRepository.AuthDone(Some(u)),
                                            email, nama, nim, prodi, nomorHP, None);
      t.0.isLoggedIn && u.uid in t.1 && t.1[u.uid].nim == nim && t.1[u.uid].nama == nama
  {
  }

  const RegisterErrorRules: seq<(string, string)> := [
    ("email-already-in-use", "Email sudah terdaftar. Gunakan email lain."),
    ("weak-password", "Password terlalu lemah. Gunakan kombinasi huruf dan angka."),
    ("invalid-email", "Format email tidak valid."),
    ("network", "Periksa koneksi internet Anda.")]
  const RegisterErrorFallback := "Pendaftaran gagal. Silakan coba lagi."

  function RegisterErrorText(error: string): (text: string)
    ensures text == RegisterErrorFallback || exists i :: 0 <= i < |RegisterErrorRules| && text == RegisterErrorRules[i].1
  {
    ErrorText(RegisterErrorRules, error, RegisterErrorFallback)
  }

  /** "email-already-in-use" is recognised whatever else the message says. */
  lemma RegisterDuplicateFirst(error: string)
    requires Contains(error, "email-already-in-use")
    ensures RegisterErrorText(error) == "Email sudah terdaftar. Gunakan email lain."
  {
    ErrorTextPicksRule(RegisterErrorRules, error, RegisterErrorFallback, 0);
  }
}
