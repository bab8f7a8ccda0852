/** Routing: the e-mail role classifier, the post-authentication navigation
    effect of `Navigation`, and the start destination and logged-out
    redirect of `BookingKonselingApp`.

    `isInitialized`, which the navigation reads but `AuthUiState` does not
    declare, is a parameter. The current route of the navigation controller
    is an `Option<string>` (none before the graph is set).
 */
module Routing {
  import opened Wrappers
  import opened Text
  import AuthRepository
  import AuthViewModel

  const LoginRoute := "login"
  const RegisterRoute := "register"
  const MainRoute := "main"
  const AdminMainRoute := "admin_main"

  const AdminRole := "admin"
  const StudentRole := "student"

  const AdminDomain := "@admin.ub.ac.id"

  /** The two-part test both classifiers apply to the account's e-mail. */
  predicate IsAdminEmail(email: Option<string>) {
    email.Some? && (Contains(email.value, "admin") || EndsWith(email.value, AdminDomain))
  }

  /** The domain test adds nothing: the domain itself contains "admin". */
  lemma IsAdminEmailIffContainsAdmin(email: Option<string>)
    ensures IsAdminEmail(email) <==> email.Some? && Contains(email.value, "admin")
  {
    if email.Some? && EndsWith(email.value, AdminDomain) {
      EndsWithContains(email.value, AdminDomain);
      assert AdminDomain[1..6] == "admin";
      OccursContains(AdminDomain, "admin", 1);
      ContainsTransitive(email.value, AdminDomain, "admin");
    }
  }

  /** The role `Navigation` computes for the signed-in account; a null
      e-mail is a student. */
  function RoleOf(email: Option<string>): (role: string)
    ensures role == AdminRole <==> email.Some? && Contains(email.value, "admin")
    ensures role == AdminRole || role == StudentRole
  {
    IsAdminEmailIffContainsAdmin(email);
    if IsAdminEmail(email) then AdminRole else StudentRole
  }

  /** The role effect: recomputed when there is a current account, left as it
      was (initially null) when there is none. */
  function RoleAfterEffect(user: Option<AuthRepository.AuthUser>, role: Option<string>): (r: Option<string>)
    ensures user.Some? ==> r == Some(RoleOf(user.value.email))
    ensures user.None? ==> r == role
  {
    if user.Some? then Some(RoleOf(user.value.email)) else role
  }

  /** What `Navigation` does on an authentication change. */
  datatype NavEffect = ShowLoading | NavigateTo(route: string) | Stay

  /** The signed-in destination: admin home only for the computed admin role;
      a role not yet computed goes to the student home. */
  function SignedInDestination(role: Option<string>): (route: string)
    ensures route == AdminMainRoute <==> role == Some(AdminRole)
    ensures route == AdminMainRoute || route == MainRoute
  {
    if role == Some(AdminRole) then AdminMainRoute else MainRoute
  }

  function NavigationEffect(isInitialized: bool, isLoggedIn: bool, role: Option<string>,
                            current: Option<string>): (e: NavEffect)
    ensures e.ShowLoading? <==> !isInitialized
    ensures e.NavigateTo? && isLoggedIn ==> e.route == SignedInDestination(role) && current != Some(e.route)
    ensures e.NavigateTo? && !isLoggedIn ==>
      e.route == LoginRoute && current != Some(LoginRoute) && current != Some(RegisterRoute)
    ensures (isInitialized && !isLoggedIn && current != Some(LoginRoute) && current != Some(RegisterRoute))
      ==> e == NavigateTo(LoginRoute)
    ensures e.Stay? ==> (isInitialized && (if isLoggedIn then current == Some(SignedInDestination(role))
                                            else current == Some(LoginRoute) || current == Some(RegisterRoute)))
  {
    if !isInitialized then ShowLoading
    else if isLoggedIn then
      var dest := SignedInDestination(role);
      if current != Some(dest) then NavigateTo(dest) else Stay
    else if current != Some(LoginRoute) && current != Some(RegisterRoute) then NavigateTo(LoginRoute)
    else Stay
  }

  /** Navigating is a fixpoint: once at the chosen route, the effect stays there. */
  lemma NavigationSettles(isInitialized: bool, isLoggedIn: bool, role: Option<string>, current: Option<string>)
    requires NavigationEffect(isInitialized, isLoggedIn, role, current).NavigateTo?
    ensures var e := NavigationEffect(isInitialized, isLoggedIn, role, current);
      NavigationEffect(isInitialized, isLoggedIn, role, Some(e.route)) == Stay
  {
  }

  /** `startDestination` in `BookingKonselingApp`. */
  function StartDestination(isLoggedIn: bool, user: Option<AuthRepository.AuthUser>): (route: string)
    ensures !isLoggedIn ==> route == LoginRoute
    ensures isLoggedIn ==> (route == AdminMainRoute <==>
      user.Some? && user.value.email.Some? && Contains(user.value.email.value, "admin"))
    ensures isLoggedIn ==> route == AdminMainRoute || route == MainRoute
  {
    if !isLoggedIn then LoginRoute
    else
      var email := if user.Some? then user.value.email else None;
      IsAdminEmailIffContainsAdmin(email);
      if IsAdminEmail(email) then AdminMainRoute else MainRoute
  }

  /** The two classifiers agree: once the role effect has run for the current
      account, `Navigation` sends a signed-in user where the start
      destination would have. */
  lemma StartDestinationAgreesWithNavigation(u: AuthRepository.AuthUser, role: Option<string>)
    ensures SignedInDestination(RoleAfterEffect(Some(u), role)) == StartDestination(true, Some(u))
  {
  }

  /** The navigation decision with the role computed for the account being
      routed before the decision reads it. This is the order the role effect
      is meant to finish in. For a signed-in account the remembered role no
      longer matters, and the decision is the start destination's. */
  function NavigationEffectCorrected(isInitialized: bool, isLoggedIn: bool, user: Option<AuthRepository.AuthUser>,
                                     remembered: Option<string>, current: Option<string>): (e: NavEffect)
    ensures e.ShowLoading? <==> !isInitialized
    ensures (isInitialized && isLoggedIn && user.Some? && current != Some(StartDestination(true, user)))
      ==> e == NavigateTo(StartDestination(true, user))
    ensures (isInitialized && isLoggedIn && user.Some? && current == Some(StartDestination(true, user))) ==> e == Stay
    ensures !isLoggedIn ==> e == NavigationEffect(isInitialized, false, None, current)
  {
    NavigationEffect(isInitialized, isLoggedIn, RoleAfterEffect(user, remembered), current)
  }

  /** As written, both effects start in the same frame. The role effect only
      launches a child coroutine, so the isLoggedIn effect reads `userRole`
      before that child sets it. The role read is therefore the one
      remembered from before the sign-in: null at first, and the previous
      account's role after a sign-out. An admin signing in first is sent to
      the student home. A student signing in after an admin's session is
      sent to the admin home. The corrected decision sends both home. */
  lemma StaleRoleMisroutes()
    ensures var admin := AuthRepository.AuthUser("u1", Some("admin@ub.ac.id"));
      var student := AuthRepository.AuthUser("u2", Some("ani@ub.ac.id"));
      NavigationEffect(true, true, None, Some(LoginRoute)) == NavigateTo(MainRoute)
      && StartDestination(true, Some(admin)) == AdminMainRoute
      && NavigationEffect(true, true, Some(AdminRole), Some(LoginRoute)) == NavigateTo(AdminMainRoute)
      && StartDestination(true, Some(student)) == MainRoute
      && NavigationEffectCorrected(true, true, Some(admin), None, Some(LoginRoute)) == NavigateTo(AdminMainRoute)
      && NavigationEffectCorrected(true, true, Some(student), Some(AdminRole), Some(LoginRoute)) == NavigateTo(MainRoute)
  {
    AdminSampleIsAdmin();
    StudentSampleIsNotAdmin();
  }

  lemma AdminSampleIsAdmin()
    ensures Contains("admin@ub.ac.id", "admin")
  {
    var m := "admin@ub.ac.id";
    assert m[0..5] == "admin";
    OccursContains(m, "admin", 0);
  }

  lemma StudentSampleIsNotAdmin()
    ensures !Contains("ani@ub.ac.id", "admin")
  {
    var m := "ani@ub.ac.id";
    ContainsChars(m, "admin");
    assert 'm' in "admin" && 'm' !in m;
  }

  /** The route the navigation graph opens on: `NavHost` is given the login
      route whatever start destination `Navigation` was called with. */
  function GraphStart(startDestination: string): (route: string)
    ensures route == LoginRoute
  {
    LoginRoute
  }

  /** The computed start destination never opens the graph. With the role
      computed for the current account first, the navigation effect moves
      from the login screen to exactly that route. */
  lemma GraphStartReachesStartDestination(isLoggedIn: bool, u: AuthRepository.AuthUser, role: Option<string>)
    ensures var start := GraphStart(StartDestination(isLoggedIn, Some(u)));
      var e := NavigationEffectCorrected(true, isLoggedIn, Some(u), role, Some(start));
      start == LoginRoute
      && (if isLoggedIn then e == NavigateTo(StartDestination(isLoggedIn, Some(u)))
          else e == Stay && StartDestination(isLoggedIn, Some(u)) == start)
  {
    StartDestinationAgreesWithNavigation(u, role);
  }

  /** `BookingKonselingApp`'s effect: go to login, clearing the back stack,
      when signed out and not loading. */
  predicate RedirectsToLogin(isLoggedIn: bool, isLoading: bool) {
    !isLoggedIn && !isLoading
  }

  /** After a logout, whatever its path, the app redirects to login and the
      navigation effect leaves only the login and register screens alone. */
  lemma LogoutLeadsToLogin(s: AuthViewModel.AuthUiState, interrupted: Option<Exn>, role: Option<string>,
                           current: Option<string>)
    ensures var t := AuthViewModel.Logout(s, interrupted);
      RedirectsToLogin(t.isLoggedIn, t.isLoading)
      && NavigationEffect(true, t.isLoggedIn, role, current)
         == (if current == Some(LoginRoute) || current == Some(RegisterRoute) then Stay else NavigateTo(LoginRoute))
  {
  }

  /** A successful sign-in from the login screen, with the role computed for
      the new account first, navigates to the home its e-mail selects,
      whatever role was remembered. */
  lemma LoginNavigatesHome(s: AuthViewModel.AuthUiState, u: AuthRepository.AuthUser, role: Option<string>)
    ensures var t := AuthViewModel.Login(s, AuthRepository.AuthDone(Some(u)));
      NavigationEffectCorrected(true, t.isLoggedIn, Some(u), role, Some(LoginRoute))
      == NavigateTo(if u.email.Some? && Contains(u.email.value, "admin") then AdminMainRoute else MainRoute)
  {
  }
}
