/**
 * The demonstration shell: a fixed credential table routes a login to the role's dashboard; the claim-status
 * search is reachable from the login screen and returns to it. The login delay and the clock that stamps the
 * user id are parameters.
 */
module DemoApp {
  import opened Options
  import opened AuthTypes
  import opened Dashboards

  datatype Screen = LoginView | DashboardView(dashboard: Dashboard) | ClaimStatusSearchView

  datatype DemoState = DemoState(screen: Screen, isLoading: bool, error: Option<string>, currentUser: Option<User>)

  const InitialDemo := DemoState(LoginView, false, None, None)

  /** `validCredentials`: email to role. */
  const ValidCredentials: map<string, UserRole> := map[
    "superadmin@firstcare.com" := SuperAdminRole,
    "admin@firstcare.com" := AdminRole,
    "staff@firstcare.com" := StaffRole,
    "hospital@firstcare.com" := HospitalRole,
    "user@firstcare.com" := EndUserRole]

  const DemoPassword := "1234"

  const InvalidLogin := "Invalid email or password. Please try again."

  predicate Authenticates(form: LoginFormData) {
    form.email in ValidCredentials && form.password == DemoPassword
  }

  /** `handleLogin` once the delay has passed; `stamp` is the clock reading in the user id. */
  function HandleLogin(st: DemoState, form: LoginFormData, stamp: string): (r: DemoState)
    ensures !r.isLoading
    ensures r.error.None? <==> Authenticates(form)
    ensures Authenticates(form) ==>
              && r.currentUser.Some? && r.currentUser.value.email == form.email
              && r.currentUser.value.role == ValidCredentials[form.email]
              && r.screen == DashboardView(DashboardFor(ValidCredentials[form.email]))
    ensures !Authenticates(form) ==>
              r.error == Some(InvalidLogin) && r.screen == st.screen && r.currentUser == st.currentUser
  {
    if form.email in ValidCredentials && form.password == DemoPassword then
      var role := ValidCredentials[form.email];
      DemoState(DashboardView(DashboardFor(role)), false, None, Some(User("user-" + stamp, form.email, role, None, [])))
    else
      st.(isLoading := false, error := Some(InvalidLogin))
  }

  /** Exactly five addresses log in, each to a different dashboard. */
  lemma CredentialsRouteInjectively(a: LoginFormData, b: LoginFormData, st: DemoState, stamp: string)
    requires Authenticates(a) && Authenticates(b)
    ensures HandleLogin(st, a, stamp).screen == HandleLogin(st, b, stamp).screen <==> a.email == b.email
  {
    DashboardForIsBijective(ValidCredentials[a.email], ValidCredentials[b.email], UserDashboard);
  }

  /** `renderCurrentScreen`: the user dashboard renders nothing while nobody is signed in. */
  function Rendered(st: DemoState): (v: Option<Screen>)
    ensures v.None? <==> st.screen == DashboardView(UserDashboard) && st.currentUser.None?
    ensures v.Some? ==> v.value == st.screen
  {
    match st.screen
    case DashboardView(UserDashboard) => if st.currentUser.Some? then Some(st.screen) else None
    case _ => Some(st.screen)
  }

  /** Every successful login renders its dashboard, the user dashboard included. */
  lemma LoginRendersDashboard(st: DemoState, form: LoginFormData, stamp: string)
    requires Authenticates(form)
    ensures Rendered(HandleLogin(st, form, stamp)) == Some(DashboardView(DashboardFor(ValidCredentials[form.email])))
  {
  }

  /** A wrong password never logs in, whatever the address. */
  lemma WrongPasswordFails(st: DemoState, form: LoginFormData, stamp: string)
    requires form.password != DemoPassword
    ensures HandleLogin(st, form, stamp).error == Some(InvalidLogin)
    ensures HandleLogin(st, form, stamp).screen == st.screen
  {
  }

  /** `handleLogout`. */
  function HandleLogout(st: DemoState): (r: DemoState)
    ensures r.currentUser.None? && r.screen == LoginView && r.error.None?
    ensures r.isLoading == st.isLoading
  {
    st.(currentUser := None, screen := LoginView, error := None)
  }

  function HandleClaimStatusSearch(st: DemoState): (r: DemoState)
    ensures r.screen == ClaimStatusSearchView && r.currentUser == st.currentUser
    ensures r.error == st.error && r.isLoading == st.isLoading
  {
    st.(screen := ClaimStatusSearchView)
  }

  function HandleBackToLogin(st: DemoState): (r: DemoState)
    ensures r.screen == LoginView && r.currentUser == st.currentUser
    ensures r.error == st.error && r.isLoading == st.isLoading
  {
    st.(screen := LoginView)
  }

  /** Opening the claim-status search from the login screen and going back restores the state. */
  lemma SearchAndBackRestores(st: DemoState)
    requires st.screen == LoginView
    ensures HandleBackToLogin(HandleClaimStatusSearch(st)) == st
  {
  }

  /** Logging in and out ends on the login screen with no user or error. */
  lemma LoginThenLogout(st: DemoState, form: LoginFormData, stamp: string)
    ensures var r := HandleLogout(HandleLogin(st, form, stamp));
            r == InitialDemo
  {
  }
}
