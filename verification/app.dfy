/**
 * The application shell: a mock user table authenticates, the signed-in user's role picks the dashboard, and
 * the login screen shows while a login is pending or nobody is signed in.
 */
module App {
  import opened Options
  import opened AuthTypes
  import opened Dashboards
  import DemoApp

  const MockUsers: map<string, User> := map[
    "superadmin@firstcare.com" := User("1", "superadmin@firstcare.com", SuperAdminRole, None,
                                       [Permission("1", "full_access", "Full system access")]),
    "admin@firstcare.com" := User("2", "admin@firstcare.com", AdminRole, None,
                                  [Permission("2", "admin_access", "Admin level access")]),
    "staff@firstcare.com" := User("3", "staff@firstcare.com", StaffRole, None,
                                  [Permission("3", "staff_access", "Staff level access")]),
    "hospital@firstcare.com" := User("4", "hospital@firstcare.com", HospitalRole, Some("hosp_001"),
                                     [Permission("4", "hospital_access", "Hospital level access")]),
    "user@firstcare.com" := User("5", "user@firstcare.com", EndUserRole, None,
                                 [Permission("5", "user_access", "User level access")])]

  /** The mock users are keyed by their own address, and only the hospital user carries a hospital id. */
  lemma MockUsersWellFormed(email: string)
    requires email in MockUsers
    ensures MockUsers[email].email == email
    ensures MockUsers[email].hospitalId.Some? <==> MockUsers[email].role == HospitalRole
    ensures |MockUsers[email].permissions| == 1
  {
  }

  /** Both shells accept the same addresses and give them the same roles. */
  lemma SameAccountsAsDemo(email: string)
    ensures email in MockUsers <==> email in DemoApp.ValidCredentials
    ensures email in MockUsers ==> MockUsers[email].role == DemoApp.ValidCredentials[email]
  {
  }

  datatype AppState = AppState(isAuthenticated: bool, currentUser: Option<User>, isLoading: bool, error: Option<string>)

  const InitialApp := AppState(false, None, false, None)

  predicate Authenticates(form: LoginFormData) {
    form.email in MockUsers && form.password == DemoApp.DemoPassword
  }

  /** `handleLogin` once the delay has passed. */
  function HandleLogin(st: AppState, form: LoginFormData): (r: AppState)
    ensures !r.isLoading
    ensures r.error.None? <==> Authenticates(form)
    ensures Authenticates(form) ==> r.isAuthenticated && r.currentUser == Some(MockUsers[form.email]) && r.error.None?
    ensures !Authenticates(form) ==>
              r.error == Some("Invalid email or password")
              && r.isAuthenticated == st.isAuthenticated && r.currentUser == st.currentUser
  {
    if form.email in MockUsers && form.password == DemoApp.DemoPassword then
      AppState(true, Some(MockUsers[form.email]), false, None)
    else
      st.(isLoading := false, error := Some("Invalid email or password"))
  }

  /** Both shells accept exactly the same logins. */
  lemma SameLoginsAsDemo(form: LoginFormData)
    ensures Authenticates(form) <==> DemoApp.Authenticates(form)
  {
    SameAccountsAsDemo(form.email);
  }

  /** `handleLogout`. */
  function HandleLogout(st: AppState): (r: AppState)
    ensures !r.isAuthenticated && r.currentUser.None? && r.error.None?
    ensures r.isLoading == st.isLoading
  {
    st.(currentUser := None, isAuthenticated := false, error := None)
  }

  datatype View = LoginPage | DashboardPage(dashboard: Dashboard)

  /** What the shell renders. */
  function CurrentView(st: AppState): (v: View)
    ensures st.isLoading ==> v == LoginPage
    ensures v.DashboardPage? <==> !st.isLoading && st.isAuthenticated && st.currentUser.Some?
    ensures v.DashboardPage? ==> v.dashboard == DashboardFor(st.currentUser.value.role)
  {
    if st.isLoading then LoginPage
    else if st.isAuthenticated && st.currentUser.Some? then DashboardPage(DashboardFor(st.currentUser.value.role))
    else LoginPage
  }

  /** A successful login shows the dashboard of the account's role; both shells route it to the same one. */
  lemma LoginShowsRoleDashboard(st: AppState, form: LoginFormData, ds: DemoApp.DemoState, stamp: string)
    requires Authenticates(form)
    ensures CurrentView(HandleLogin(st, form)) == DashboardPage(DashboardFor(MockUsers[form.email].role))
    ensures DemoApp.HandleLogin(ds, form, stamp).screen == DemoApp.DashboardView(CurrentView(HandleLogin(st, form)).dashboard)
  {
  }

  /** After logging out the login screen is shown. */
  lemma LogoutShowsLogin(st: AppState)
    ensures CurrentView(HandleLogout(st)) == LoginPage
  {
  }
}
