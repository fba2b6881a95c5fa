/** The dashboard each role lands on, shared by both application shells. */
module Dashboards {
  import opened AuthTypes

  datatype Dashboard = SuperAdminDashboard | AdminDashboard | StaffDashboard | HospitalDashboard | UserDashboard

  /** The dashboard of a role; the end-user role gets the user dashboard. */
  function DashboardFor(role: UserRole): (d: Dashboard)
    ensures d == UserDashboard <==> role == EndUserRole
    ensures d == HospitalDashboard <==> role == HospitalRole
  {
    match role
    case SuperAdminRole => SuperAdminDashboard
    case AdminRole => AdminDashboard
    case StaffRole => StaffDashboard
    case HospitalRole => HospitalDashboard
    case EndUserRole => UserDashboard
  }

  /** The role whose dashboard this is. */
  function RoleOf(d: Dashboard): UserRole {
    match d
    case SuperAdminDashboard => SuperAdminRole
    case AdminDashboard => AdminRole
    case StaffDashboard => StaffRole
    case HospitalDashboard => HospitalRole
    case UserDashboard => EndUserRole
  }

  /** Routing is a bijection: different roles never share a dashboard, and every dashboard is some role's. */
  lemma DashboardForIsBijective(a: UserRole, b: UserRole, d: Dashboard)
    ensures DashboardFor(a) == DashboardFor(b) <==> a == b
    ensures RoleOf(DashboardFor(a)) == a && DashboardFor(RoleOf(d)) == d
  {
  }
}
