/** Users, roles and login form data. */
module AuthTypes {
  import opened Options

  datatype UserRole = SuperAdminRole | AdminRole | StaffRole | HospitalRole | EndUserRole

  /** The enum's string values. */
  function RoleName(r: UserRole): string {
    match r
    case SuperAdminRole => "super_admin"
    case AdminRole => "admin"
    case StaffRole => "staff"
    case HospitalRole => "hospital"
    case EndUserRole => "user"
  }

  function RoleFromName(s: string): (r: Option<UserRole>)
    ensures r.Some? ==> RoleName(r.value) == s
  {
    if s == "super_admin" then Some(SuperAdminRole)
    else if s == "admin" then Some(AdminRole)
    else if s == "staff" then Some(StaffRole)
    else if s == "hospital" then Some(HospitalRole)
    else if s == "user" then Some(EndUserRole)
    else None
  }

  /** The five role values are pairwise distinct and name their roles one-to-one. */
  lemma RoleNameRoundTrip(r: UserRole, s: string)
    ensures RoleFromName(RoleName(r)) == Some(r)
    ensures RoleName(r) == s <==> RoleFromName(s) == Some(r)
  {
  }

  datatype Permission = Permission(id: string, name: string, description: string)

  /** Only `hospitalId` is optional; role and permissions are always present. */
  datatype User = User(id: string, email: string, role: UserRole, hospitalId: Option<string>, permissions: seq<Permission>)

  datatype LoginFormData = LoginFormData(email: string, password: string)
}
