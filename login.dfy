/** The login page (app/page.tsx): after signing in, the account's profile
    decides where the user goes, or which message stops them. */
module Login {
  import opened Wrappers

  const NoProfile: string := "Data profil tidak ditemukan."
  const Inactive: string := "Akun nonaktif."
  const DefaultRoute: string := "/staff/dashboard"
  const BadCredentials: string := "Invalid login credentials"
  const BadCredentialsShown: string := "Email atau Password salah."

  /** The `role` and `is_active` columns the page reads. */
  datatype RoleRow = RoleRow(role: Option<string>, isActive: Option<bool>)

  datatype Decision = Redirect(route: string) | Stay(message: string)

  /** `routes[data.role] || '/staff/dashboard'` */
  function Route(role: Option<string>): (route: string)
    ensures route in {"/super_admin/dashboard", "/kepala_dinas/dashboard", DefaultRoute}
    ensures role == Some("super_admin") ==> route == "/super_admin/dashboard"
    ensures role == Some("kepala_dinas") ==> route == "/kepala_dinas/dashboard"
    ensures !(role == Some("super_admin") || role == Some("kepala_dinas")) ==> route == DefaultRoute
  {
    if role == Some("super_admin") then "/super_admin/dashboard"
    else if role == Some("kepala_dinas") then "/kepala_dinas/dashboard"
    else if role == Some("staff") then "/staff/dashboard"
    else DefaultRoute
  }

  /** `redirectBasedOnRole` after `maybeSingle()` returned either an error
      message or the row (if any): a database error, a missing profile and
      an account that is not active each stop with their message; otherwise
      the role picks the dashboard. */
  function RedirectBasedOnRole(dbError: Option<string>, data: Option<RoleRow>): (d: Decision)
    ensures dbError.Some? ==> d == Stay("Error Database: " + dbError.value)
    ensures dbError.None? && data.None? ==> d == Stay(NoProfile)
    ensures d.Redirect? <==> dbError.None? && data.Some? && data.value.isActive == Some(true)
    ensures d.Redirect? ==> d.route == Route(data.value.role)
    ensures dbError.None? && data.Some? && !d.Redirect? ==> d == Stay(Inactive)
  {
    if dbError.Some? then Stay("Error Database: " + dbError.value)
    else if data.None? then Stay(NoProfile)
    else if data.value.isActive != Some(true) then Stay(Inactive)
    else Redirect(Route(data.value.role))
  }

  /** `handleLogin`'s message: only the credentials error is replaced. */
  function LoginMessage(message: string): (shown: string)
    ensures message == BadCredentials ==> shown == BadCredentialsShown
    ensures message != BadCredentials ==> shown == message
  {
    if message == BadCredentials then BadCredentialsShown else message
  }
}
