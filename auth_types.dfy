/** The authenticated identity of types/auth.ts. */
module AuthTypes {
  import opened Wrappers

  /**
   * The four roles of the `role` union. Roles are kept as strings because the
   * navigation helpers accept an arbitrary role string and have a default branch.
   */
  const RoleAdmin: string := "admin"
  const RoleManager: string := "manager"
  const RoleUser: string := "user"
  const RoleViewer: string := "viewer"

  datatype LoginCredentials = LoginCredentials(email: string, password: string)

  datatype AuthUser = AuthUser(
    id: string,
    email: string,
    firstName: string,
    lastName: string,
    role: string,
    department: string,
    employeeId: string,
    avatar: Option<string>,
    lastLogin: string)

  /** The authentication part of the application state; a user is present exactly when authenticated. */
  datatype AuthState = AuthState(user: Option<AuthUser>, isAuthenticated: bool)
}
