/** Managed user records and user form data of types/user.ts (a separate table from the login directory). */
module UserTypes {

  datatype UserStatus = Active | Inactive | Suspended

  datatype User = User(
    id: string,
    employeeId: string,
    firstName: string,
    lastName: string,
    email: string,
    phone: string,
    department: string,
    position: string,
    role: string,
    status: UserStatus,
    location: string,
    manager: string,
    startDate: string,
    lastLogin: string,
    notes: string,
    createdAt: string,
    updatedAt: string)

  /** A user without `id`, `createdAt`, `updatedAt` and `lastLogin`: what the user form submits. */
  datatype UserFormData = UserFormData(
    employeeId: string,
    firstName: string,
    lastName: string,
    email: string,
    phone: string,
    department: string,
    position: string,
    role: string,
    status: UserStatus,
    location: string,
    manager: string,
    startDate: string,
    notes: string)

  /** The form fields of a user (the `Omit<User, ...>` projection). */
  function FormOf(u: User): UserFormData
  {
    UserFormData(u.employeeId, u.firstName, u.lastName, u.email, u.phone, u.department,
                 u.position, u.role, u.status, u.location, u.manager, u.startDate, u.notes)
  }

  /** The user built by the add handler: a fresh id, no last login yet, both stamps the current time. */
  function NewUser(form: UserFormData, id: string, now: string): (u: User)
    ensures FormOf(u) == form
    ensures u.id == id && u.lastLogin == "" && u.createdAt == now && u.updatedAt == now
  {
    User(id, form.employeeId, form.firstName, form.lastName, form.email, form.phone,
         form.department, form.position, form.role, form.status, form.location,
         form.manager, form.startDate, "", form.notes, now, now)
  }

  /** `{ ...user, ...form, updatedAt: now }`: the form has no `lastLogin`, so it is kept. */
  function EditedUser(u: User, form: UserFormData, now: string): (r: User)
    ensures FormOf(r) == form
    ensures r.id == u.id && r.lastLogin == u.lastLogin && r.createdAt == u.createdAt && r.updatedAt == now
  {
    NewUser(form, u.id, now).(lastLogin := u.lastLogin, createdAt := u.createdAt)
  }

  /** Selects the users with the given id. */
  function WithId(id: string): User -> bool
  {
    (u: User) => u.id == id
  }

  /** Selects the users whose id differs from the given one. */
  function WithoutId(id: string): User -> bool
  {
    (u: User) => u.id != id
  }
}
