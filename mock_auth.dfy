/**
 * The mock identity provider of data/mockAuth.ts: a directory from login email
 * to (password, identity) that logins and profile updates rewrite in place,
 * and the browser-storage session that holds the signed-in identity.
 */
module MockAuth {
  import opened Wrappers
  import opened AuthTypes
  import Access

  datatype AuthError = InvalidCredentials | UserNotFound
  {
    /** The message of the thrown `Error`. */
    function Message(): string
    {
      match this
      case InvalidCredentials => "Invalid email or password"
      case UserNotFound => "User not found"
    }
  }

  /** One directory record: the stored identity and its password. */
  datatype DirectoryEntry = DirectoryEntry(user: AuthUser, password: string)

  /** A `Partial<AuthUser>`: `None` is an absent property, `Some(v)` a present one. */
  datatype ProfileUpdate = ProfileUpdate(
    id: Option<string>,
    email: Option<string>,
    firstName: Option<string>,
    lastName: Option<string>,
    role: Option<string>,
    department: Option<string>,
    employeeId: Option<string>,
    avatar: Option<string>,
    lastLogin: Option<string>)

  /** No two directory records hold identities with the same id. */
  ghost predicate UniqueIds(entries: map<string, DirectoryEntry>)
  {
    forall e1, e2 :: e1 in entries && e2 in entries && entries[e1].user.id == entries[e2].user.id ==> e1 == e2
  }

  /**
   * `{ ...stored, ...updates, id: userId }`: every property present in the
   * update replaces the stored one, absent ones are kept, and the id is pinned
   * to `userId` whatever the update says.
   */
  function ApplyProfileUpdate(stored: AuthUser, updates: ProfileUpdate, userId: string): (r: AuthUser)
    ensures r.id == userId
    ensures updates.email.Some? ==> r.email == updates.email.value
    ensures updates.email.None? ==> r.email == stored.email
    ensures updates.firstName.Some? ==> r.firstName == updates.firstName.value
    ensures updates.firstName.None? ==> r.firstName == stored.firstName
    ensures updates.lastName.Some? ==> r.lastName == updates.lastName.value
    ensures updates.lastName.None? ==> r.lastName == stored.lastName
    ensures updates.role.Some? ==> r.role == updates.role.value
    ensures updates.role.None? ==> r.role == stored.role
    ensures updates.department.Some? ==> r.department == updates.department.value
    ensures updates.department.None? ==> r.department == stored.department
    ensures updates.employeeId.Some? ==> r.employeeId == updates.employeeId.value
    ensures updates.employeeId.None? ==> r.employeeId == stored.employeeId
    ensures updates.avatar.Some? ==> r.avatar == updates.avatar
    ensures updates.avatar.None? ==> r.avatar == stored.avatar
    ensures updates.lastLogin.Some? ==> r.lastLogin == updates.lastLogin.value
    ensures updates.lastLogin.None? ==> r.lastLogin == stored.lastLogin
  {
    AuthUser(
      userId,
      updates.email.GetOr(stored.email),
      updates.firstName.GetOr(stored.firstName),
      updates.lastName.GetOr(stored.lastName),
      updates.role.GetOr(stored.role),
      updates.department.GetOr(stored.department),
      updates.employeeId.GetOr(stored.employeeId),
      if updates.avatar.Some? then updates.avatar else stored.avatar,
      updates.lastLogin.GetOr(stored.lastLogin))
  }

  /** Applying the same update twice is the same as applying it once. */
  lemma ProfileUpdateIdempotent(stored: AuthUser, updates: ProfileUpdate, userId: string)
    ensures ApplyProfileUpdate(ApplyProfileUpdate(stored, updates, userId), updates, userId)
            == ApplyProfileUpdate(stored, updates, userId)
  {
  }

  /** The `mockAuthUsers` table: login email to record, rewritten in place. */
  class Directory {
    var entries: map<string, DirectoryEntry>

    /** The seed table has one record per email (map keys) and unique identity ids. */
    ghost predicate Valid()
      reads this
    {
      UniqueIds(entries)
    }

    constructor (seed: map<string, DirectoryEntry>)
      requires UniqueIds(seed)
      ensures Valid() && entries == seed
    {
      entries := seed;
    }

    /** The stored password for the email matches: the only condition a login checks. */
    predicate Accepts(credentials: LoginCredentials)
      reads this
    {
      credentials.email in entries && entries[credentials.email].password == credentials.password
    }

    /** The `find` over the table's entries: the email of a record whose identity has id `userId`. */
    method FindById(userId: string) returns (email: Option<string>)
      ensures email.Some? ==> email.value in entries && entries[email.value].user.id == userId
      ensures email.None? <==> forall e :: e in entries ==> entries[e].user.id != userId
    {
      var remaining := entries.Keys;
      while remaining != {}
        invariant remaining <= entries.Keys
        invariant forall e :: e in entries && e !in remaining ==> entries[e].user.id != userId
        decreases remaining
      {
        var e :| e in remaining;
        if entries[e].user.id == userId {
          return Some(e);
        }
        remaining := remaining - {e};
      }
      return None;
    }

    /**
     * `mockLogin`: fails unless the password stored under the email matches;
     * on success the stored identity gets `lastLogin := now`, is written back
     * under the same email with the same password, and is returned.
     */
    method Login(credentials: LoginCredentials, now: string) returns (r: Result<AuthUser, AuthError>)
      requires Valid()
      modifies this
      ensures Valid()
      ensures r.Failure? <==> !old(Accepts(credentials))
      ensures r.Failure? ==> r.error == InvalidCredentials && entries == old(entries)
      ensures r.Success? ==>
                && r.value == old(entries)[credentials.email].user.(lastLogin := now)
                && entries == old(entries)[credentials.email := DirectoryEntry(r.value, old(entries)[credentials.email].password)]
    {
      if credentials.email !in entries || entries[credentials.email].password != credentials.password {
        return Failure(InvalidCredentials);
      }
      var record := entries[credentials.email];
      var updatedUser := record.user.(lastLogin := now);
      entries := entries[credentials.email := record.(user := updatedUser)];
      r := Success(updatedUser);
      SameIdReplacementKeepsIdsUnique(old(entries), credentials.email, updatedUser);
    }

    /**
     * `mockUpdateProfile`: fails when no record has identity id `userId`;
     * otherwise that record's identity becomes the merged one (id pinned),
     * under the same email and with the same password, and is returned.
     */
    method UpdateProfile(userId: string, updates: ProfileUpdate) returns (r: Result<AuthUser, AuthError>)
      requires Valid()
      modifies this
      ensures Valid()
      ensures entries.Keys == old(entries).Keys
      ensures r.Failure? <==> forall e :: e in old(entries) ==> old(entries)[e].user.id != userId
      ensures r.Failure? ==> r.error == UserNotFound && entries == old(entries)
      ensures r.Success? ==> r.value.id == userId
      ensures r.Success? ==>
                exists e :: && e in old(entries) && old(entries)[e].user.id == userId
                            && r.value == ApplyProfileUpdate(old(entries)[e].user, updates, userId)
                            && entries == old(entries)[e := DirectoryEntry(r.value, old(entries)[e].password)]
    {
      var found := FindById(userId);
      if found.None? {
        return Failure(UserNotFound);
      }
      var email := found.value;
      var record := entries[email];
      var updatedUser := ApplyProfileUpdate(record.user, updates, userId);
      entries := entries[email := record.(user := updatedUser)];
      r := Success(updatedUser);
      SameIdReplacementKeepsIdsUnique(old(entries), email, updatedUser);
    }
  }

  /** Replacing a record's identity by one with the same id keeps ids unique. */
  lemma SameIdReplacementKeepsIdsUnique(entries: map<string, DirectoryEntry>, email: string, u: AuthUser)
    requires UniqueIds(entries)
    requires email in entries && entries[email].user.id == u.id
    ensures UniqueIds(entries[email := entries[email].(user := u)])
  {
  }

  /** The storage key of the session. */
  const SessionKey: string := "auth-user"

  /**
   * A stored string: either the serialization of an identity, or text that does
   * not parse as one (including the empty string).
   */
  datatype StoredItem = Serialized(user: AuthUser) | Unparsable(text: string)

  /** Browser-local storage as seen by the session functions. */
  class SessionStore {
    var items: map<string, StoredItem>

    constructor (initial: map<string, StoredItem>)
      ensures items == initial
    {
      items := initial;
    }

    /** `getUserSession`: the stored identity, or none when the key is missing or does not parse. */
    function Get(): (r: Option<AuthUser>)
      reads this
      ensures r.Some? <==> SessionKey in items && items[SessionKey].Serialized?
      ensures r.Some? ==> r.value == items[SessionKey].user
    {
      if SessionKey in items then
        match items[SessionKey]
        case Serialized(u) => Some(u)
        case Unparsable(_) => None
      else
        None
    }

    /** `saveUserSession`: stores the identity under the session key; reading it back yields it. */
    method Save(user: AuthUser)
      modifies this
      ensures items == old(items)[SessionKey := Serialized(user)]
      ensures Get() == Some(user)
    {
      items := items[SessionKey := Serialized(user)];
    }

    /** `clearUserSession`: removes the session key; reading afterwards yields nothing. */
    method Clear()
      modifies this
      ensures items == old(items) - {SessionKey}
      ensures Get() == None
    {
      items := items - {SessionKey};
    }
  }

  /** `mockLogout`: removes the session key; the directory is not touched. */
  method Logout(store: SessionStore)
    modifies store
    ensures store.items == old(store.items) - {SessionKey}
    ensures store.Get() == None
  {
    store.Clear();
  }

  /** One demo account of the login screen's hint list. */
  datatype DemoAccount = DemoAccount(email: string, password: string, caption: string)

  /** `getDemoAccounts`, keyed by the role each account demonstrates. */
  datatype DemoAccounts = DemoAccounts(admin: DemoAccount, manager: DemoAccount, user: DemoAccount, viewer: DemoAccount)

  function GetDemoAccounts(): (r: DemoAccounts)
    ensures |{r.admin.email, r.manager.email, r.user.email, r.viewer.email}| == 4
  {
    DemoAccounts(
      DemoAccount("robert.brown@company.com", "admin123", "Admin (Full Access)"),
      DemoAccount("jane.smith@company.com", "manager123", "Manager (Manage Assets & Users)"),
      DemoAccount("john.doe@company.com", "user123", "User (Add/Edit Assets)"),
      DemoAccount("alice.johnson@company.com", "viewer123", "Viewer (Read Only)"))
  }

  /**
   * The demo account for the `user` role is captioned as able to add and edit
   * assets, but the permission check refuses both asset views to every user
   * with that role.
   */
  lemma DemoUserCaptionContradictsPermissions(u: AuthUser)
    requires u.role == RoleUser
    ensures GetDemoAccounts().user.caption == "User (Add/Edit Assets)"
    ensures !Access.HasPermission("add", u) && !Access.HasPermission("edit-asset", u)
  {
  }
}
