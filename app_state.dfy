/**
 * The state holder of App.tsx: the React state variables become the fields of
 * `App`, each setter a field assignment applied in program order. Clock
 * readings, generated ids and the answer of the confirmation dialog are
 * parameters.
 */
module AppState {
  import opened Wrappers
  import opened AuthTypes
  import opened AssetTypes
  import opened UserTypes
  import opened Access
  import Seqs
  import MockAuth

  class App {
    var assets: seq<Asset>
    var users: seq<User>
    var activeView: string
    var editingAsset: Option<Asset>
    var editingUser: Option<User>
    var authState: AuthState
    var loginError: Option<string>

    /** A user is present exactly when the state says it is authenticated. */
    ghost predicate Valid()
      reads this
    {
      authState.isAuthenticated <==> authState.user.Some?
    }

    /** The initial state: the seed collections, the dashboard, nothing selected, nobody signed in. */
    constructor (seedAssets: seq<Asset>, seedUsers: seq<User>)
      ensures Valid()
      ensures assets == seedAssets && users == seedUsers
      ensures activeView == "dashboard" && editingAsset == None && editingUser == None
      ensures authState == AuthState(None, false) && loginError == None
    {
      assets := seedAssets;
      users := seedUsers;
      activeView := "dashboard";
      editingAsset := None;
      editingUser := None;
      authState := AuthState(None, false);
      loginError := None;
    }

    /** The start-up effect: a stored session signs its user in; otherwise the state stays as it is. */
    method RestoreSession(store: MockAuth.SessionStore)
      requires Valid()
      modifies this`authState
      ensures Valid()
      ensures store.Get().Some? ==> authState == AuthState(store.Get(), true)
      ensures store.Get().None? ==> authState == old(authState)
    {
      var storedUser := store.Get();
      if storedUser.Some? {
        authState := AuthState(storedUser, true);
      }
    }

    /**
     * `handleLogin`: on accepted credentials the refreshed identity is saved
     * as the session and signed in; otherwise the error message is shown and
     * the session, the directory and the signed-in user stay as they were.
     */
    method HandleLogin(directory: MockAuth.Directory, store: MockAuth.SessionStore,
                       credentials: LoginCredentials, now: string)
      requires Valid() && directory.Valid()
      modifies this`authState, this`loginError, directory, store
      ensures Valid() && directory.Valid()
      ensures old(directory.Accepts(credentials)) ==>
                && var signedIn := old(directory.entries)[credentials.email].user.(lastLogin := now);
                && authState == AuthState(Some(signedIn), true)
                && store.items == old(store.items)[MockAuth.SessionKey := MockAuth.Serialized(signedIn)]
                && store.Get() == Some(signedIn)
                && loginError == None
                && directory.entries == old(directory.entries)[credentials.email :=
                     MockAuth.DirectoryEntry(signedIn, old(directory.entries)[credentials.email].password)]
      ensures !old(directory.Accepts(credentials)) ==>
                && authState == old(authState)
                && store.items == old(store.items)
                && directory.entries == old(directory.entries)
                && loginError == Some(MockAuth.AuthError.InvalidCredentials.Message())
    {
      loginError := None;
      var result := directory.Login(credentials, now);
      match result
      case Success(user) =>
        store.Save(user);
        authState := AuthState(Some(user), true);
      case Failure(error) =>
        loginError := Some(error.Message());
    }

    /**
     * `handleLogout`: the session key is removed and the state returns to the
     * dashboard with nobody signed in and nothing selected.
     */
    method HandleLogout(store: MockAuth.SessionStore)
      modifies this`authState, this`activeView, this`editingAsset, this`editingUser, store
      ensures Valid()
      ensures store.items == old(store.items) - {MockAuth.SessionKey} && store.Get() == None
      ensures authState == AuthState(None, false)
      ensures activeView == "dashboard" && editingAsset == None && editingUser == None
    {
      MockAuth.Logout(store);
      store.Clear();
      authState := AuthState(None, false);
      activeView := "dashboard";
      editingAsset := None;
      editingUser := None;
    }

    /**
     * `handleUpdateProfile`: without a signed-in user nothing happens. Otherwise
     * the directory record with the user's id is updated; on success the
     * result is saved as the session and becomes the signed-in user (same id),
     * on failure the error is returned and nothing else changes.
     */
    method HandleUpdateProfile(directory: MockAuth.Directory, store: MockAuth.SessionStore,
                               updates: MockAuth.ProfileUpdate) returns (error: Option<MockAuth.AuthError>)
      requires Valid() && directory.Valid()
      modifies this`authState, directory, store
      ensures Valid() && directory.Valid()
      ensures old(authState.user).None? ==>
                error == None && authState == old(authState)
                && directory.entries == old(directory.entries) && store.items == old(store.items)
      ensures old(authState.user).Some? ==>
                && var id := old(authState.user).value.id;
                && (error.Some? <==> forall e :: e in old(directory.entries) ==> old(directory.entries)[e].user.id != id)
                && (error.Some? ==>
                      error.value == MockAuth.AuthError.UserNotFound && authState == old(authState)
                      && directory.entries == old(directory.entries) && store.items == old(store.items))
                && (error.None? ==>
                      authState.isAuthenticated && authState.user.Some?
                      && authState.user.value.id == id
                      && store.items == old(store.items)[MockAuth.SessionKey := MockAuth.Serialized(authState.user.value)]
                      && store.Get() == authState.user
                      && exists e :: && e in old(directory.entries) && old(directory.entries)[e].user.id == id
                                    && authState.user.value == MockAuth.ApplyProfileUpdate(old(directory.entries)[e].user, updates, id)
                                    && directory.entries == old(directory.entries)[e :=
                                         MockAuth.DirectoryEntry(authState.user.value, old(directory.entries)[e].password)])
    {
      if authState.user.None? {
        return None;
      }
      var result := directory.UpdateProfile(authState.user.value.id, updates);
      match result
      case Success(updatedUser) =>
        store.Save(updatedUser);
        authState := authState.(user := Some(updatedUser));
        error := None;
      case Failure(e) =>
        error := Some(e);
    }

    /** `handleAddAsset`: appends the new asset at the end and opens the asset list. */
    method HandleAddAsset(form: AssetFormData, newId: string, now: string)
      modifies this`assets, this`activeView
      ensures assets == old(assets) + [NewAsset(form, newId, now)]
      ensures activeView == "assets"
    {
      assets := assets + [NewAsset(form, newId, now)];
      activeView := "assets";
    }

    /**
     * `handleEditAsset`: with an asset selected, every asset carrying the
     * selected id takes the form's fields and `updatedAt := now` (keeping its id
     * and creation time), the others stay in place; the selection is cleared and
     * the asset list opens. Without a selection nothing changes.
     */
    method HandleEditAsset(form: AssetFormData, now: string)
      modifies this`assets, this`editingAsset, this`activeView
      ensures old(editingAsset).None? ==> unchanged(this)
      ensures old(editingAsset).Some? ==>
                && var selected := old(editingAsset).value.id;
                && |assets| == |old(assets)|
                && (forall i :: 0 <= i < |assets| && old(assets)[i].id != selected ==> assets[i] == old(assets)[i])
                && (forall i :: 0 <= i < |assets| && old(assets)[i].id == selected ==>
                      assets[i] == EditedAsset(old(assets)[i], form, now))
                && editingAsset == None && activeView == "assets"
    {
      if editingAsset.Some? {
        var selected := editingAsset.value.id;
        assets := Seqs.MapWhere(assets, AssetTypes.WithId(selected), (a: Asset) => EditedAsset(a, form, now));
        editingAsset := None;
        activeView := "assets";
      }
    }

    /**
     * `handleDeleteAsset`: when confirmed, exactly the assets with a different id
     * remain, in their original order; otherwise, or when no asset has that id,
     * the collection is unchanged.
     */
    method HandleDeleteAsset(assetId: string, confirmed: bool)
      modifies this`assets
      ensures !confirmed ==> assets == old(assets)
      ensures (forall a :: a in old(assets) ==> a.id != assetId) ==> assets == old(assets)
      ensures confirmed ==> forall a :: a in assets <==> a in old(assets) && a.id != assetId
      ensures confirmed ==> exists idx :: Seqs.Selects(old(assets), AssetTypes.WithoutId(assetId), assets, idx)
    {
      if confirmed {
        Seqs.FilterSelects(assets, AssetTypes.WithoutId(assetId));
        if forall a :: a in assets ==> a.id != assetId {
          Seqs.FilterKeepsAll(assets, AssetTypes.WithoutId(assetId));
        }
        assets := Seqs.Filter(assets, AssetTypes.WithoutId(assetId));
      }
    }

    /** `handleAddUser`: appends the new user (no last login yet) and opens the user list. */
    method HandleAddUser(form: UserFormData, newId: string, now: string)
      modifies this`users, this`activeView
      ensures users == old(users) + [NewUser(form, newId, now)]
      ensures activeView == "users"
    {
      users := users + [NewUser(form, newId, now)];
      activeView := "users";
    }

    /**
     * `handleEditUser`: as for assets, and the edited users also keep their
     * last login; the user list opens. Without a selection nothing changes.
     */
    method HandleEditUser(form: UserFormData, now: string)
      modifies this`users, this`editingUser, this`activeView
      ensures old(editingUser).None? ==> unchanged(this)
      ensures old(editingUser).Some? ==>
                && var selected := old(editingUser).value.id;
                && |users| == |old(users)|
                && (forall i :: 0 <= i < |users| && old(users)[i].id != selected ==> users[i] == old(users)[i])
                && (forall i :: 0 <= i < |users| && old(users)[i].id == selected ==>
                      users[i] == EditedUser(old(users)[i], form, now))
                && editingUser == None && activeView == "users"
    {
      if editingUser.Some? {
        var selected := editingUser.value.id;
        users := Seqs.MapWhere(users, UserTypes.WithId(selected), (u: User) => EditedUser(u, form, now));
        editingUser := None;
        activeView := "users";
      }
    }

    /** `handleDeleteUser`: the user-collection counterpart of HandleDeleteAsset. */
    method HandleDeleteUser(userId: string, confirmed: bool)
      modifies this`users
      ensures !confirmed ==> users == old(users)
      ensures (forall u :: u in old(users) ==> u.id != userId) ==> users == old(users)
      ensures confirmed ==> forall u :: u in users <==> u in old(users) && u.id != userId
      ensures confirmed ==> exists idx :: Seqs.Selects(old(users), UserTypes.WithoutId(userId), users, idx)
    {
      if confirmed {
        Seqs.FilterSelects(users, UserTypes.WithoutId(userId));
        if forall u :: u in users ==> u.id != userId {
          Seqs.FilterKeepsAll(users, UserTypes.WithoutId(userId));
        }
        users := Seqs.Filter(users, UserTypes.WithoutId(userId));
      }
    }

    /**
     * `handleViewChange`: refused (no change at all) without a signed-in user or
     * when the user lacks permission; otherwise the view switches, and leaving
     * for anything but an edit view drops both selections.
     */
    method HandleViewChange(view: string)
      modifies this`activeView, this`editingAsset, this`editingUser
      ensures authState.user.None? || !HasPermission(view, authState.user.value) ==> unchanged(this)
      ensures authState.user.Some? && HasPermission(view, authState.user.value) ==>
                && activeView == view
                && (view != "edit-asset" && view != "edit-user" ==> editingAsset == None && editingUser == None)
                && (view == "edit-asset" || view == "edit-user" ==>
                      editingAsset == old(editingAsset) && editingUser == old(editingUser))
    {
      if authState.user.None? || !HasPermission(view, authState.user.value) {
        return;
      }
      activeView := view;
      if view != "edit-asset" && view != "edit-user" {
        editingAsset := None;
        editingUser := None;
      }
    }

    /** `handleEditAssetClick`: a permitted user selects the asset and opens the asset editor. */
    method HandleEditAssetClick(asset: Asset)
      modifies this`editingAsset, this`activeView
      ensures authState.user.None? || !HasPermission("edit-asset", authState.user.value) ==> unchanged(this)
      ensures authState.user.Some? && HasPermission("edit-asset", authState.user.value) ==>
                editingAsset == Some(asset) && activeView == "edit-asset"
    {
      if authState.user.None? || !HasPermission("edit-asset", authState.user.value) {
        return;
      }
      editingAsset := Some(asset);
      activeView := "edit-asset";
    }

    /** `handleEditUserClick`: a permitted user selects the user and opens the user editor. */
    method HandleEditUserClick(user: User)
      modifies this`editingUser, this`activeView
      ensures authState.user.None? || !HasPermission("edit-user", authState.user.value) ==> unchanged(this)
      ensures authState.user.Some? && HasPermission("edit-user", authState.user.value) ==>
                editingUser == Some(user) && activeView == "edit-user"
    {
      if authState.user.None? || !HasPermission("edit-user", authState.user.value) {
        return;
      }
      editingUser := Some(user);
      activeView := "edit-user";
    }

    /** `handleCancel`: drops both selections and returns to the list that was being edited from. */
    method HandleCancel()
      modifies this`editingAsset, this`editingUser, this`activeView
      ensures editingAsset == None && editingUser == None
      ensures activeView == if old(editingAsset).Some? then "assets" else "users"
    {
      var wasEditingAsset := editingAsset.Some?;
      editingAsset := None;
      editingUser := None;
      activeView := if wasEditingAsset then "assets" else "users";
    }
  }
}
