/** The two role checks of App.tsx: which assets a user sees, and which views a user may open. */
module Access {
  import opened AuthTypes
  import opened AssetTypes
  import Seqs

  /** Views reserved for administrators and managers (user management and reports). */
  const AdminOnlyViews: seq<string> := ["users", "add-user", "edit-user", "reports"]

  /** Asset-editing views, also reserved for administrators and managers. */
  const AdminManagerViews: seq<string> := ["add", "edit-asset"]

  /** Every view the permission table restricts. */
  const RestrictedViews: set<string> := {"users", "add-user", "edit-user", "reports", "add", "edit-asset"}

  /** Roles that see the whole asset collection. */
  predicate SeesAllAssets(role: string)
  {
    role == RoleAdmin || role == RoleManager || role == RoleViewer
  }

  /** Selects the assets assigned to the given employee. */
  function AssignedTo(employeeId: string): Asset -> bool
  {
    (a: Asset) => a.assignedTo == employeeId
  }

  /**
   * The assets `user` may see. Administrators, managers and viewers see all of
   * them; any other role sees exactly the assets assigned to its employee id.
   */
  function FilteredAssets(assets: seq<Asset>, user: AuthUser): (r: seq<Asset>)
    ensures SeesAllAssets(user.role) ==> r == assets
    ensures !SeesAllAssets(user.role) ==>
              forall a :: a in r <==> a in assets && a.assignedTo == user.employeeId
  {
    if user.role == RoleAdmin || user.role == RoleManager then
      assets
    else if user.role == RoleViewer then
      assets
    else
      Seqs.Filter(assets, AssignedTo(user.employeeId))
  }

  /**
   * For a role that does not see everything, the visible assets are the
   * subsequence of the collection at exactly the positions assigned to the
   * user, in their original order.
   */
  lemma FilteredAssetsInOrder(assets: seq<Asset>, user: AuthUser)
    requires !SeesAllAssets(user.role)
    ensures exists idx :: Seqs.Selects(assets, AssignedTo(user.employeeId), FilteredAssets(assets, user), idx)
  {
    Seqs.FilterSelects(assets, AssignedTo(user.employeeId));
    assert FilteredAssets(assets, user) == Seqs.Filter(assets, AssignedTo(user.employeeId));
  }

  /**
   * Whether `user` may open `view`: the restricted views need an administrator
   * or a manager, every other view string is open to all.
   */
  function HasPermission(view: string, user: AuthUser): (r: bool)
    ensures r <==> view !in RestrictedViews || user.role == RoleAdmin || user.role == RoleManager
  {
    if view in AdminOnlyViews then
      user.role == RoleAdmin || user.role == RoleManager
    else if view in AdminManagerViews then
      user.role == RoleAdmin || user.role == RoleManager
    else
      true
  }
}
