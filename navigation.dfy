/** The role-driven menu and badge of components/Navigation.tsx. */
module Navigation {
  import opened AuthTypes
  import Access

  /** A menu entry: the view it opens and its caption (the icon is presentation only). */
  datatype NavItem = NavItem(id: string, caption: string)

  datatype BadgeVariant = Default | Secondary | Outline

  /** The view ids of a menu, in menu order. */
  function Ids(items: seq<NavItem>): (ids: seq<string>)
    ensures |ids| == |items|
    ensures forall k :: 0 <= k < |items| ==> ids[k] == items[k].id
    decreases |items|
  {
    if items == [] then [] else [items[0].id] + Ids(items[1..])
  }

  /**
   * The menu for a role: administrators and managers get the full menu,
   * viewers and every other role only the dashboard and the asset list.
   */
  function AvailableViews(role: string): (views: seq<NavItem>)
    ensures role == RoleAdmin || role == RoleManager ==>
              Ids(views) == ["dashboard", "assets", "users", "reports", "add"]
    ensures role != RoleAdmin && role != RoleManager ==> Ids(views) == ["dashboard", "assets"]
    ensures views[0].caption == "Dashboard"
    ensures role == RoleAdmin || role == RoleManager ==>
              views[1].caption == "Asset List" && views[2].caption == "User Management"
              && views[3].caption == "Reports" && views[4].caption == "Add Asset"
    ensures role == RoleViewer ==> views[1].caption == "Assets"
    ensures role !in {RoleAdmin, RoleManager, RoleViewer} ==> views[1].caption == "My Assets"
  {
    var baseViews := [NavItem("dashboard", "Dashboard"), NavItem("assets", "My Assets")];
    if role == RoleAdmin || role == RoleManager then
      [NavItem("dashboard", "Dashboard"), NavItem("assets", "Asset List"),
       NavItem("users", "User Management"), NavItem("reports", "Reports"),
       NavItem("add", "Add Asset")]
    else if role == RoleViewer then
      [NavItem("dashboard", "Dashboard"), NavItem("assets", "Assets")]
    else
      baseViews
  }

  /**
   * The menu never offers a view the router would refuse: every entry shown to
   * a user passes the permission check for that same user.
   */
  lemma MenuOffersOnlyPermittedViews(user: AuthUser)
    ensures forall item :: item in AvailableViews(user.role) ==> Access.HasPermission(item.id, user)
  {
  }

  /**
   * The first character of each name (none for an empty name), upper-cased.
   * Upper-casing is a parameter: `toUpperCase` is taken one character at a time.
   */
  function Initials(firstName: string, lastName: string, upper: char -> char): (r: string)
    ensures |r| == (if |firstName| > 0 then 1 else 0) + (if |lastName| > 0 then 1 else 0)
    ensures |firstName| > 0 ==> r[0] == upper(firstName[0])
    ensures |lastName| > 0 ==> r[|r| - 1] == upper(lastName[0])
  {
    var first := if |firstName| > 0 then [upper(firstName[0])] else [];
    var last := if |lastName| > 0 then [upper(lastName[0])] else [];
    first + last
  }

  /** The badge style: filled for administrators, secondary for managers, outlined for all others. */
  function RoleBadgeVariant(role: string): (v: BadgeVariant)
    ensures v == Default <==> role == RoleAdmin
    ensures v == Secondary <==> role == RoleManager
    ensures v == Outline <==> role != RoleAdmin && role != RoleManager
  {
    match role
    case "admin" => Default
    case "manager" => Secondary
    case "user" => Outline
    case "viewer" => Outline
    case _ => Outline
  }

  /** The shown role name: the four known roles get a proper name, any other role string is shown as is. */
  function RoleDisplayName(role: string): (name: string)
    ensures role == RoleAdmin ==> name == "Administrator"
    ensures role == RoleManager ==> name == "Manager"
    ensures role == RoleUser ==> name == "User"
    ensures role == RoleViewer ==> name == "Viewer"
    ensures role !in {RoleAdmin, RoleManager, RoleUser, RoleViewer} ==> name == role
  {
    match role
    case "admin" => "Administrator"
    case "manager" => "Manager"
    case "user" => "User"
    case "viewer" => "Viewer"
    case _ => role
  }

  /**
   * The shown name does not identify the role: a raw role string spelled like
   * the shown name of a known role is displayed exactly like that role.
   */
  lemma ShownNameCollides(role: string)
    requires role in {"Administrator", "Manager", "User", "Viewer"}
    ensures exists known :: known in {RoleAdmin, RoleManager, RoleUser, RoleViewer}
                            && known != role && RoleDisplayName(known) == RoleDisplayName(role)
  {
    var known := if role == "Administrator" then RoleAdmin
                 else if role == "Manager" then RoleManager
                 else if role == "User" then RoleUser
                 else RoleViewer;
    assert RoleDisplayName(known) == RoleDisplayName(role);
  }

  /**
   * A non-outlined badge marks exactly the roles that get the full menu, and
   * exactly the roles the permission check lets into the restricted views.
   */
  lemma BadgeMarksPrivilegedRoles(user: AuthUser)
    ensures RoleBadgeVariant(user.role) != Outline <==> |AvailableViews(user.role)| == 5
    ensures RoleBadgeVariant(user.role) != Outline <==>
              forall v :: v in Access.RestrictedViews ==> Access.HasPermission(v, user)
  {
  }
}
