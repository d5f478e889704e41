/** Role-based permissions of src/lib/permissions.ts. */
module Permissions {
  import opened Wrappers
  import opened JsObject

  /** The three roles of `UserRole`, plus `UnknownRole` for a value outside
      the type reaching the functions at run time, which the optional
      chaining in `hasPermission` and the `default` of `getDashboardRoute`
      handle. */
  datatype Role = Buyer | Seller | Admin | UnknownRole

  datatype Permission =
    | UseTools | ManageProfile | PurchaseCredits
    | SellKits | ManageKits | ViewAnalytics
    | AccessAdmin | ManageUsers | ManageContent | ViewAllData

  /** `ROLE_PERMISSIONS`; None where the record has no entry. */
  function RolePermissions(role: Role): Option<seq<Permission>> {
    match role
    case Buyer => Some([UseTools, ManageProfile, PurchaseCredits])
    case Seller => Some([UseTools, ManageProfile, PurchaseCredits, SellKits, ManageKits, ViewAnalytics])
    case Admin => Some([UseTools, ManageProfile, PurchaseCredits, SellKits, ManageKits, ViewAnalytics,
                        AccessAdmin, ManageUsers, ManageContent, ViewAllData])
    case UnknownRole => None
  }

  /** `ROLE_PERMISSIONS[role]?.includes(permission) || false`. */
  predicate HasPermission(role: Role, p: Permission) {
    match RolePermissions(role)
    case Some(ps) => p in ps
    case None => false
  }

  /** `permissions.some(...)`. */
  function HasAnyPermission(role: Role, ps: seq<Permission>): (r: bool)
    ensures r <==> exists i :: 0 <= i < |ps| && HasPermission(role, ps[i])
  {
    if ps == [] then false
    else HasPermission(role, ps[0]) || HasAnyPermission(role, ps[1..])
  }

  /** `permissions.every(...)`. */
  function HasAllPermissions(role: Role, ps: seq<Permission>): (r: bool)
    ensures r <==> forall i :: 0 <= i < |ps| ==> HasPermission(role, ps[i])
  {
    if ps == [] then true
    else HasPermission(role, ps[0]) && HasAllPermissions(role, ps[1..])
  }

  /** An empty list: `some` is false and `every` is true, for every role. */
  lemma EmptyPermissionLists(role: Role)
    ensures !HasAnyPermission(role, []) && HasAllPermissions(role, [])
  {
  }

  /** Each role has every permission of the role below it, and strictly more;
      the administrator has every permission; an unknown role has none. */
  lemma RolesAreNested(p: Permission)
    ensures HasPermission(Buyer, p) ==> HasPermission(Seller, p)
    ensures HasPermission(Seller, p) ==> HasPermission(Admin, p)
    ensures HasPermission(Admin, p)
    ensures !HasPermission(UnknownRole, p)
    ensures !HasPermission(Buyer, SellKits) && !HasPermission(Seller, AccessAdmin)
  {
  }

  /** `every` over a list implies `some` over it when it is not empty. */
  lemma AllImpliesAny(role: Role, ps: seq<Permission>)
    requires ps != [] && HasAllPermissions(role, ps)
    ensures HasAnyPermission(role, ps)
  {
    assert HasPermission(role, ps[0]);
  }

  /** `getDashboardRoute`. */
  function DashboardRoute(role: Role): string {
    match role
    case Admin => "/admin/dashboard"
    case Seller => "/seller/dashboard"
    case _ => "/my/dashboard"
  }

  /** Each of the three fixed routes belongs to exactly the roles the
      switch sends there: only an administrator reaches the admin route. */
  lemma DashboardRoutes(role: Role)
    ensures DashboardRoute(role) == "/admin/dashboard" <==> role == Admin
    ensures DashboardRoute(role) == "/seller/dashboard" <==> role == Seller
    ensures DashboardRoute(role) == "/my/dashboard" <==> role == Buyer || role == UnknownRole
    ensures DashboardRoute(role) == "/admin/dashboard" <==> HasPermission(role, AccessAdmin)
  {
  }

  /** `SERVICE_PERMISSIONS[serviceName]`. */
  function ServicePermission(serviceName: string): Option<Permission> {
    match serviceName
    case "blog-generator" => Some(UseTools)
    case "qr-generator" => Some(UseTools)
    case "image-finder" => Some(UseTools)
    case "report-generator" => Some(UseTools)
    case "kit-upload" => Some(SellKits)
    case "kit-management" => Some(ManageKits)
    case "admin-panel" => Some(AccessAdmin)
    case _ => None
  }

  /** `canAccessService`. An inherited member such as `constructor` is a
      truthy function: the service counts as guarded, and no role's list
      includes a function, so every role is refused. */
  function CanAccessService(role: Role, serviceName: string): (r: bool)
    ensures IsInheritedKey(serviceName) ==> !r
    ensures !IsInheritedKey(serviceName) && ServicePermission(serviceName).None? ==> r
    ensures ServicePermission(serviceName).Some? ==> (r <==> HasPermission(role, ServicePermission(serviceName).value))
  {
    if IsInheritedKey(serviceName) then false
    else
      match ServicePermission(serviceName)
      case None => true
      case Some(p) => HasPermission(role, p)
  }

  /** A service without a listed permission is open to everyone, even an
      unknown role, unless its name is an inherited member, which shuts
      everyone out; the listed services follow the role nesting, and an
      administrator reaches every service but the inherited names. */
  lemma ServiceAccess(role: Role, serviceName: string)
    ensures ServicePermission(serviceName).None? && !IsInheritedKey(serviceName) ==> CanAccessService(role, serviceName)
    ensures CanAccessService(Buyer, serviceName) ==> CanAccessService(Seller, serviceName)
    ensures CanAccessService(Seller, serviceName) ==> CanAccessService(Admin, serviceName)
    ensures CanAccessService(Admin, serviceName) <==> !IsInheritedKey(serviceName)
    ensures CanAccessService(Buyer, "qr-generator") && !CanAccessService(Buyer, "kit-upload")
    ensures !CanAccessService(Seller, "admin-panel") && CanAccessService(UnknownRole, "pricing")
    ensures !CanAccessService(Admin, "constructor")
  {
    if ServicePermission(serviceName).Some? {
      RolesAreNested(ServicePermission(serviceName).value);
    }
  }
}
