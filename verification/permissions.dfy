/** The fixed permission catalogue and the role-to-permission table. A
    permission is the string the policies are registered under; a role is
    the role name the identity store returns for a user. */
module Permissions {

  // Order permissions
  const OrdersCreate: string := "orders.create"
  const OrdersViewOwn: string := "orders.view_own"
  const OrdersViewAll: string := "orders.view_all"
  const OrdersEdit: string := "orders.edit"
  const OrdersDelete: string := "orders.delete"

  // Shop permissions
  const ShopsAdd: string := "shops.add"
  const ShopsView: string := "shops.view"
  const ShopsEdit: string := "shops.edit"
  const ShopsDelete: string := "shops.delete"

  // Product permissions
  const ProductsCreate: string := "products.create"
  const ProductsView: string := "products.view"
  const ProductsEdit: string := "products.edit"
  const ProductsDelete: string := "products.delete"

  // Payment permissions
  const PaymentsCreate: string := "payments.create"
  const PaymentsView: string := "payments.view"
  const PaymentsEdit: string := "payments.edit"
  const PaymentsDelete: string := "payments.delete"

  // Return permissions
  const ReturnsCreate: string := "returns.create"
  const ReturnsView: string := "returns.view"
  const ReturnsEdit: string := "returns.edit"
  const ReturnsDelete: string := "returns.delete"

  // Admin permissions
  const AdminFullAccess: string := "admin.full_access"
  const AdminUserManagement: string := "admin.user_management"
  const AdminDashboard: string := "admin.dashboard"

  /** Every declared permission, in declaration order. */
  const AllPermissions: seq<string> := [
    OrdersCreate, OrdersViewOwn, OrdersViewAll, OrdersEdit, OrdersDelete,
    ShopsAdd, ShopsView, ShopsEdit, ShopsDelete,
    ProductsCreate, ProductsView, ProductsEdit, ProductsDelete,
    PaymentsCreate, PaymentsView, PaymentsEdit, PaymentsDelete,
    ReturnsCreate, ReturnsView, ReturnsEdit, ReturnsDelete,
    AdminFullAccess, AdminUserManagement, AdminDashboard
  ]

  const AdminRole: string := "Admin"
  const UserRole: string := "User"

  /** The list the table holds for the Admin role. */
  const AdminPermissions: seq<string> := [
    OrdersCreate, OrdersViewOwn, OrdersViewAll, OrdersEdit, OrdersDelete,
    ShopsAdd, ShopsView, ShopsEdit, ShopsDelete,
    ProductsCreate, ProductsView, ProductsEdit, ProductsDelete,
    PaymentsCreate, PaymentsView, PaymentsEdit, PaymentsDelete,
    ReturnsCreate, ReturnsView, ReturnsEdit, ReturnsDelete,
    AdminFullAccess, AdminUserManagement, AdminDashboard
  ]

  /** The list the table holds for the User role. */
  const UserPermissions: seq<string> := [OrdersCreate, OrdersViewOwn, ShopsAdd, ShopsView]

  const RolePermissions: map<string, seq<string>> := map[
    AdminRole := AdminPermissions,
    UserRole := UserPermissions
  ]

  /** The permission list of a role; roles the table does not name get the
      empty list. Whatever the role, only declared permissions come back. */
  function GetPermissionsForRole(role: string): (r: seq<string>)
    ensures forall p :: p in r ==> p in AllPermissions
    ensures role != AdminRole && role != UserRole ==> r == []
  {
    if role in RolePermissions then RolePermissions[role] else []
  }

  /** The Admin list holds exactly the declared permissions. */
  lemma AdminHoldsEveryPermission()
    ensures forall p :: p in GetPermissionsForRole(AdminRole) <==> p in AllPermissions
    ensures |GetPermissionsForRole(AdminRole)| == 24
  {
  }

  /** The User list is exactly {orders.create, orders.view_own, shops.add,
      shops.view}. */
  lemma UserPermissionsExactly()
    ensures forall p :: p in GetPermissionsForRole(UserRole) <==>
      p == "orders.create" || p == "orders.view_own" || p == "shops.add" || p == "shops.view"
  {
  }

  /** Every User permission is also an Admin permission, and the User role
      can neither edit orders nor see other representatives' orders. */
  lemma UserWithinAdmin()
    ensures forall p :: p in GetPermissionsForRole(UserRole) ==> p in GetPermissionsForRole(AdminRole)
    ensures OrdersEdit !in GetPermissionsForRole(UserRole)
    ensures OrdersViewAll !in GetPermissionsForRole(UserRole)
  {
  }

  /** The 24 permission strings are pairwise distinct. */
  lemma PermissionNamesDistinct()
    ensures |AllPermissions| == 24
    ensures forall i, j :: 0 <= i < j < |AllPermissions| ==> AllPermissions[i] != AllPermissions[j]
  {
  }
}
