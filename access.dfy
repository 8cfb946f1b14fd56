/** Role-based permissions: the fixed role-to-permission table, the permission
    checks the pages use, and the menu keys a role may see. */
module Access {
  import opened Text
  import opened Lists

  datatype Role = Admin | Manager | Staff | Viewer

  /** `ROLE_PERMISSIONS` */
  function RolePermissions(r: Role): seq<string> {
    match r
    case Admin => ["all"]
    case Manager => ManagerSales + ManagerFlows + ManagerTools
    case Staff => [
      "dashboard", "pos", "orders",
      "products.view", "products.create", "products.update",
      "purchase.view", "purchase.create", "export.view", "export.create",
      "returns.view", "returns.create", "combos.view", "combos.create",
      "fee-calculator"]
    case Viewer => [
      "dashboard", "products.view", "purchase.view", "export.view", "returns.view",
      "refunds.view", "stock-balance.view", "history"]
  }

  /** The manager's list, in its source order, cut into three parts. */
  const ManagerSales: seq<string> := [
    "dashboard", "pos", "orders",
    "products.view", "products.create", "products.update", "products.delete",
    "purchase.view", "purchase.create", "purchase.update", "purchase.delete"]
  const ManagerFlows: seq<string> := [
    "export.view", "export.create", "returns.view", "returns.create",
    "refunds.view", "refunds.create", "ecommerce-export.view", "ecommerce-export.create"]
  const ManagerTools: seq<string> := [
    "stock-balance.view", "combos.view", "combos.create", "combos.update", "combos.delete",
    "fee-calculator", "reports", "history"]

  /** The menu keys shown to a role holding 'all'. */
  const AdminMenu: seq<string> := [
    "dashboard", "pos", "orders", "fee-calculator", "products", "purchase", "export",
    "returns", "refunds", "ecommerce-export", "stock-balance", "combos", "reports",
    "history", "permissions", "settings"]

  /** `hasPermission(role, permission)`; `None` is an undefined role. */
  function HasPermission(role: Option<Role>, p: string): (r: bool)
    ensures role.None? ==> !r
    ensures role == Some(Admin) ==> r
    ensures role.Some? && role.value != Admin ==> (r <==> p in RolePermissions(role.value))
  {
    if role.None? then false
    else
      OnlyAdminHoldsAll(role.value);
      "all" in RolePermissions(role.value) || p in RolePermissions(role.value)
  }

  /** No permission without a role; every permission for a role holding 'all'; for
      any other role, exactly the permissions its list names. */
  lemma HasPermissionTable(role: Option<Role>, p: string)
    ensures role.None? ==> !HasPermission(role, p)
    ensures role == Some(Admin) ==> HasPermission(role, p)
    ensures role.Some? && role.value != Admin ==> (HasPermission(role, p) <==> p in RolePermissions(role.value))
  {
    if role.Some? && role.value != Admin {
      OnlyAdminHoldsAll(role.value);
    }
  }

  lemma OnlyAdminHoldsAll(r: Role)
    ensures "all" in RolePermissions(r) <==> r == Admin
  {
    var ps := RolePermissions(r);
    if r != Admin {
      forall k | 0 <= k < |ps| ensures ps[k] != "all" {
        assert ps[k][0] != 'a' || |ps[k]| != 3;
      }
    }
  }

  function CanView(role: Option<Role>, m: string): (r: bool)
    ensures role.None? ==> !r
    ensures role == Some(Admin) ==> r
    ensures role.Some? && role.value != Admin ==>
      (r <==> m + ".view" in RolePermissions(role.value) || m in RolePermissions(role.value))
  {
    role.Some? && (HasPermission(role, m + ".view") || HasPermission(role, m))
  }

  function CanCreate(role: Option<Role>, m: string): (r: bool)
    ensures role.None? ==> !r
    ensures role == Some(Admin) ==> r
    ensures role.Some? && role.value != Admin ==> (r <==> m + ".create" in RolePermissions(role.value))
  {
    role.Some? && (HasPermission(role, m + ".create") || HasPermission(role, "all"))
  }

  function CanUpdate(role: Option<Role>, m: string): (r: bool)
    ensures role.None? ==> !r
    ensures role == Some(Admin) ==> r
    ensures role.Some? && role.value != Admin ==> (r <==> m + ".update" in RolePermissions(role.value))
  {
    role.Some? && (HasPermission(role, m + ".update") || HasPermission(role, "all"))
  }

  function CanDelete(role: Option<Role>, m: string): (r: bool)
    ensures role.None? ==> !r
    ensures role == Some(Admin) ==> r
    ensures role.Some? && role.value != Admin ==> (r <==> m + ".delete" in RolePermissions(role.value))
  {
    role.Some? && (HasPermission(role, m + ".delete") || HasPermission(role, "all"))
  }

  /** For a role other than admin the action checks read the table directly: "m.view"
      or the bare m for viewing, "m.create", "m.update", "m.delete" for the rest. */
  lemma ChecksReadTheTable(r: Role, m: string)
    requires r != Admin
    ensures CanView(Some(r), m) <==> (m + ".view" in RolePermissions(r) || m in RolePermissions(r))
    ensures CanCreate(Some(r), m) <==> m + ".create" in RolePermissions(r)
    ensures CanUpdate(Some(r), m) <==> m + ".update" in RolePermissions(r)
    ensures CanDelete(Some(r), m) <==> m + ".delete" in RolePermissions(r)
  {
    OnlyAdminHoldsAll(r);
  }

  /** An admin may do everything; without a role nothing is allowed. */
  lemma AdminAndNobody(m: string)
    ensures CanView(Some(Admin), m) && CanCreate(Some(Admin), m)
    ensures CanUpdate(Some(Admin), m) && CanDelete(Some(Admin), m)
    ensures !CanView(None, m) && !CanCreate(None, m) && !CanUpdate(None, m) && !CanDelete(None, m)
  {
  }

  predicate EndsWith(s: string, suffix: string) {
    |suffix| <= |s| && s[|s| - |suffix|..] == suffix
  }

  /** A viewer holds no ".create" permission, so it can create in no module. */
  lemma ViewerCannotCreate(m: string)
    ensures !CanCreate(Some(Viewer), m)
  {
    OnlyAdminHoldsAll(Viewer);
    var ps := RolePermissions(Viewer);
    var p := m + ".create";
    assert EndsWith(p, ".create") by { assert p[|p| - 7..] == ".create"; }
    forall k | 0 <= k < |ps| ensures !EndsWith(ps[k], ".create") {
      if |ps[k]| >= 7 {
        assert ps[k][|ps[k]| - 7..] != ".create" by {
          assert ps[k][|ps[k]| - 6] != 'c' || ps[k][|ps[k]| - 5] != 'r';
        }
      }
    }
  }

  /** No entry of `ps` begins with the two letters `c0` `c1`. */
  predicate NoneBegins(ps: seq<string>, c0: char, c1: char) {
    forall k :: 0 <= k < |ps| ==> |ps[k]| < 2 || ps[k][0] != c0 || ps[k][1] != c1
  }

  lemma ManagerNoneBegins(c0: char, c1: char)
    requires NoneBegins(ManagerSales, c0, c1) && NoneBegins(ManagerFlows, c0, c1)
    requires NoneBegins(ManagerTools, c0, c1)
    ensures NoneBegins(RolePermissions(Manager), c0, c1)
  {
    var ps := RolePermissions(Manager);
    forall k | 0 <= k < |ps| ensures |ps[k]| < 2 || ps[k][0] != c0 || ps[k][1] != c1 {
      if k < |ManagerSales| {
        assert ps[k] == ManagerSales[k];
      } else if k < |ManagerSales| + |ManagerFlows| {
        assert ps[k] == ManagerFlows[k - |ManagerSales|];
      } else {
        assert ps[k] == ManagerTools[k - |ManagerSales| - |ManagerFlows|];
      }
    }
  }

  /** A manager does not see the settings screen. */
  lemma ManagerCannotViewSettings()
    ensures !CanView(Some(Manager), "settings")
  {
    OnlyAdminHoldsAll(Manager);
    assert NoneBegins(ManagerSales, 's', 'e');
    assert NoneBegins(ManagerFlows, 's', 'e');
    assert NoneBegins(ManagerTools, 's', 'e');
    ManagerNoneBegins('s', 'e');
    assert ("settings" + ".view")[1] == 'e';
  }

  /** A manager does not see the permissions screen. */
  lemma ManagerCannotViewPermissions()
    ensures !CanView(Some(Manager), "permissions")
  {
    OnlyAdminHoldsAll(Manager);
    assert NoneBegins(ManagerSales, 'p', 'e');
    assert NoneBegins(ManagerFlows, 'p', 'e');
    assert NoneBegins(ManagerTools, 'p', 'e');
    ManagerNoneBegins('p', 'e');
    assert ("permissions" + ".view")[1] == 'e';
  }

  /** `permission.split('.')[0]` */
  function BaseModule(p: string): string {
    Split(p, '.')[0]
  }

  /** The base modules of the permissions, in order, skipping 'all'. Defined on the
      last element so that it follows the `forEach`. */
  function BaseModules(ps: seq<string>): seq<string>
    decreases |ps|
  {
    if ps == [] then []
    else
      var init := BaseModules(ps[..|ps| - 1]);
      if ps[|ps| - 1] == "all" then init else init + [BaseModule(ps[|ps| - 1])]
  }

  /** `getAccessibleMenuKeys` */
  function MenuKeys(role: Option<Role>): (keys: seq<string>)
    ensures role.None? ==> keys == []
    ensures role == Some(Admin) ==> keys == AdminMenu
    ensures role.Some? && role.value != Admin ==> MenuOf(RolePermissions(role.value), keys)
  {
    if role.None? then []
    else
      OnlyAdminHoldsAll(role.value);
      MenuOfPermissions(RolePermissions(role.value))
  }

  /** The menu keys of a permission list: the fixed admin menu when it holds 'all',
      otherwise its distinct base modules. */
  function MenuOfPermissions(ps: seq<string>): (keys: seq<string>)
    ensures "all" in ps ==> keys == AdminMenu
    ensures "all" !in ps ==> MenuOf(ps, keys)
  {
    if "all" in ps then AdminMenu
    else
      MenuOfList(ps);
      Distinct(BaseModules(ps))
  }

  /** The menu keys of a role other than admin are the distinct base modules of its
      permissions: each appears once, and each base module appears. */
  lemma MenuKeysOfRole(r: Role)
    requires r != Admin
    ensures MenuKeys(Some(r)) == Distinct(BaseModules(RolePermissions(r)))
    ensures MenuOf(RolePermissions(r), MenuKeys(Some(r)))
  {
    OnlyAdminHoldsAll(r);
    MenuOfList(RolePermissions(r));
  }

  /** `keys` lists each base module of `ps` exactly once and nothing else. */
  predicate MenuOf(ps: seq<string>, keys: seq<string>) {
    (forall a, b :: 0 <= a < b < |keys| ==> keys[a] != keys[b]) &&
    (forall k :: 0 <= k < |ps| ==> BaseModule(ps[k]) in keys) &&
    (forall k :: 0 <= k < |keys| ==> exists j :: 0 <= j < |ps| && BaseModule(ps[j]) == keys[k])
  }

  lemma MenuOfList(ps: seq<string>)
    requires "all" !in ps
    ensures MenuOf(ps, Distinct(BaseModules(ps)))
  {
    BaseModulesAre(ps);
    var keys := Distinct(BaseModules(ps));
    forall k | 0 <= k < |keys|
      ensures exists j :: 0 <= j < |ps| && BaseModule(ps[j]) == keys[k]
    {
      var j :| 0 <= j < |BaseModules(ps)| && BaseModules(ps)[j] == keys[k];
      assert BaseModule(ps[j]) == keys[k];
    }
  }

  /** Without 'all' in the list, BaseModules is the element-wise base module. */
  lemma {:induction false} BaseModulesAre(ps: seq<string>)
    requires "all" !in ps
    ensures |BaseModules(ps)| == |ps|
    ensures forall k :: 0 <= k < |ps| ==> BaseModules(ps)[k] == BaseModule(ps[k])
  {
    if ps != [] {
      var init := ps[..|ps| - 1];
      assert forall k :: 0 <= k < |init| ==> init[k] == ps[k];
      BaseModulesAre(init);
    }
  }

  /** The menu for an admin is the fixed list of sixteen keys. */
  lemma AdminMenuIsFixed()
    ensures MenuKeys(Some(Admin)) == AdminMenu && |AdminMenu| == 16
  {
  }

  /** `getAccessibleMenuKeys` as the program runs it: a `forEach` that pushes each
      base module not already collected. */
  method AccessibleMenuKeys(role: Option<Role>) returns (keys: seq<string>)
    ensures keys == MenuKeys(role)
  {
    if role.None? {
      return [];
    }
    var ps := RolePermissions(role.value);
    if "all" in ps {
      return AdminMenu;
    }
    keys := [];
    var i := 0;
    while i < |ps|
      invariant 0 <= i <= |ps|
      invariant keys == Distinct(BaseModules(ps[..i]))
    {
      assert ps[..i + 1][..i] == ps[..i];
      if ps[i] != "all" {
        var base := BaseModule(ps[i]);
        if base !in keys {
          keys := keys + [base];
        }
        assert BaseModules(ps[..i + 1]) == BaseModules(ps[..i]) + [base];
      }
      i := i + 1;
    }
    assert ps[..i] == ps;
  }
}
