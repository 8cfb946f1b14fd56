/** The user administration page: creating, editing and deleting accounts,
    switching them on and off, and changing passwords, over the stored
    account list. The page's guards are meant to keep an active admin. */
module UserAdmin {
  import opened Lists
  import opened Auth
  import Access

  /** `ROLES[role].label`, which a new account takes as its full name. */
  function RoleLabel(role: Access.Role): (name: string)
    ensures name != ""
    ensures name == "Quản trị viên" <==> role == Access.Admin
  {
    match role
    case Admin => "Quản trị viên"
    case Manager => "Quản lý"
    case Staff => "Nhân viên"
    case Viewer => "Chỉ xem"
  }

  function IsAdmin(u: Account): bool {
    u.role == Access.Admin
  }

  function ActiveAdmin(u: Account): bool {
    IsActiveAdmin(u)
  }

  /** `users.filter(u => u.role === 'admin').length` */
  function AdminCount(users: seq<Account>): nat {
    |Filter(users, IsAdmin)|
  }

  /** `users.filter(u => u.role === 'admin' && u.isActive).length` */
  function ActiveAdminCount(users: seq<Account>): nat {
    |Filter(users, ActiveAdmin)|
  }

  /** With unique ids and at least two active admins, some active admin
      other than a given account of the list exists. */
  lemma OtherActiveAdmin(users: seq<Account>, target: Account)
    requires UniqueIds(users) && target in users
    requires ActiveAdminCount(users) >= 2
    ensures exists k :: 0 <= k < |users| && IsActiveAdmin(users[k]) && users[k].id != target.id
  {
    var j :| 0 <= j < |users| && users[j] == target;
    FilterHasOther(users, ActiveAdmin, j);
    var k :| 0 <= k < |users| && k != j && ActiveAdmin(users[k]);
    assert users[k].id != users[j].id;
  }

  /** A list holding an active admin has one. */
  lemma ActiveAdminIn(users: seq<Account>, a: Account)
    requires a in users && IsActiveAdmin(a)
    ensures HasActiveAdmin(users)
  {
    var i :| 0 <= i < |users| && users[i] == a;
  }

  // ---------------------------------------------------------------- delete

  /** `users.filter(u => u.id !== id)` */
  function WithoutId(users: seq<Account>, id: int): (r: seq<Account>)
    ensures forall u :: u in r <==> u in users && u.id != id
  {
    Filter(users, (u: Account) => u.id != id)
  }

  /** `handleDelete` as written: refused when the account is an admin and
      exactly one account is an admin, active or not. */
  function DeleteAsWritten(users: seq<Account>, target: Account): (r: Option<seq<Account>>)
    ensures r.None? <==> IsAdmin(target) && AdminCount(users) == 1
    ensures r.Some? ==> forall u :: u in r.value <==> u in users && u.id != target.id
  {
    if IsAdmin(target) && AdminCount(users) == 1 then None
    else Some(WithoutId(users, target.id))
  }

  /** The delete as written removes the only active admin when an inactive
      admin also exists. */
  lemma DeleteAsWrittenDropsLastActiveAdmin(a: Account, b: Account)
    requires a.id == 1 && a.role == Access.Admin && a.isActive
    requires b.id == 2 && b.role == Access.Admin && !b.isActive
    ensures HasActiveAdmin([a, b]) && UniqueIds([a, b])
    ensures var r := DeleteAsWritten([a, b], a);
      r.Some? && !HasActiveAdmin(r.value)
  {
    var users := [a, b];
    BothAdmins(a, b);
    assert IsActiveAdmin(users[0]);
    var r := DeleteAsWritten(users, a).value;
    forall u | u in r ensures !IsActiveAdmin(u) {
      assert u == a || u == b;
    }
  }

  lemma BothAdmins(a: Account, b: Account)
    requires IsAdmin(a) && IsAdmin(b)
    ensures Filter([a, b], IsAdmin) == [a, b]
  {
    assert [a, b][..1] == [a];
    assert [a][..0] == [];
  }

  /** `handleDelete` with the guard it evidently means: refused only when
      the account is the one active admin. */
  function DeleteUser(users: seq<Account>, target: Account): (r: Option<seq<Account>>)
    ensures r.None? <==> IsActiveAdmin(target) && ActiveAdminCount(users) == 1
    ensures r.Some? ==> forall u :: u in r.value <==> u in users && u.id != target.id
  {
    if IsActiveAdmin(target) && ActiveAdminCount(users) == 1 then None
    else Some(WithoutId(users, target.id))
  }

  /** A delete the guard lets through never removes the last active admin. */
  lemma DeleteKeepsActiveAdmin(users: seq<Account>, target: Account)
    requires UniqueIds(users) && target in users && HasActiveAdmin(users)
    requires DeleteUser(users, target).Some?
    ensures HasActiveAdmin(DeleteUser(users, target).value)
  {
    var r := DeleteUser(users, target).value;
    var k: int;
    if IsActiveAdmin(target) {
      assert target in Filter(users, ActiveAdmin);
      assert ActiveAdminCount(users) >= 2;
      OtherActiveAdmin(users, target);
      k :| 0 <= k < |users| && IsActiveAdmin(users[k]) && users[k].id != target.id;
    } else {
      k :| 0 <= k < |users| && IsActiveAdmin(users[k]);
      var j :| 0 <= j < |users| && users[j] == target;
      assert users[k].id != target.id by {
        assert k != j;
      }
    }
    assert users[k] in r;
    ActiveAdminIn(r, users[k]);
  }

  /** Deleting keeps ids unique. */
  lemma DeleteKeepsUniqueIds(users: seq<Account>, target: Account)
    requires UniqueIds(users)
    requires DeleteUser(users, target).Some?
    ensures UniqueIds(DeleteUser(users, target).value)
  {
    FilterUniqueIds(users, (u: Account) => u.id != target.id);
  }

  /** Filtering keeps ids unique. */
  lemma {:induction false} FilterUniqueIds(users: seq<Account>, p: Account -> bool)
    requires UniqueIds(users)
    ensures UniqueIds(Filter(users, p))
  {
    if users != [] {
      var init := users[..|users| - 1];
      var last := users[|users| - 1];
      assert UniqueIds(init);
      FilterUniqueIds(init, p);
      if p(last) {
        var f := Filter(init, p);
        assert Filter(users, p) == f + [last];
        forall i | 0 <= i < |f| ensures f[i].id != last.id {
          assert f[i] in init;
          var k :| 0 <= k < |init| && init[k] == f[i];
          assert users[k] == f[i];
        }
      }
    }
  }

  // ---------------------------------------------------------------- toggle

  /** `users.map(u => u.id === id ? { ...u, isActive: !u.isActive } : u)` */
  function FlipActive(users: seq<Account>, id: int): (r: seq<Account>)
    ensures |r| == |users|
    ensures forall k :: 0 <= k < |users| && users[k].id != id ==> r[k] == users[k]
    ensures forall k :: 0 <= k < |users| && users[k].id == id ==>
      r[k] == users[k].(isActive := !users[k].isActive)
  {
    seq(|users|, k requires 0 <= k < |users| =>
      if users[k].id == id then users[k].(isActive := !users[k].isActive) else users[k])
  }

  /** `handleToggleActive` as written: refused for any admin while exactly
      one admin is active, whether or not this admin is that one. */
  function ToggleAsWritten(users: seq<Account>, target: Account): (r: Option<seq<Account>>)
    ensures r.None? <==> IsAdmin(target) && ActiveAdminCount(users) == 1
    ensures r.Some? ==> r.value == FlipActive(users, target.id)
  {
    if IsAdmin(target) && ActiveAdminCount(users) == 1 then None
    else Some(FlipActive(users, target.id))
  }

  /** As written, a switched-off admin cannot be switched back on while
      another admin is the one active admin. */
  lemma ToggleAsWrittenBlocksReactivation(a: Account, b: Account)
    requires a.id == 1 && a.role == Access.Admin && a.isActive
    requires b.id == 2 && b.role == Access.Admin && !b.isActive
    ensures ToggleAsWritten([a, b], b).None?
  {
    var users := [a, b];
    assert Filter(users, ActiveAdmin) == Filter([a], ActiveAdmin) by {
      assert users[..1] == [a];
    }
    assert Filter([a], ActiveAdmin) == [a] by {
      assert [a][..0] == [];
    }
  }

  /** `handleToggleActive` with the guard it evidently means: refused only
      when switching off the one active admin. */
  function ToggleActive(users: seq<Account>, target: Account): (r: Option<seq<Account>>)
    ensures r.None? <==> IsActiveAdmin(target) && ActiveAdminCount(users) == 1
    ensures r.Some? ==> r.value == FlipActive(users, target.id)
  {
    if IsActiveAdmin(target) && ActiveAdminCount(users) == 1 then None
    else Some(FlipActive(users, target.id))
  }

  /** Switching an account on is never refused. */
  lemma ActivatingIsAllowed(users: seq<Account>, target: Account)
    requires !target.isActive
    ensures ToggleActive(users, target).Some?
  {
  }

  /** A toggle the guard lets through never leaves the list without an
      active admin. */
  lemma ToggleKeepsActiveAdmin(users: seq<Account>, target: Account)
    requires UniqueIds(users) && target in users && HasActiveAdmin(users)
    requires ToggleActive(users, target).Some?
    ensures HasActiveAdmin(ToggleActive(users, target).value)
  {
    var r := ToggleActive(users, target).value;
    var k: int;
    if IsActiveAdmin(target) {
      assert target in Filter(users, ActiveAdmin);
      OtherActiveAdmin(users, target);
      k :| 0 <= k < |users| && IsActiveAdmin(users[k]) && users[k].id != target.id;
    } else {
      k :| 0 <= k < |users| && IsActiveAdmin(users[k]);
      var j :| 0 <= j < |users| && users[j] == target;
      assert users[k].id != target.id by {
        assert k != j;
      }
    }
    assert IsActiveAdmin(r[k]);
  }

  // ---------------------------------------------------------------- create and edit

  /** The account `handleSubmit` creates: the next id, the role's label as
      full name, no email, active. */
  function NewUser(users: seq<Account>, username: string, role: Access.Role, password: string, now: string): (u: Account)
    ensures forall k :: 0 <= k < |users| ==> users[k].id < u.id
    ensures u.isActive && u.fullName == RoleLabel(role) && u.role == role
    ensures u.username == username && u.password == password && u.email == ""
  {
    Account(NextId(Ids(users)), username, RoleLabel(role), "", role, true, password, now)
  }

  /** Creating appends the new account; ids stay unique and an active
      admin stays. */
  lemma CreateKeeps(users: seq<Account>, username: string, role: Access.Role, password: string, now: string)
    requires UniqueIds(users)
    ensures var r := users + [NewUser(users, username, role, password, now)];
      UniqueIds(r) && (HasActiveAdmin(users) ==> HasActiveAdmin(r))
  {
    var r := users + [NewUser(users, username, role, password, now)];
    if HasActiveAdmin(users) {
      var k :| 0 <= k < |users| && IsActiveAdmin(users[k]);
      assert r[k] == users[k];
    }
    forall i, j | 0 <= i < j < |r| ensures r[i].id != r[j].id {
      if j < |users| {
        assert r[i] == users[i] && r[j] == users[j];
      } else {
        assert r[i] == users[i];
      }
    }
  }

  /** `{ ...u, ...values }` for the edit form's fields, username and role. */
  function EditUser(users: seq<Account>, id: int, username: string, role: Access.Role): (r: seq<Account>)
    ensures |r| == |users|
    ensures forall k :: 0 <= k < |users| && users[k].id != id ==> r[k] == users[k]
    ensures forall k :: 0 <= k < |users| && users[k].id == id ==>
      r[k] == users[k].(username := username, role := role)
  {
    seq(|users|, k requires 0 <= k < |users| =>
      if users[k].id == id then users[k].(username := username, role := role) else users[k])
  }

  // ---------------------------------------------------------------- password

  /** `users.map(u => u.id === id ? { ...u, password } : u)` */
  function SetPassword(users: seq<Account>, id: int, password: string): (r: seq<Account>)
    ensures |r| == |users|
    ensures forall k :: 0 <= k < |users| && users[k].id != id ==> r[k] == users[k]
    ensures forall k :: 0 <= k < |users| && users[k].id == id ==> r[k] == users[k].(password := password)
  {
    seq(|users|, k requires 0 <= k < |users| =>
      if users[k].id == id then users[k].(password := password) else users[k])
  }

  /** Changing a password leaves every account's sign-in name and active flag
      as they were, so the same account is found at sign-in. */
  lemma {:induction false} SetPasswordKeepsFirstActive(users: seq<Account>, id: int, password: string, username: string)
    ensures FirstActive(SetPassword(users, id, password), username) == FirstActive(users, username)
  {
    if users != [] {
      var init := users[..|users| - 1];
      assert SetPassword(users, id, password)[..|users| - 1] == SetPassword(init, id, password);
      SetPasswordKeepsFirstActive(init, id, password, username);
    }
  }

  /** After a password change, the account signs in with the new password
      whenever it is the first active account with its username. */
  lemma PasswordChangeTakesEffect(users: seq<Account>, j: int, password: string)
    requires 0 <= j < |users| && FirstActive(users, users[j].username) == j
    ensures var r := Login(Users(SetPassword(users, users[j].id, password)), users[j].username, password);
      r.Some? && r.value.id == users[j].id
  {
    SetPasswordKeepsFirstActive(users, users[j].id, password, users[j].username);
  }

  // ---------------------------------------------------------------- page

  /** The page's account list, saved to storage on every change. */
  class UsersPage {
    var users: seq<Account>

    constructor(loaded: seq<Account>)
      ensures users == loaded
    {
      users := loaded;
    }

    /** `handleDelete` (corrected guard); returns whether it deleted. */
    method Delete(target: Account) returns (deleted: bool)
      modifies this
      ensures var r := DeleteUser(old(users), target);
        deleted == r.Some? && users == (if deleted then r.value else old(users))
    {
      var r := DeleteUser(users, target);
      deleted := r.Some?;
      if deleted {
        users := r.value;
      }
    }

    /** `handleToggleActive` (corrected guard); returns whether it switched. */
    method Toggle(target: Account) returns (switched: bool)
      modifies this
      ensures var r := ToggleActive(old(users), target);
        switched == r.Some? && users == (if switched then r.value else old(users))
    {
      var r := ToggleActive(users, target);
      switched := r.Some?;
      if switched {
        users := r.value;
      }
    }

    /** `handleSubmit` for a new account: appended at the end. */
    method Create(username: string, role: Access.Role, password: string, now: string)
      modifies this
      ensures users == old(users) + [NewUser(old(users), username, role, password, now)]
    {
      users := users + [NewUser(users, username, role, password, now)];
    }

    /** `handleSubmit` for an edited account. */
    method Edit(id: int, username: string, role: Access.Role)
      modifies this
      ensures users == EditUser(old(users), id, username, role)
    {
      users := EditUser(users, id, username, role);
    }

    /** `handlePasswordSubmit` */
    method ChangePassword(id: int, password: string)
      modifies this
      ensures users == SetPassword(old(users), id, password)
    {
      users := SetPassword(users, id, password);
    }
  }
}
