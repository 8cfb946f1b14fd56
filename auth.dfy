/** Signing in: the stored user accounts, the start-up step that makes sure an
    active admin exists, and login and logout of the session user. The
    browser's stored user list is a field; `createdAt` times are parameters. */
module Auth {
  import opened Lists
  import Access

  /** A stored account, password included. */
  datatype Account = Account(
    id: int,
    username: string,
    fullName: string,
    email: string,
    role: Access.Role,
    isActive: bool,
    password: string,
    createdAt: string)

  /** The signed-in user: the account without its password. */
  datatype SessionUser = SessionUser(
    id: int,
    username: string,
    fullName: string,
    email: string,
    role: Access.Role,
    isActive: bool,
    createdAt: string)

  /** The stored `users` entry: absent or empty, text that does not parse
      as a user list, or the parsed list. */
  datatype Stored = NoUsers | Corrupt | Users(list: seq<Account>)

  /** The built-in admin account, created at `now`. */
  function DefaultAdmin(now: string): Account {
    Account(1, "admin", "Quản trị viên", "admin@example.com", Access.Admin, true, "admin", now)
  }

  function Ids(users: seq<Account>): (r: seq<int>)
    ensures |r| == |users| && forall k :: 0 <= k < |users| ==> r[k] == users[k].id
  {
    seq(|users|, k requires 0 <= k < |users| => users[k].id)
  }

  predicate UniqueIds(users: seq<Account>) {
    forall i, j :: 0 <= i < j < |users| ==> users[i].id != users[j].id
  }

  predicate IsActiveAdmin(u: Account) {
    u.role == Access.Admin && u.isActive
  }

  /** `users.some(u => u.role === 'admin' && u.isActive)` */
  predicate HasActiveAdmin(users: seq<Account>) {
    exists k :: 0 <= k < |users| && IsActiveAdmin(users[k])
  }

  // ---------------------------------------------------------------- start-up

  /** The list `ensureAdminExists` leaves stored: the default admin alone
      when nothing is stored or the text is corrupt; the list unchanged when
      it has an active admin; otherwise the list with the default admin
      appended under the next id. */
  function EnsureAdmin(stored: Stored, now: string): (r: seq<Account>)
    ensures !stored.Users? ==> r == [DefaultAdmin(now)]
    ensures stored.Users? && HasActiveAdmin(stored.list) ==> r == stored.list
    ensures stored.Users? && !HasActiveAdmin(stored.list) ==>
      r == stored.list + [DefaultAdmin(now).(id := NextId(Ids(stored.list)))]
  {
    match stored
    case NoUsers => [DefaultAdmin(now)]
    case Corrupt => [DefaultAdmin(now)]
    case Users(users) =>
      if HasActiveAdmin(users) then users
      else users + [DefaultAdmin(now).(id := NextId(Ids(users)))]
  }

  /** After start-up an active admin exists, and ids that were unique stay
      unique. */
  lemma EnsureAdminKeeps(stored: Stored, now: string)
    ensures HasActiveAdmin(EnsureAdmin(stored, now))
    ensures stored.Users? && UniqueIds(stored.list) ==> UniqueIds(EnsureAdmin(stored, now))
  {
    var r := EnsureAdmin(stored, now);
    if stored.Users? && !HasActiveAdmin(stored.list) {
      var users := stored.list;
      assert IsActiveAdmin(r[|users|]);
      if UniqueIds(users) {
        forall i, j | 0 <= i < j < |r| ensures r[i].id != r[j].id {
          if j == |users| {
            assert r[i].id == Ids(users)[i];
          } else {
            assert r[i] == users[i] && r[j] == users[j];
          }
        }
      }
    } else {
      assert IsActiveAdmin(r[0]) || HasActiveAdmin(stored.list);
    }
  }

  // ---------------------------------------------------------------- login

  /** `users.find(u => u.username === username && u.isActive)`, as an index. */
  function FirstActive(users: seq<Account>, username: string): (i: int)
    ensures -1 <= i < |users|
    ensures i >= 0 ==> users[i].username == username && users[i].isActive
    ensures forall k :: 0 <= k < |users| && (i == -1 || k < i) ==> !(users[k].username == username && users[k].isActive)
  {
    if users == [] then -1
    else
      var i := FirstActive(users[..|users| - 1], username);
      var last := users[|users| - 1];
      if i >= 0 then i
      else if last.username == username && last.isActive then |users| - 1
      else -1
  }

  /** The account without its password. */
  function WithoutPassword(u: Account): SessionUser {
    SessionUser(u.id, u.username, u.fullName, u.email, u.role, u.isActive, u.createdAt)
  }

  /** `login`: the session user, or None when nothing usable is stored, no
      active account has the username, or the first such account's password
      differs. */
  function Login(stored: Stored, username: string, password: string): (r: Option<SessionUser>)
    ensures r.Some? <==>
      stored.Users? && FirstActive(stored.list, username) >= 0 &&
      stored.list[FirstActive(stored.list, username)].password == password
  {
    if !stored.Users? then None
    else
      var i := FirstActive(stored.list, username);
      if i < 0 then None
      else if stored.list[i].password != password then None
      else Some(WithoutPassword(stored.list[i]))
  }

  /** A successful login signs in an active account with that username and
      password, and no earlier account is active under that username. */
  lemma LoginFindsAccount(stored: Stored, username: string, password: string)
    requires Login(stored, username, password).Some?
    ensures var u := Login(stored, username, password).value;
      exists k :: 0 <= k < |stored.list| &&
        stored.list[k].username == username && stored.list[k].isActive &&
        stored.list[k].password == password && u == WithoutPassword(stored.list[k]) &&
        forall j :: 0 <= j < k ==> !(stored.list[j].username == username && stored.list[j].isActive)
  {
    var k := FirstActive(stored.list, username);
    assert stored.list[k].username == username;
  }

  /** An account that is not active never signs in, whatever its password. */
  lemma InactiveNeverLogsIn(stored: Stored, username: string, password: string)
    requires stored.Users?
    requires forall k :: 0 <= k < |stored.list| && stored.list[k].username == username ==> !stored.list[k].isActive
    ensures Login(stored, username, password).None?
  {
  }

  /** After start-up on an empty or corrupt store, the built-in admin signs
      in with the built-in password. */
  lemma DefaultAdminLogsIn(stored: Stored, now: string, username: string, password: string)
    requires !stored.Users?
    requires username == "admin" && password == "admin"
    ensures var u := Login(Users(EnsureAdmin(stored, now)), username, password);
      u.Some? && u.value.role == Access.Admin && u.value.id == 1
  {
    var users := EnsureAdmin(stored, now);
    assert users[..0] == [];
    assert FirstActive(users, username) == 0;
  }

  // ---------------------------------------------------------------- context

  /** The stored accounts and the signed-in user. */
  class AuthContext {
    var stored: Stored
    var user: Option<SessionUser>

    /** The stored list as loaded, and the session user restored when the
        session holds one. */
    constructor(loaded: Stored, session: Option<SessionUser>)
      ensures stored == loaded && user == session
    {
      stored := loaded;
      user := session;
    }

    /** `ensureAdminExists` at start-up: writes the default admin over an
        empty or corrupt store, or pushes it onto a list without an active
        admin. */
    method EnsureAdminExists(now: string)
      modifies this
      ensures stored == Users(EnsureAdmin(old(stored), now))
      ensures HasActiveAdmin(stored.list)
      ensures user == old(user)
    {
      EnsureAdminKeeps(stored, now);
      if !stored.Users? {
        stored := Users([DefaultAdmin(now)]);
        return;
      }
      var users := stored.list;
      if !HasActiveAdmin(users) {
        var maxId := if |users| > 0 then Max(Ids(users)) else 0;
        var newAdmin := DefaultAdmin(now).(id := maxId + 1);
        users := users + [newAdmin];
        stored := Users(users);
      }
    }

    /** `isAuthenticated` */
    function IsAuthenticated(): (b: bool)
      reads this
      ensures b <==> user.Some?
    {
      user.Some?
    }

    /** `login`: signs in on success and changes nothing otherwise. */
    method SignIn(username: string, password: string) returns (ok: bool)
      modifies this
      ensures var r := Login(old(stored), username, password);
        ok == r.Some? && user == (if ok then r else old(user))
      ensures stored == old(stored)
    {
      var r := Login(stored, username, password);
      ok := r.Some?;
      if ok {
        user := r;
      }
    }

    /** `logout` */
    method SignOut()
      modifies this
      ensures user == None && !IsAuthenticated()
      ensures stored == old(stored)
    {
      user := None;
    }
  }
}
