/**
 * The request guards and the account rules of the HTTP server, as decisions over an
 * accounts table: who may pass, which usernames are free, and which deletions and role
 * changes would leave the system without an administrator.
 */
module UserRules {
  import opened Wrappers
  import opened Seqs

  type UserId = int

  /** A row of the users table, as far as the rules look at it. */
  datatype User = User(id: UserId, username: string, role: string)

  /** The users in `getAllUsers` order, and the next auto-increment id. */
  datatype Accounts = Accounts(users: seq<User>, nextId: int)

  /** The answer of a handler: a value, or an HTTP status with its error text. */
  datatype Reply<T> = Success(value: T) | Failure(status: int, error: string)

  /** A freshly created user and the table that now holds it. */
  datatype Created = Created(accounts: Accounts, user: User)

  predicate UniqueIds(us: seq<User>) {
    forall i, j :: 0 <= i < j < |us| ==> us[i].id != us[j].id
  }

  predicate UniqueUsernames(us: seq<User>) {
    forall i, j :: 0 <= i < j < |us| ==> us[i].username != us[j].username
  }

  /** Ids are positive, distinct and below the next id; usernames are distinct. */
  predicate Valid(a: Accounts) {
    && a.nextId > 0
    && (forall i :: 0 <= i < |a.users| ==> 0 < a.users[i].id < a.nextId)
    && UniqueIds(a.users)
    && UniqueUsernames(a.users)
  }

  /** A session carries a truthy `userId`: present and not 0. */
  predicate SignedIn(session: Option<UserId>) {
    session.Some? && session.value != 0
  }

  predicate IsAdmin(u: User) {
    u.role == "admin"
  }

  /** `users.filter(u => u.role === 'admin').length`. */
  function AdminCount(us: seq<User>): nat {
    |Filter(us, IsAdmin)|
  }

  /** `getUser(id)`: the row with this id. */
  function FindUser(us: seq<User>, id: UserId): (r: Option<User>)
    ensures r.Some? ==> r.value in us && r.value.id == id
    ensures r.None? <==> forall i :: 0 <= i < |us| ==> us[i].id != id
  {
    if us == [] then None
    else if us[0].id == id then Some(us[0])
    else
      var r := FindUser(us[1..], id);
      assert forall i :: 1 <= i < |us| ==> us[i] == us[1..][i - 1];
      r
  }

  /** `getUserByUsername(name)`: the row with exactly this username. */
  function FindByName(us: seq<User>, name: string): (r: Option<User>)
    ensures r.Some? ==> r.value in us && r.value.username == name
    ensures r.None? <==> forall i :: 0 <= i < |us| ==> us[i].username != name
  {
    if us == [] then None
    else if us[0].username == name then Some(us[0])
    else
      var r := FindByName(us[1..], name);
      assert forall i :: 1 <= i < |us| ==> us[i] == us[1..][i - 1];
      r
  }

  /** With distinct ids, the row found for an id is the only row with that id. */
  lemma FindUserUnique(us: seq<User>, id: UserId, i: int)
    requires UniqueIds(us) && 0 <= i < |us| && us[i].id == id
    ensures FindUser(us, id) == Some(us[i])
  {
    var k :| 0 <= k < |us| && us[k] == FindUser(us, id).value;
  }

  /** `requireAuth`: passes exactly the sessions with a truthy user id; all others get 401. */
  function RequireAuth(session: Option<UserId>): (r: Reply<UserId>)
    ensures r.Success? <==> SignedIn(session)
    ensures r.Success? ==> r.value == session.value
    ensures r.Failure? ==> r.status == 401
  {
    if SignedIn(session) then Success(session.value) else Failure(401, "Authentication required")
  }

  /**
   * `requireAdmin`: 401 without a signed-in session, 500 when the lookup throws, 403 unless
   * the stored user exists with role 'admin'; passes with that user otherwise.
   */
  function RequireAdmin(session: Option<UserId>, a: Accounts, lookupFails: bool): (r: Reply<User>)
    ensures !SignedIn(session) ==> r.Failure? && r.status == 401
    ensures SignedIn(session) && lookupFails ==> r.Failure? && r.status == 500
    ensures r.Success? ==> RequireAuth(session) == Success(r.value.id)
    ensures r.Success? ==> r.value in a.users && IsAdmin(r.value)
    ensures SignedIn(session) && !lookupFails && UniqueIds(a.users) ==>
              (r.Success? <==> exists i :: 0 <= i < |a.users| && a.users[i].id == session.value && IsAdmin(a.users[i]))
    ensures SignedIn(session) && !lookupFails && r.Failure? ==> r.status == 403
  {
    if !SignedIn(session) then Failure(401, "Authentication required")
    else if lookupFails then Failure(500, "Failed to verify admin status")
    else
      var found := FindUser(a.users, session.value);
      assert UniqueIds(a.users) ==> forall i :: 0 <= i < |a.users| && a.users[i].id == session.value ==> found == Some(a.users[i]) by {
        if UniqueIds(a.users) {
          forall i | 0 <= i < |a.users| && a.users[i].id == session.value ensures found == Some(a.users[i]) {
            FindUserUnique(a.users, session.value, i);
          }
        }
      }
      if found.Some? && IsAdmin(found.value) then Success(found.value)
      else Failure(403, "Admin access required")
  }

  /** `createUser`: the new row takes the next id. */
  function Insert(a: Accounts, username: string, role: string): (c: Created)
    ensures c.user == User(a.nextId, username, role)
    ensures c.accounts.users == a.users + [c.user]
    ensures Valid(a) && FindByName(a.users, username).None? ==> Valid(c.accounts)
    ensures AdminCount(c.accounts.users) >= AdminCount(a.users)
  {
    var u := User(a.nextId, username, role);
    FilterConcat(a.users, [u], IsAdmin);
    Created(Accounts(a.users + [u], a.nextId + 1), u)
  }

  /**
   * `POST /api/auth/register`: 400 when the username is taken or the insert throws;
   * otherwise one new row with role 'user', whose id the session then carries.
   */
  function Register(a: Accounts, username: string, createFails: bool): (r: Reply<Created>)
    ensures FindByName(a.users, username).Some? ==> r == Failure(400, "Username already exists")
    ensures r.Failure? ==> r.status == 400
    ensures FindByName(a.users, username).None? && !createFails ==> r.Success?
    ensures r.Success? ==>
              && r.value.accounts.users == a.users + [r.value.user]
              && r.value.user.username == username && r.value.user.role == "user"
    ensures r.Success? && Valid(a) ==> Valid(r.value.accounts) && SignedIn(Some(r.value.user.id))
    ensures r.Success? ==> AdminCount(r.value.accounts.users) >= AdminCount(a.users)
  {
    if FindByName(a.users, username).Some? then Failure(400, "Username already exists")
    else if createFails then Failure(400, "Registration failed")
    else Success(Insert(a, username, "user"))
  }

  /** `req.body.role || 'user'`: any non-empty role is taken as given. */
  function RequestedRole(role: Option<string>): string {
    if role.Some? && role.value != "" then role.value else "user"
  }

  /**
   * `POST /api/admin/users`: like register, but the row gets the requested role when one is
   * given, with no check against the list of known roles.
   */
  function AdminCreate(a: Accounts, username: string, role: Option<string>, createFails: bool): (r: Reply<Created>)
    ensures FindByName(a.users, username).Some? ==> r == Failure(400, "Username already exists")
    ensures r.Failure? ==> r.status == 400
    ensures FindByName(a.users, username).None? && !createFails ==> r.Success?
    ensures r.Success? ==>
              && r.value.accounts.users == a.users + [r.value.user]
              && r.value.user.username == username
              && r.value.user.role == (if role.Some? && role.value != "" then role.value else "user")
    ensures r.Success? && Valid(a) ==> Valid(r.value.accounts)
    ensures r.Success? ==> AdminCount(r.value.accounts.users) >= AdminCount(a.users)
  {
    if FindByName(a.users, username).Some? then Failure(400, "Username already exists")
    else if createFails then Failure(400, "User creation failed")
    else Success(Insert(a, username, RequestedRole(role)))
  }

  /** `deleteUser(id)` on the table: every row with this id goes. */
  function RemoveUser(us: seq<User>, id: UserId): (r: seq<User>)
    ensures IsSubsequence(r, us)
    ensures forall i :: 0 <= i < |r| ==> r[i].id != id
    ensures forall i :: 0 <= i < |us| && us[i].id != id ==> us[i] in r
  {
    Filter(us, (u: User) => u.id != id)
  }

  /** Removing one id removes one administrator at most, and none when that row is not one. */
  lemma {:induction false} AdminCountRemove(us: seq<User>, id: UserId)
    requires UniqueIds(us)
    ensures AdminCount(RemoveUser(us, id))
         == AdminCount(us) - (if FindUser(us, id).Some? && IsAdmin(FindUser(us, id).value) then 1 else 0)
  {
    if us != [] {
      var rest := us[1..];
      assert UniqueIds(rest);
      if us[0].id == id {
        assert forall i :: 0 <= i < |rest| ==> rest[i].id != id by {
          forall i | 0 <= i < |rest| ensures rest[i].id != id {
            assert us[0].id != us[i + 1].id;
          }
        }
        assert RemoveUser(rest, id) == rest;
      } else {
        AdminCountRemove(rest, id);
      }
    }
  }

  /** Removing a present id from a valid table keeps it valid, drops one row and at most one administrator. */
  lemma RemoveKeepsValid(a: Accounts, target: UserId)
    requires Valid(a) && FindUser(a.users, target).Some?
    ensures var b := Accounts(RemoveUser(a.users, target), a.nextId);
            && Valid(b) && |b.users| == |a.users| - 1
            && AdminCount(b.users) == AdminCount(a.users) - (if IsAdmin(FindUser(a.users, target).value) then 1 else 0)
  {
    AdminCountRemove(a.users, target);
    RemoveKeepsUnique(a.users, target);
    FilterKeeps(a.users, (u: User) => u.id != target, (u: User) => 0 < u.id < a.nextId);
    assert RemoveUser(a.users, target) == Filter(a.users, (u: User) => u.id != target);
  }

  /**
   * `DELETE /api/admin/users/:id` (the handler that answers): 400 for oneself, 404 for an
   * unknown id, 400 for the only administrator, 500 when the store reports failure;
   * otherwise the row is removed and no administrator-less table can result.
   */
  function DeleteUser(a: Accounts, requester: UserId, target: UserId, deleteOk: bool): (r: Reply<Accounts>)
    ensures target == requester ==> r == Failure(400, "Cannot delete your own account")
    ensures target != requester && FindUser(a.users, target).None? ==> r == Failure(404, "User not found")
    ensures target != requester && FindUser(a.users, target).Some? && IsAdmin(FindUser(a.users, target).value)
            && AdminCount(a.users) <= 1 ==>
              r == Failure(400, "Cannot delete the last admin user")
    ensures r.Success? ==> target != requester && FindUser(a.users, target).Some? && deleteOk
    ensures r.Success? ==>
              && IsSubsequence(r.value.users, a.users)
              && (forall i :: 0 <= i < |r.value.users| ==> r.value.users[i].id != target)
              && (forall i :: 0 <= i < |a.users| && a.users[i].id != target ==> a.users[i] in r.value.users)
    ensures r.Success? && Valid(a) ==> Valid(r.value) && |r.value.users| == |a.users| - 1
    ensures r.Success? && Valid(a) && AdminCount(a.users) >= 1 ==> AdminCount(r.value.users) >= 1
  {
    if target == requester then Failure(400, "Cannot delete your own account")
    else
      match FindUser(a.users, target)
      case None => Failure(404, "User not found")
      case Some(u) =>
        if IsAdmin(u) && AdminCount(a.users) <= 1 then Failure(400, "Cannot delete the last admin user")
        else if !deleteOk then Failure(500, "Failed to delete user")
        else
          var b := Accounts(RemoveUser(a.users, target), a.nextId);
          if Valid(a) then RemoveKeepsValid(a, target); Success(b) else Success(b)
  }

  /** Removing an id from a valid table keeps it valid and drops exactly the one row. */
  lemma {:induction false} RemoveKeepsUnique(us: seq<User>, id: UserId)
    requires UniqueIds(us) && UniqueUsernames(us)
    ensures UniqueIds(RemoveUser(us, id)) && UniqueUsernames(RemoveUser(us, id))
    ensures |RemoveUser(us, id)| == |us| - (if FindUser(us, id).Some? then 1 else 0)
  {
    var p := (u: User) => u.id != id;
    var r := RemoveUser(us, id);
    assert r == Filter(us, p);
    var byId := (u: User) => u.id;
    var byName := (u: User) => u.username;
    assert forall i, j :: 0 <= i < j < |us| ==> byId(us[i]) != byId(us[j]);
    assert forall i, j :: 0 <= i < j < |us| ==> byName(us[i]) != byName(us[j]);
    FilterInjective(us, p, byId);
    FilterInjective(us, p, byName);
    assert forall i, j :: 0 <= i < j < |r| ==> byId(r[i]) != byId(r[j]);
    assert forall i, j :: 0 <= i < j < |r| ==> byName(r[i]) != byName(r[j]);
    RemoveCount(us, id);
  }

  lemma {:induction false} RemoveCount(us: seq<User>, id: UserId)
    requires UniqueIds(us)
    ensures |RemoveUser(us, id)| == |us| - (if FindUser(us, id).Some? then 1 else 0)
  {
    if us != [] {
      var rest := us[1..];
      assert UniqueIds(rest);
      if us[0].id == id {
        assert forall i :: 0 <= i < |rest| ==> rest[i].id != id by {
          forall i | 0 <= i < |rest| ensures rest[i].id != id {
            assert us[0].id != us[i + 1].id;
          }
        }
        assert RemoveUser(rest, id) == rest;
      } else {
        RemoveCount(rest, id);
      }
    }
  }

  /** `updateUserRole(id, role)` on the table. */
  function SetRole(us: seq<User>, id: UserId, role: string): (r: seq<User>)
    ensures |r| == |us|
    ensures forall i :: 0 <= i < |us| ==> r[i] == if us[i].id == id then us[i].(role := role) else us[i]
  {
    if us == [] then []
    else [if us[0].id == id then us[0].(role := role) else us[0]] + SetRole(us[1..], id, role)
  }

  /**
   * A role change adds one administrator when it promotes an existing non-administrator,
   * removes one when it demotes one, and otherwise keeps the count.
   */
  lemma {:induction false} AdminCountSetRole(us: seq<User>, id: UserId, role: string)
    requires UniqueIds(us)
    ensures AdminCount(SetRole(us, id, role))
         == AdminCount(us) - (if FindUser(us, id).Some? && IsAdmin(FindUser(us, id).value) then 1 else 0)
                           + (if FindUser(us, id).Some? && role == "admin" then 1 else 0)
  {
    if us != [] {
      var rest := us[1..];
      var s := SetRole(us, id, role);
      assert s[1..] == SetRole(rest, id, role);
      assert UniqueIds(rest);
      if us[0].id == id {
        assert forall i :: 0 <= i < |rest| ==> rest[i].id != id by {
          forall i | 0 <= i < |rest| ensures rest[i].id != id {
            assert us[0].id != us[i + 1].id;
          }
        }
        assert SetRole(rest, id, role) == rest;
      } else {
        AdminCountSetRole(rest, id, role);
      }
    }
  }

  /** A table with distinct ids still has them after a role change, and the same usernames. */
  lemma SetRoleKeepsValid(a: Accounts, id: UserId, role: string)
    requires Valid(a)
    ensures Valid(Accounts(SetRole(a.users, id, role), a.nextId))
  {
    var b := SetRole(a.users, id, role);
    assert forall i :: 0 <= i < |b| ==> b[i].id == a.users[i].id && b[i].username == a.users[i].username;
  }

  /**
   * `PATCH /api/admin/users/:id/role`: only 'user' and 'admin' are accepted, an administrator
   * cannot demote itself, the only administrator cannot be demoted, and a store that reports
   * failure gives 500. On success the target's role is the requested one and nothing else changes.
   */
  function ChangeRole(a: Accounts, requester: UserId, target: UserId, role: Option<string>, updateOk: bool)
    : (r: Reply<Accounts>)
    ensures role.None? || !(role.value == "user" || role.value == "admin") ==>
              r == Failure(400, "Invalid role. Must be 'user' or 'admin'")
    ensures role == Some("user") && target == requester ==> r == Failure(400, "Cannot change your own admin role")
    ensures role == Some("user") && target != requester && FindUser(a.users, target).Some?
            && IsAdmin(FindUser(a.users, target).value) && AdminCount(a.users) <= 1 ==>
              r == Failure(400, "Cannot demote the last admin user")
    ensures r.Success? ==> role.Some? && (role.value == "user" || role.value == "admin") && updateOk
    ensures r.Success? && target == requester ==> role.value == "admin"
    ensures r.Success? ==>
              && r.value.nextId == a.nextId && |r.value.users| == |a.users|
              && forall i :: 0 <= i < |a.users| ==>
                   r.value.users[i] == if a.users[i].id == target then a.users[i].(role := role.value) else a.users[i]
    ensures r.Success? && Valid(a) ==> Valid(r.value)
    ensures r.Success? && Valid(a) && AdminCount(a.users) >= 1 ==> AdminCount(r.value.users) >= 1
  {
    if role.None? || !(role.value == "user" || role.value == "admin") then Failure(400, "Invalid role. Must be 'user' or 'admin'")
    else if target == requester && role.value != "admin" then Failure(400, "Cannot change your own admin role")
    else
      var found := FindUser(a.users, target);
      if role.value == "user" && found.Some? && IsAdmin(found.value) && AdminCount(a.users) <= 1 then
        Failure(400, "Cannot demote the last admin user")
      else if !updateOk then Failure(500, "Failed to update user role")
      else
        var b := Accounts(SetRole(a.users, target, role.value), a.nextId);
        assert Valid(a) ==> Valid(b) && (AdminCount(a.users) >= 1 ==> AdminCount(b.users) >= 1) by {
          if Valid(a) {
            SetRoleKeepsValid(a, target, role.value);
            AdminCountSetRole(a.users, target, role.value);
          }
        }
        Success(b)
  }

  /** The username part of `updateUserProfile` on the table. */
  function SetUsername(us: seq<User>, id: UserId, name: string): (r: seq<User>)
    ensures |r| == |us|
    ensures forall i :: 0 <= i < |us| ==> r[i] == if us[i].id == id then us[i].(username := name) else us[i]
  {
    if us == [] then []
    else [if us[0].id == id then us[0].(username := name) else us[0]] + SetUsername(us[1..], id, name)
  }

  /** Renaming changes no role, so the administrator count stays. */
  lemma {:induction false} AdminCountSetUsername(us: seq<User>, id: UserId, name: string)
    ensures AdminCount(SetUsername(us, id, name)) == AdminCount(us)
  {
    if us != [] {
      var s := SetUsername(us, id, name);
      assert s[1..] == SetUsername(us[1..], id, name);
      AdminCountSetUsername(us[1..], id, name);
    }
  }

  /** A rename to a name no other row holds keeps a valid table valid. */
  lemma SetUsernameKeepsValid(a: Accounts, id: UserId, name: string)
    requires Valid(a)
    requires forall i :: 0 <= i < |a.users| && a.users[i].username == name ==> a.users[i].id == id
    ensures Valid(Accounts(SetUsername(a.users, id, name), a.nextId))
  {
    var b := SetUsername(a.users, id, name);
    forall i, j | 0 <= i < j < |b| ensures b[i].username != b[j].username {
      if a.users[i].id == id {
        assert a.users[j].id != id;
      } else if a.users[j].id == id {
        assert a.users[i].id != id;
      }
    }
  }

  /** In a valid table, a name that another row holds is not the name of row `existing`. */
  lemma HeldByOther(a: Accounts, existing: User, name: string, i: int)
    requires Valid(a) && existing in a.users
    requires 0 <= i < |a.users| && a.users[i].username == name && a.users[i].id != existing.id
    ensures name != existing.username && FindByName(a.users, name).Some?
  {
    var k :| 0 <= k < |a.users| && a.users[k] == existing;
    assert i != k;
  }

  /** In a valid table, a name that some other row holds is one the profile route refuses. */
  lemma NameClash(a: Accounts, existing: User, name: string)
    requires existing in a.users
    ensures Valid(a) && (exists i :: 0 <= i < |a.users| && a.users[i].username == name && a.users[i].id != existing.id) ==>
              name != existing.username && FindByName(a.users, name).Some?
  {
    if Valid(a) && exists i :: 0 <= i < |a.users| && a.users[i].username == name && a.users[i].id != existing.id {
      var i :| 0 <= i < |a.users| && a.users[i].username == name && a.users[i].id != existing.id;
      HeldByOther(a, existing, name, i);
    }
  }

  /**
   * A rename of row `existing` to its own name or to a name no row holds keeps a valid table
   * valid and keeps the administrator count; the renamed row is still found by its id.
   */
  lemma RenameKeepsValid(a: Accounts, existing: User, name: string)
    requires Valid(a) && existing in a.users
    requires name == existing.username || FindByName(a.users, name).None?
    ensures var us := SetUsername(a.users, existing.id, name);
            && Valid(Accounts(us, a.nextId)) && AdminCount(us) == AdminCount(a.users)
            && FindUser(us, existing.id) == Some(existing.(username := name))
  {
    var id := existing.id;
    forall i | 0 <= i < |a.users| && a.users[i].username == name ensures a.users[i].id == id {
      if a.users[i].id != id {
        HeldByOther(a, existing, name, i);
      }
    }
    SetUsernameKeepsValid(a, id, name);
    AdminCountSetUsername(a.users, id, name);
    var k :| 0 <= k < |a.users| && a.users[k] == existing;
    FindUserUnique(SetUsername(a.users, id, name), id, k);
  }

  /**
   * The table the profile route writes for row `existing`: the new name, and the role from
   * the request body when it carries one. Validity is kept, and the administrator count moves
   * as for a role change.
   */
  lemma ProfileKeepsValid(a: Accounts, existing: User, name: string, role: Option<string>)
    requires Valid(a) && existing in a.users
    requires name == existing.username || FindByName(a.users, name).None?
    ensures var renamed := SetUsername(a.users, existing.id, name);
            var us := if role.Some? then SetRole(renamed, existing.id, role.value) else renamed;
            && Valid(Accounts(us, a.nextId))
            && AdminCount(us) == AdminCount(a.users)
                 - (if role.Some? && IsAdmin(existing) then 1 else 0) + (if role.Some? && role.value == "admin" then 1 else 0)
  {
    RenameKeepsValid(a, existing, name);
    var renamed := SetUsername(a.users, existing.id, name);
    if role.Some? {
      SetRoleKeepsValid(Accounts(renamed, a.nextId), existing.id, role.value);
      AdminCountSetRole(renamed, existing.id, role.value);
    }
  }

  /** Row by row, the profile write renames row `id` and, when a role is given, sets its role. */
  lemma ProfileRows(us: seq<User>, id: UserId, name: string, role: Option<string>)
    ensures var renamed := SetUsername(us, id, name);
            var r := if role.Some? then SetRole(renamed, id, role.value) else renamed;
            && |r| == |us|
            && forall i :: 0 <= i < |us| ==>
                 && r[i].id == us[i].id
                 && (us[i].id != id ==> r[i] == us[i])
                 && (us[i].id == id ==> r[i].role == (if role.Some? then role.value else us[i].role) && r[i].username == name)
  {
    var renamed := SetUsername(us, id, name);
    var r := if role.Some? then SetRole(renamed, id, role.value) else renamed;
    forall i | 0 <= i < |us|
      ensures && r[i].id == us[i].id
              && (us[i].id != id ==> r[i] == us[i])
              && (us[i].id == id ==> r[i].role == (if role.Some? then role.value else us[i].role) && r[i].username == name)
    {
      assert renamed[i] == if us[i].id == id then us[i].(username := name) else us[i];
    }
  }

  /**
   * The table the profile route writes once its checks pass: row `id` takes `name` and, when
   * one is given, `role`.
   */
  function ProfileWrite(a: Accounts, id: UserId, name: string, role: Option<string>): (b: Accounts)
    requires FindUser(a.users, id).Some?
    ensures |b.users| == |a.users| && b.nextId == a.nextId
    ensures forall i :: 0 <= i < |a.users| ==>
              && b.users[i].id == a.users[i].id
              && (a.users[i].id != id ==> b.users[i] == a.users[i])
              && (a.users[i].id == id ==>
                    b.users[i].role == (if role.Some? then role.value else a.users[i].role) && b.users[i].username == name)
    ensures Valid(a) && (name == FindUser(a.users, id).value.username || FindByName(a.users, name).None?) ==>
              && Valid(b)
              && AdminCount(b.users) == AdminCount(a.users)
                   - (if role.Some? && IsAdmin(FindUser(a.users, id).value) then 1 else 0)
                   + (if role.Some? && role.value == "admin" then 1 else 0)
  {
    var named := SetUsername(a.users, id, name);
    var b := Accounts(if role.Some? then SetRole(named, id, role.value) else named, a.nextId);
    ProfileRows(a.users, id, name, role);
    var existing := FindUser(a.users, id).value;
    if Valid(a) && (name == existing.username || FindByName(a.users, name).None?) then
      ProfileKeepsValid(a, existing, name, role); b
    else b
  }

  /**
   * The profile route once row `existing` is found: 400 when a truthy new username differs
   * from the current one and another row holds it, 500 when the store reports failure,
   * otherwise the write of `ProfileWrite`.
   */
  function UpdateFound(a: Accounts, existing: User, username: Option<string>, role: Option<string>, updateOk: bool)
    : (r: Reply<Accounts>)
    requires FindUser(a.users, existing.id) == Some(existing)
    ensures Valid(a) && username.Some? && username.value != ""
            && (exists i :: 0 <= i < |a.users| && a.users[i].username == username.value && a.users[i].id != existing.id) ==>
              r.Failure?
    ensures r.Success? ==> updateOk
    ensures r.Success? ==>
              r.value == ProfileWrite(a, existing.id, if username.Some? && username.value != "" then username.value
                                                      else existing.username, role)
    ensures r.Success? && Valid(a) ==> Valid(r.value)
  {
    var name := if username.Some? && username.value != "" then username.value else existing.username;
    NameClash(a, existing, name);
    if name != existing.username && FindByName(a.users, name).Some? then Failure(400, "Username already exists")
    else if !updateOk then Failure(500, "Failed to update user profile")
    else Success(ProfileWrite(a, existing.id, name, role))
  }

  /**
   * `PATCH /api/admin/users/:id`, as written: 400 for an id that is not a number, 404 for an
   * unknown id, 400 when a truthy new username differs from the current one and another row
   * holds it, 500 when the store reports failure; otherwise the row takes the new username
   * and, when the body carries a role, that role, with none of the checks of the role route.
   */
  function UpdateProfile(a: Accounts, target: Option<UserId>, username: Option<string>, role: Option<string>,
                         updateOk: bool)
    : (r: Reply<Accounts>)
    ensures target.None? ==> r == Failure(400, "Invalid user ID")
    ensures target.Some? && FindUser(a.users, target.value).None? ==> r == Failure(404, "User not found")
    ensures Valid(a) && target.Some? && username.Some? && username.value != ""
            && (exists i :: 0 <= i < |a.users| && a.users[i].username == username.value && a.users[i].id != target.value) ==>
              r.Failure?
    ensures r.Success? ==> target.Some? && FindUser(a.users, target.value).Some? && updateOk
    ensures r.Success? ==>
              && |r.value.users| == |a.users| && r.value.nextId == a.nextId
              && forall i :: 0 <= i < |a.users| ==>
                   && r.value.users[i].id == a.users[i].id
                   && (a.users[i].id != target.value ==> r.value.users[i] == a.users[i])
                   && (a.users[i].id == target.value ==>
                         r.value.users[i].role == if role.Some? then role.value else a.users[i].role)
                   && (a.users[i].id == target.value && username.Some? && username.value != "" ==>
                         r.value.users[i].username == username.value)
    ensures r.Success? && Valid(a) ==> Valid(r.value)
    ensures r.Success? && Valid(a) ==>
              AdminCount(r.value.users) == AdminCount(a.users)
                - (if role.Some? && IsAdmin(FindUser(a.users, target.value).value) then 1 else 0)
                + (if role.Some? && role.value == "admin" then 1 else 0)
  {
    if target.None? then Failure(400, "Invalid user ID")
    else
      match FindUser(a.users, target.value)
      case None => Failure(404, "User not found")
      case Some(existing) => UpdateFound(a, existing, username, role, updateOk)
  }

  /**
   * The profile route lets an administrator demote the only administrator (here itself),
   * which the role route refuses.
   */
  lemma ProfileDemotesLastAdmin()
    ensures var a := Accounts([User(1, "root", "admin"), User(2, "ann", "user")], 3);
            && Valid(a) && AdminCount(a.users) == 1
            && ChangeRole(a, 1, 1, Some("user"), true).Failure?
            && UpdateProfile(a, Some(1), None, Some("user"), true).Success?
            && AdminCount(UpdateProfile(a, Some(1), None, Some("user"), true).value.users) == 0
  {
    var a := Accounts([User(1, "root", "admin"), User(2, "ann", "user")], 3);
    assert Filter(a.users, IsAdmin) == [User(1, "root", "admin")] by {
      assert a.users[1..] == [User(2, "ann", "user")];
    }
    var r := UpdateProfile(a, Some(1), None, Some("user"), true);
    assert r.value.users == [User(1, "root", "user"), User(2, "ann", "user")];
  }

  /**
   * The profile route with the role route's checks applied to a role in the body: only
   * 'user' and 'admin', no self-demotion, no demotion of the only administrator; then as
   * `UpdateProfile`.
   */
  function GuardedUpdateProfile(a: Accounts, requester: UserId, target: Option<UserId>, username: Option<string>,
                                role: Option<string>, updateOk: bool)
    : (r: Reply<Accounts>)
    ensures target.None? ==> r == Failure(400, "Invalid user ID")
    ensures target.Some? && role.Some? && !(role.value == "user" || role.value == "admin") ==>
              r == Failure(400, "Invalid role. Must be 'user' or 'admin'")
    ensures target.Some? && role == Some("user") && target.value == requester ==>
              r == Failure(400, "Cannot change your own admin role")
    ensures target.Some? && role == Some("user") && target.value != requester
            && FindUser(a.users, target.value).Some? && IsAdmin(FindUser(a.users, target.value).value)
            && AdminCount(a.users) <= 1 ==>
              r == Failure(400, "Cannot demote the last admin user")
    ensures r.Success? ==> r == UpdateProfile(a, target, username, role, updateOk)
    ensures r.Success? && Valid(a) ==> Valid(r.value)
    ensures r.Success? && Valid(a) && AdminCount(a.users) >= 1 ==> AdminCount(r.value.users) >= 1
  {
    if target.None? then Failure(400, "Invalid user ID")
    else if role.Some? && !(role.value == "user" || role.value == "admin") then
      Failure(400, "Invalid role. Must be 'user' or 'admin'")
    else if role.Some? && target.value == requester && role.value != "admin" then
      Failure(400, "Cannot change your own admin role")
    else
      var found := FindUser(a.users, target.value);
      if role == Some("user") && found.Some? && IsAdmin(found.value) && AdminCount(a.users) <= 1 then
        Failure(400, "Cannot demote the last admin user")
      else UpdateProfile(a, target, username, role, updateOk)
  }

  /** A request to one of the account routes, with what the store answers. */
  datatype AccountRequest =
    | RegisterRequest(username: string, createFails: bool)
    | CreateRequest(username: string, role: Option<string>, createFails: bool)
    | DeleteRequest(requester: UserId, target: UserId, deleteOk: bool)
    | RoleRequest(requester: UserId, target: UserId, newRole: Option<string>, updateOk: bool)
    | ProfileRequest(requester: UserId, rawTarget: Option<UserId>, newUsername: Option<string>, newRole: Option<string>,
                     updateOk: bool)

  /**
   * The table after one request; a refused request leaves it as it was. A profile request
   * goes through `GuardedUpdateProfile`, the route with the role checks it lacks as written.
   */
  function Apply(a: Accounts, req: AccountRequest): Accounts {
    match req
    case RegisterRequest(name, fails) =>
      (match Register(a, name, fails) case Success(c) => c.accounts case Failure(_, _) => a)
    case CreateRequest(name, role, fails) =>
      (match AdminCreate(a, name, role, fails) case Success(c) => c.accounts case Failure(_, _) => a)
    case DeleteRequest(requester, target, ok) =>
      (match DeleteUser(a, requester, target, ok) case Success(b) => b case Failure(_, _) => a)
    case RoleRequest(requester, target, role, ok) =>
      (match ChangeRole(a, requester, target, role, ok) case Success(b) => b case Failure(_, _) => a)
    case ProfileRequest(requester, target, name, role, ok) =>
      (match GuardedUpdateProfile(a, requester, target, name, role, ok) case Success(b) => b case Failure(_, _) => a)
  }

  function ApplyAll(a: Accounts, reqs: seq<AccountRequest>): Accounts
    decreases |reqs|
  {
    if reqs == [] then a else ApplyAll(Apply(a, reqs[0]), reqs[1..])
  }

  /**
   * Whatever the account routes are asked, in whatever order and with whatever store
   * answers, ids and usernames stay distinct and an administrator is always left, once the
   * profile route checks roles (`ProfileDemotesLastAdmin` shows that it must).
   */
  lemma {:induction false} AccountsStayAdministered(a: Accounts, reqs: seq<AccountRequest>)
    requires Valid(a) && AdminCount(a.users) >= 1
    ensures Valid(ApplyAll(a, reqs)) && AdminCount(ApplyAll(a, reqs).users) >= 1
    decreases |reqs|
  {
    if reqs != [] {
      AccountsStayAdministered(Apply(a, reqs[0]), reqs[1..]);
    }
  }
}
