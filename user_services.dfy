/**
 * `UserService`: user creation with its guard chain, password hashing and
 * the role name reported back, and the id-guarded update, activation,
 * deletion and password change. The `users` table is modelled with the two
 * uniqueness constraints its migration declares (username and email), which
 * turn a clashing insert or update into a database error.
 */
module UserServices {
  import opened Common
  import opened RoleRepositories

  /** A row of `users`. */
  datatype User = User(
    id: Uuid,
    fullname: string,
    username: string,
    email: string,
    password: string,
    salt: string,
    isSuperadmin: bool,
    roleId: Uuid,
    isActive: bool,
    createdBy: Option<Uuid>,
    updatedBy: Option<Uuid>,
    createdAt: Time,
    updatedAt: Time)

  /** `UserIn` as `create_user` reads it; the fields its guards test are the ones that may be missing. */
  datatype UserIn = UserIn(
    fullname: string,
    username: string,
    email: string,
    password: string,
    isSuperadmin: Option<bool>,
    roleId: Option<Uuid>,
    createdBy: Option<Uuid>,
    updatedBy: Option<Uuid>)

  /** A user patch: `UserUpdate` sets the profile fields and the password, `UserActivate` only the flag. */
  datatype UserPatch = UserPatch(
    fullname: Patch<string>,
    username: Patch<string>,
    email: Patch<string>,
    roleId: Patch<Uuid>,
    password: Patch<string>,
    isActive: Patch<bool>)

  /** A created user as `create_user` reports it: the stored row and the role name attached to it. */
  datatype CreatedUser = CreatedUser(user: User, role: Option<string>)

  /** The exceptions the service reports; `Uncaught` is a database error the service does not catch. */
  datatype UserError =
    | IdNotValid
    | NoRole
    | NoUsername
    | NoValidPassword
    | NoUserType
    | EmailAlreadyExists
    | UsernameAlreadyExists
    | UserNotFound
    | InvalidUpdateParams
    | Uncaught

  /** `create_salt_and_hashedpassword`: a plaintext password to its hash and salt. */
  type Hasher = string -> (string, string)

  /** Some stored user other than `except` has this exact email. */
  predicate EmailTaken(users: map<Uuid, User>, email: string, except: Option<Uuid>)
  {
    exists id :: id in users && users[id].email == email && Some(id) != except
  }

  /** Some stored user other than `except` has this exact username. */
  predicate UsernameTaken(users: map<Uuid, User>, username: string, except: Option<Uuid>)
  {
    exists id :: id in users && users[id].username == username && Some(id) != except
  }

  /** Writing `u` under its id would break a uniqueness constraint of the table. */
  predicate Clashes(users: map<Uuid, User>, u: User)
  {
    EmailTaken(users, u.email, Some(u.id)) || UsernameTaken(users, u.username, Some(u.id))
  }

  /**
   * The guard chain of `create_user`, in its order; None when the user may
   * be inserted. The username is looked up as given, before lower-casing.
   */
  function CreateUserCheck(u: UserIn, users: map<Uuid, User>): (e: Option<UserError>)
    ensures u.roleId.None? ==> e == Some(NoRole)
    ensures u.roleId.Some? && u.username == "" ==> e == Some(NoUsername)
    ensures u.roleId.Some? && u.username != "" && |u.password| < 7 ==> e == Some(NoValidPassword)
    ensures u.roleId.Some? && u.username != "" && |u.password| >= 7 && u.isSuperadmin.None? ==> e == Some(NoUserType)
    ensures e == Some(UsernameAlreadyExists) ==> !EmailTaken(users, u.email, None) && UsernameTaken(users, u.username, None)
    ensures e.None? <==>
      && u.roleId.Some? && u.username != "" && |u.password| >= 7 && u.isSuperadmin.Some?
      && !EmailTaken(users, u.email, None) && !UsernameTaken(users, u.username, None)
  {
    if u.roleId.None? then Some(NoRole)
    else if u.username == "" then Some(NoUsername)
    else if u.password == "" || |u.password| < 7 then Some(NoValidPassword)
    else if u.isSuperadmin.None? then Some(NoUserType)
    else if EmailTaken(users, u.email, None) then Some(EmailAlreadyExists)
    else if UsernameTaken(users, u.username, None) then Some(UsernameAlreadyExists)
    else None
  }

  /** The row `create_user` inserts: hashed password and its salt, lower-cased username, `preprocess_create`'s defaults. */
  function ToStore(u: UserIn, newId: Uuid, createdAt: Time, updatedAt: Time, hash: Hasher): (r: User)
    requires u.roleId.Some? && u.isSuperadmin.Some?
    ensures r.password == hash(u.password).0 && r.salt == hash(u.password).1
    ensures r.username == Lower(u.username) && |r.username| == |u.username|
    ensures r.id == newId && r.roleId == u.roleId.value && r.isActive
  {
    User(newId, u.fullname, Lower(u.username), u.email, hash(u.password).0, hash(u.password).1,
         u.isSuperadmin.value, u.roleId.value, true, u.createdBy, u.updatedBy, createdAt, updatedAt)
  }

  /** The name of the role stored under `key`, or None (`get_role_by_id` answering `{}`). */
  function RoleNameOf(roles: map<Uuid, Role>, key: Uuid): (r: Option<string>)
    ensures r.Some? <==> key in roles
    ensures r.Some? ==> r.value == roles[key].role
  {
    if key in roles then Some(roles[key].role) else None
  }

  /** The `users` table under its constraints. */
  class UserTable {
    var users: map<Uuid, User>

    /** Every user is stored under its own id, and usernames and emails are unique. */
    ghost predicate Valid()
      reads this
    {
      && (forall id :: id in users ==> users[id].id == id)
      && (forall id :: id in users ==> !Clashes(users, users[id]))
    }

    constructor (initial: map<Uuid, User>)
      requires forall id :: id in initial ==> initial[id].id == id && !Clashes(initial, initial[id])
      ensures Valid() && users == initial
    {
      users := initial;
    }

    /** An insert or update of `u`: refused by the database when it clashes, written otherwise. */
    method Write(u: User) returns (ok: bool)
      requires Valid()
      modifies this
      ensures Valid()
      ensures ok <==> !Clashes(old(users), u)
      ensures ok ==> users == old(users)[u.id := u]
      ensures !ok ==> users == old(users)
    {
      if Clashes(users, u) {
        return false;
      }
      ghost var before := users;
      users := users[u.id := u];
      forall id | id in users
        ensures !Clashes(users, users[id])
      {
        if id != u.id {
          assert users[id] == before[id];
          assert !Clashes(before, before[id]);
        }
      }
      return true;
    }
  }

  /**
   * The first part of `create_user`: the guards, the hashing, the
   * lower-casing of the username, and the insert.
   */
  method StoreUser(u: UserIn, newId: Uuid, createdAt: Time, updatedAt: Time, hash: Hasher, table: UserTable)
      returns (result: Result<User, UserError>)
    requires table.Valid() && newId !in table.users
    modifies table
    ensures table.Valid()
    ensures CreateUserCheck(u, old(table.users)).Some? ==>
      result == Err(CreateUserCheck(u, old(table.users)).value) && table.users == old(table.users)
    ensures CreateUserCheck(u, old(table.users)).None? ==>
      var row := ToStore(u, newId, createdAt, updatedAt, hash);
      if Clashes(old(table.users), row) then result == Err(Uncaught) && table.users == old(table.users)
      else result == Ok(row) && table.users == old(table.users)[newId := row]
  {
    if u.roleId.None? {
      return Err(NoRole);
    }
    if u.username == "" {
      return Err(NoUsername);
    }
    if u.password == "" || |u.password| < 7 {
      return Err(NoValidPassword);
    }
    if u.isSuperadmin.None? {
      return Err(NoUserType);
    }
    if EmailTaken(table.users, u.email, None) {
      return Err(EmailAlreadyExists);
    }
    if UsernameTaken(table.users, u.username, None) {
      return Err(UsernameAlreadyExists);
    }
    var credentials := hash(u.password);
    var password := credentials.0;
    var salt := credentials.1;
    var username := Lower(u.username);
    var row := User(newId, u.fullname, username, u.email, password, salt,
                    u.isSuperadmin.value, u.roleId.value, true, u.createdBy, u.updatedBy, createdAt, updatedAt);
    var ok := table.Write(row);
    if !ok {
      return Err(Uncaught);
    }
    return Ok(row);
  }

  /** `create_user` as written: the role name is looked up under the new user's id, not its role's. */
  method CreateUser(u: UserIn, newId: Uuid, createdAt: Time, updatedAt: Time, hash: Hasher,
                    table: UserTable, roles: map<Uuid, Role>)
      returns (result: Result<CreatedUser, UserError>)
    requires table.Valid() && newId !in table.users
    modifies table
    ensures table.Valid()
    ensures result.Ok? ==> result.value.role == RoleNameOf(roles, result.value.user.id)
    ensures result.Ok? ==>
      && CreateUserCheck(u, old(table.users)).None?
      && result.value.user == ToStore(u, newId, createdAt, updatedAt, hash)
      && table.users == old(table.users)[newId := result.value.user]
    ensures result.Err? ==> table.users == old(table.users)
  {
    var stored := StoreUser(u, newId, createdAt, updatedAt, hash, table);
    if stored.Err? {
      return Err(stored.error);
    }
    var role := RoleNameOf(roles, stored.value.id);
    return Ok(CreatedUser(stored.value, role));
  }

  /** `create_user` as evidently intended: the role name is the one of the role the user was given. */
  method CreateUserWithOwnRole(u: UserIn, newId: Uuid, createdAt: Time, updatedAt: Time, hash: Hasher,
                               table: UserTable, roles: map<Uuid, Role>)
      returns (result: Result<CreatedUser, UserError>)
    requires table.Valid() && newId !in table.users
    modifies table
    ensures table.Valid()
    ensures result.Ok? ==> result.value.role == RoleNameOf(roles, result.value.user.roleId)
    ensures result.Ok? ==> u.roleId.Some? && result.value.user.roleId == u.roleId.value
    ensures result.Ok? ==>
      && CreateUserCheck(u, old(table.users)).None?
      && result.value.user == ToStore(u, newId, createdAt, updatedAt, hash)
      && table.users == old(table.users)[newId := result.value.user]
    ensures result.Err? ==> table.users == old(table.users)
  {
    var stored := StoreUser(u, newId, createdAt, updatedAt, hash, table);
    if stored.Err? {
      return Err(stored.error);
    }
    var role := RoleNameOf(roles, stored.value.roleId);
    return Ok(CreatedUser(stored.value, role));
  }

  /**
   * The role-name lookup of `create_user` as written reports no role for a
   * user whose role exists, whenever no role happens to share the user's
   * fresh id; the intended lookup reports that role's name.
   */
  lemma RoleLookedUpUnderUserId(roles: map<Uuid, Role>, user: User)
    requires user.roleId in roles && user.id !in roles
    ensures RoleNameOf(roles, user.id) == None
    ensures RoleNameOf(roles, user.roleId) == Some(roles[user.roleId].role)
  {
  }

  /**
   * The username is checked as given but stored lower-cased, so "Ana" passes
   * the guard beside a stored "ana", and the insert then breaks the unique
   * username constraint: a database error instead of `UsernameAlreadyExists`.
   */
  lemma UsernameCaseSlip(existing: User, newId: Uuid, hash: Hasher, roleId: Uuid, createdAt: Time, updatedAt: Time)
    requires existing.username == "ana" && existing.email == "ana@example.com" && existing.id != newId
    ensures var u := UserIn("Ana", "Ana", "ana2@example.com", "secreto1", Some(false), Some(roleId), None, None);
      && CreateUserCheck(u, map[existing.id := existing]).None?
      && Clashes(map[existing.id := existing], ToStore(u, newId, createdAt, updatedAt, hash))
  {
    var users := map[existing.id := existing];
    var u := UserIn("Ana", "Ana", "ana2@example.com", "secreto1", Some(false), Some(roleId), None, None);
    assert Lower("Ana") == "ana" by {
      assert LowerChar('A') == 'a';
    }
    assert !UsernameTaken(users, u.username, None) by {
      assert "Ana"[0] != "ana"[0];
    }
    assert users[existing.id].username == ToStore(u, newId, createdAt, updatedAt, hash).username;
  }

  /**
   * The guard chain of `create_user` with the username looked up as it is
   * stored, lower-cased; every other guard as written, in the same order.
   */
  function CreateUserCheckLowered(u: UserIn, users: map<Uuid, User>): (e: Option<UserError>)
    ensures e != Some(UsernameAlreadyExists) && CreateUserCheck(u, users) != Some(UsernameAlreadyExists)
            ==> e == CreateUserCheck(u, users)
    ensures e == Some(UsernameAlreadyExists) ==> UsernameTaken(users, Lower(u.username), None)
    ensures e.None? <==>
      && u.roleId.Some? && u.username != "" && |u.password| >= 7 && u.isSuperadmin.Some?
      && !EmailTaken(users, u.email, None) && !UsernameTaken(users, Lower(u.username), None)
  {
    if u.roleId.None? then Some(NoRole)
    else if u.username == "" then Some(NoUsername)
    else if u.password == "" || |u.password| < 7 then Some(NoValidPassword)
    else if u.isSuperadmin.None? then Some(NoUserType)
    else if EmailTaken(users, u.email, None) then Some(EmailAlreadyExists)
    else if UsernameTaken(users, Lower(u.username), None) then Some(UsernameAlreadyExists)
    else None
  }

  /**
   * With the username looked up lower-cased, a user that passes the guards
   * is inserted without breaking either uniqueness constraint: the database
   * error of the slip above cannot happen.
   */
  lemma LoweredCheckPreventsClash(u: UserIn, users: map<Uuid, User>, newId: Uuid, createdAt: Time, updatedAt: Time,
                                  hash: Hasher)
    requires CreateUserCheckLowered(u, users).None? && newId !in users
    ensures !Clashes(users, ToStore(u, newId, createdAt, updatedAt, hash))
  {
    var row := ToStore(u, newId, createdAt, updatedAt, hash);
    assert row.email == u.email && row.username == Lower(u.username);
  }

  /** The corrected lookup catches the slip: `Ana` is refused beside a stored `ana`. */
  lemma LoweredCheckCatchesSlip(existing: User)
    requires existing.username == "ana" && existing.email == "ana@example.com"
    ensures var u := UserIn("Ana", "Ana", "ana2@example.com", "secreto1", Some(false), Some(existing.roleId), None, None);
      CreateUserCheckLowered(u, map[existing.id := existing]) == Some(UsernameAlreadyExists)
  {
    assert Lower("Ana") == "ana" by {
      assert LowerChar('A') == 'a';
    }
    var users := map[existing.id := existing];
    assert users[existing.id].username == "ana";
    assert UsernameTaken(users, "ana", None);
  }

  /** An email in use is reported before the username is looked up, whether or not that is in use too. */
  lemma EmailCheckedBeforeUsername(u: UserIn, users: map<Uuid, User>)
    requires u.roleId.Some? && u.username != "" && |u.password| >= 7 && u.isSuperadmin.Some?
    requires EmailTaken(users, u.email, None)
    ensures CreateUserCheck(u, users) == Some(EmailAlreadyExists)
  {
  }

  // ---------------------------------------------------------------------------
  // Update, activation, deletion, password change

  /** The credentials `update_user` hands on: a fresh hash and salt for a non-empty new password, none otherwise. */
  function Credentials(password: Patch<string>, hash: Hasher): (c: Option<(string, string)>)
    ensures c.Some? <==> password.Set? && password.value != ""
    ensures c.Some? ==> c.value == hash(password.value)
  {
    if password.Set? && password.value != "" then Some(hash(password.value)) else None
  }

  /**
   * The row `user_repositories.update_user` writes: the stored user with
   * the set fields laid over it (the password field included), stamped, and
   * the credentials, when there are any, written over password and salt.
   * The user is read back through `GET_USER_BY_ID`, which does not select
   * `created_by`, so the update writes None there.
   */
  function Updated(stored: User, p: UserPatch, credentials: Option<(string, string)>, actor: Uuid, now: Time)
      : (r: User)
    ensures r.id == stored.id && r.isSuperadmin == stored.isSuperadmin && r.createdAt == stored.createdAt
    ensures r.createdBy == None && r.updatedBy == Some(actor) && r.updatedAt == now
    ensures r.fullname == Overlay(stored.fullname, p.fullname) && r.username == Overlay(stored.username, p.username)
    ensures r.email == Overlay(stored.email, p.email) && r.roleId == Overlay(stored.roleId, p.roleId)
    ensures r.isActive == Overlay(stored.isActive, p.isActive)
    ensures credentials.Some? ==> r.password == credentials.value.0 && r.salt == credentials.value.1
    ensures credentials.None? ==> r.password == Overlay(stored.password, p.password) && r.salt == stored.salt
  {
    var merged := stored.(fullname := Overlay(stored.fullname, p.fullname),
                          username := Overlay(stored.username, p.username),
                          email := Overlay(stored.email, p.email),
                          roleId := Overlay(stored.roleId, p.roleId),
                          password := Overlay(stored.password, p.password),
                          isActive := Overlay(stored.isActive, p.isActive),
                          createdBy := None, updatedBy := Some(actor), updatedAt := now);
    if credentials.Some? then merged.(password := credentials.value.0, salt := credentials.value.1) else merged
  }

  /** A new password is stored only as its hash, with the salt drawn with it; the plaintext never reaches the row. */
  lemma NewPasswordRehashed(stored: User, p: UserPatch, hash: Hasher, actor: Uuid, now: Time)
    requires p.password.Set? && p.password.value != ""
    ensures Updated(stored, p, Credentials(p.password, hash), actor, now).password == hash(p.password.value).0
    ensures Updated(stored, p, Credentials(p.password, hash), actor, now).salt == hash(p.password.value).1
  {
  }

  /** Without a new password, the stored password and salt are kept. */
  lemma NoPasswordKeepsCredentials(stored: User, p: UserPatch, hash: Hasher, actor: Uuid, now: Time)
    requires p.password.Unset?
    ensures Credentials(p.password, hash).None?
    ensures Updated(stored, p, Credentials(p.password, hash), actor, now).password == stored.password
    ensures Updated(stored, p, Credentials(p.password, hash), actor, now).salt == stored.salt
  {
  }

  /**
   * The repository update both `update_user` and `activate_user` end in:
   * `{}` for an unknown id, a database error for a clash, the written row
   * otherwise.
   */
  method UpdateRow(id: Uuid, p: UserPatch, credentials: Option<(string, string)>, actor: Uuid, now: Time, table: UserTable)
      returns (result: Result<Option<User>, ()>)
    requires table.Valid()
    modifies table
    ensures table.Valid()
    ensures id !in old(table.users) ==> result == Ok(None) && table.users == old(table.users)
    ensures id in old(table.users) ==>
      var row := Updated(old(table.users)[id], p, credentials, actor, now);
      if Clashes(old(table.users), row) then result == Err(()) && table.users == old(table.users)
      else result == Ok(Some(row)) && table.users == old(table.users)[id := row]
  {
    if id !in table.users {
      return Ok(None);
    }
    var row := Updated(table.users[id], p, credentials, actor, now);
    assert row.id == id;
    var ok := table.Write(row);
    if !ok {
      return Err(());
    }
    return Ok(Some(row));
  }

  /** `update_user`: the id guard, the credentials, then the repository update. */
  method UpdateUser(id: IdArg, p: UserPatch, actor: Uuid, now: Time, hash: Hasher, table: UserTable)
      returns (result: Result<User, UserError>)
    requires table.Valid()
    modifies table
    ensures table.Valid()
    ensures !IsValidUuid(id) ==> result == Err(IdNotValid) && table.users == old(table.users)
    ensures IsValidUuid(id) && id.uuid !in old(table.users) ==> result == Err(UserNotFound) && table.users == old(table.users)
    ensures IsValidUuid(id) && id.uuid in old(table.users) ==>
      var row := Updated(old(table.users)[id.uuid], p, Credentials(p.password, hash), actor, now);
      if Clashes(old(table.users), row) then result == Err(InvalidUpdateParams) && table.users == old(table.users)
      else result == Ok(row) && table.users == old(table.users)[id.uuid := row]
  {
    if !IsValidUuid(id) {
      return Err(IdNotValid);
    }
    var credentials: Option<(string, string)> := None;
    if p.password.Set? && p.password.value != "" {
      var drawn := hash(p.password.value);
      credentials := Some(drawn);
    }
    var user := UpdateRow(id.uuid, p, credentials, actor, now, table);
    if user.Err? {
      return Err(InvalidUpdateParams);
    }
    if user.value.None? {
      return Err(UserNotFound);
    }
    return Ok(user.value.value);
  }

  /** The patch `activate_user` sends: the activity flag alone. */
  function ActivationPatch(isActive: bool): UserPatch
  {
    UserPatch(Unset, Unset, Unset, Unset, Unset, Set(isActive))
  }

  /** `activate_user`: the id guard, then the repository update with the flag and no credentials. */
  method ActivateUser(id: IdArg, isActive: bool, actor: Uuid, now: Time, table: UserTable)
      returns (result: Result<User, UserError>)
    requires table.Valid()
    modifies table
    ensures table.Valid()
    ensures !IsValidUuid(id) ==> result == Err(IdNotValid) && table.users == old(table.users)
    ensures IsValidUuid(id) && id.uuid !in old(table.users) ==> result == Err(UserNotFound) && table.users == old(table.users)
    ensures IsValidUuid(id) && id.uuid in old(table.users) ==>
      var row := old(table.users)[id.uuid].(isActive := isActive, createdBy := None, updatedBy := Some(actor),
                                            updatedAt := now);
      result == Ok(row) && table.users == old(table.users)[id.uuid := row]
  {
    if !IsValidUuid(id) {
      return Err(IdNotValid);
    }
    var user := UpdateRow(id.uuid, ActivationPatch(isActive), None, actor, now, table);
    if user.Err? {
      assert false;
      return Err(Uncaught);
    }
    if user.value.None? {
      return Err(UserNotFound);
    }
    return Ok(user.value.value);
  }

  /**
   * An activation changes only the flag, the stamps and the cleared
   * creator, so it never breaks a uniqueness constraint.
   */
  lemma ActivationNeverClashes(users: map<Uuid, User>, id: Uuid, isActive: bool, actor: Uuid, now: Time)
    requires id in users && users[id].id == id && !Clashes(users, users[id])
    ensures Updated(users[id], ActivationPatch(isActive), None, actor, now)
            == users[id].(isActive := isActive, createdBy := None, updatedBy := Some(actor), updatedAt := now)
    ensures !Clashes(users, Updated(users[id], ActivationPatch(isActive), None, actor, now))
  {
  }

  /** `delete_user`: the id guard, then `{}` for an unknown id or the removal of the row. */
  method DeleteUser(id: IdArg, table: UserTable) returns (result: Result<Uuid, UserError>)
    requires table.Valid()
    modifies table
    ensures table.Valid()
    ensures !IsValidUuid(id) ==> result == Err(IdNotValid) && table.users == old(table.users)
    ensures IsValidUuid(id) && id.uuid !in old(table.users) ==> result == Err(UserNotFound) && table.users == old(table.users)
    ensures IsValidUuid(id) && id.uuid in old(table.users) ==>
      result == Ok(id.uuid) && table.users == old(table.users) - {id.uuid}
  {
    if !IsValidUuid(id) {
      return Err(IdNotValid);
    }
    if id.uuid !in table.users {
      return Err(UserNotFound);
    }
    ghost var before := table.users;
    table.users := table.users - {id.uuid};
    forall k | k in table.users
      ensures !Clashes(table.users, table.users[k])
    {
      assert !Clashes(before, before[k]);
    }
    return Ok(id.uuid);
  }

  /**
   * `change_password_by_id`: the id guard, then the new hash and salt
   * written, with the user itself recorded as the updater.
   */
  method ChangePassword(id: IdArg, password: string, now: Time, hash: Hasher, table: UserTable)
      returns (result: Result<User, UserError>)
    requires table.Valid()
    modifies table
    ensures table.Valid()
    ensures !IsValidUuid(id) ==> result == Err(IdNotValid) && table.users == old(table.users)
    ensures IsValidUuid(id) && id.uuid !in old(table.users) ==> result == Err(UserNotFound) && table.users == old(table.users)
    ensures IsValidUuid(id) && id.uuid in old(table.users) ==>
      var row := old(table.users)[id.uuid].(password := hash(password).0, salt := hash(password).1,
                                            updatedBy := Some(id.uuid), updatedAt := now);
      result == Ok(row) && table.users == old(table.users)[id.uuid := row]
  {
    if !IsValidUuid(id) {
      return Err(IdNotValid);
    }
    var credentials := hash(password);
    if id.uuid !in table.users {
      return Err(UserNotFound);
    }
    var row := table.users[id.uuid].(password := credentials.0, salt := credentials.1,
                                     updatedBy := Some(id.uuid), updatedAt := now);
    var ok := table.Write(row);
    if !ok {
      assert false;
      return Err(Uncaught);
    }
    return Ok(row);
  }
}
