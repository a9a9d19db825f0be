/**
 * `RoleService`: the guards around the role repository. A role is created
 * only with a name, at least one permission, every permission on the
 * whitelist and a name not yet used; a role still assigned to users can be
 * neither deactivated nor deleted.
 */
module RoleServices {
  import opened Common
  import opened Permissions
  import opened RoleRepositories

  /** The exceptions the service reports. */
  datatype RoleError =
    | IdNotValid
    | RoleNameMissing
    | PermissionsMissing
    | PermissionNameInvalid
    | RoleAlreadyExists
    | RoleNotFound
    | UsersUsingRole

  /** Some stored role already has this exact name. */
  predicate NameTaken(roles: map<Uuid, Role>, name: string)
  {
    exists id :: id in roles && roles[id].role == name
  }

  /** The guard chain of `create_role`, in its order; None when the role may be created. */
  function CreateRoleCheck(r: RoleIn, roles: map<Uuid, Role>): (e: Option<RoleError>)
    ensures r.role == "" ==> e == Some(RoleNameMissing)
    ensures r.role != "" && |r.permissions| == 0 ==> e == Some(PermissionsMissing)
    ensures r.role != "" && |r.permissions| > 0 && (exists p :: p in r.permissions && p !in UserRouteNames)
            ==> e == Some(PermissionNameInvalid)
    ensures e.None? <==>
      && r.role != "" && |r.permissions| > 0
      && (forall p :: p in r.permissions ==> p in UserRouteNames)
      && !NameTaken(roles, r.role)
  {
    if r.role == "" then Some(RoleNameMissing)
    else if |r.permissions| < 1 then Some(PermissionsMissing)
    else if exists p :: p in r.permissions && p !in UserRouteNames then Some(PermissionNameInvalid)
    else if NameTaken(roles, r.role) then Some(RoleAlreadyExists)
    else None
  }

  /** Roles with distinct names: no two stored roles share a name. */
  ghost predicate UniqueNames(roles: map<Uuid, Role>)
  {
    forall a, b :: a in roles && b in roles && roles[a].role == roles[b].role ==> a == b
  }

  /** Creating a role that passed the guards keeps the names distinct and grants only whitelisted routes. */
  lemma CreateKeepsNamesUnique(r: RoleIn, roles: map<Uuid, Role>, newId: Uuid, created: Role)
    requires UniqueNames(roles) && newId !in roles && CreateRoleCheck(r, roles).None?
    requires created.role == r.role && created.permissions == r.permissions
    ensures UniqueNames(roles[newId := created])
    ensures forall p :: p in created.permissions ==> IsPermission(GetPermissions(), p)
  {
    forall p | p in created.permissions
      ensures IsPermission(GetPermissions(), p)
    {
      KnownPermissions(p);
    }
    var after := roles[newId := created];
    forall a, b | a in after && b in after && after[a].role == after[b].role
      ensures a == b
    {
    }
  }

  /** The permissions loop of `create_role`: true when every permission passes `verify_permissions`. */
  method AllPermissionsValid(permissions: seq<string>) returns (valid: bool)
    ensures valid <==> forall p :: p in permissions ==> p in UserRouteNames
  {
    var i := 0;
    while i < |permissions|
      invariant 0 <= i <= |permissions|
      invariant forall k :: 0 <= k < i ==> permissions[k] in UserRouteNames
    {
      var ok := VerifyPermissions(permissions[i]);
      if !ok {
        return false;
      }
      i := i + 1;
    }
    return true;
  }

  /**
   * `create_role`: the guards in their order, then the repository's insert.
   * The new role's id and instants are the ones `preprocess_create` draws.
   */
  method CreateRole(r: RoleIn, repo: RoleRepository, newId: Uuid, createdAt: Time, updatedAt: Time) returns (result: Result<Role, RoleError>)
    requires repo.Valid() && newId !in repo.roles
    modifies repo
    ensures repo.Valid()
    ensures CreateRoleCheck(r, old(repo.roles)).Some? ==>
      result == Err(CreateRoleCheck(r, old(repo.roles)).value) && repo.roles == old(repo.roles)
    ensures CreateRoleCheck(r, old(repo.roles)).None? ==>
      && result == Ok(Role(newId, r.role, r.permissions, true, r.createdBy, r.updatedBy, createdAt, updatedAt))
      && repo.roles == old(repo.roles)[newId := result.value]
  {
    if r.role == "" {
      return Err(RoleNameMissing);
    }
    if |r.permissions| < 1 {
      return Err(PermissionsMissing);
    }
    var valid := AllPermissionsValid(r.permissions);
    if !valid {
      return Err(PermissionNameInvalid);
    }
    var inDb := repo.GetRoleByName(r.role);
    if inDb.Some? {
      return Err(RoleAlreadyExists);
    }
    var created := repo.CreateRole(r, newId, createdAt, updatedAt);
    return Ok(created);
  }

  /** `verify_there_are_users_with_role` on the answer of `get_users_by_role_id`: some user, and a None answer counts as none. */
  predicate UsersWithRole(users: Option<seq<Uuid>>): (b: bool)
    ensures users.None? || users == Some([]) ==> !b
  {
    users.Some? && |users.value| > 0
  }

  /** `get_role_by_id`: an invalid id is refused before the lookup; an unknown one is not found. */
  method GetRoleById(id: IdArg, repo: RoleRepository) returns (result: Result<Role, RoleError>)
    requires repo.Valid()
    ensures !IsValidUuid(id) ==> result == Err(IdNotValid)
    ensures IsValidUuid(id) && id.uuid !in repo.roles ==> result == Err(RoleNotFound)
    ensures IsValidUuid(id) && id.uuid in repo.roles ==> result == Ok(repo.roles[id.uuid])
  {
    if !IsValidUuid(id) {
      return Err(IdNotValid);
    }
    var role := repo.GetRoleById(id.uuid);
    if role.None? {
      return Err(RoleNotFound);
    }
    return Ok(role.value);
  }

  /** `update_role`: an invalid id is refused and nothing changes; otherwise the repository's update. */
  method UpdateRole(id: IdArg, u: RoleUpdate, actor: Uuid, now: Time, repo: RoleRepository)
      returns (result: Result<Role, RoleError>)
    requires repo.Valid()
    modifies repo
    ensures repo.Valid()
    ensures !IsValidUuid(id) ==> result == Err(IdNotValid) && repo.roles == old(repo.roles)
    ensures IsValidUuid(id) && id.uuid !in old(repo.roles) ==> result == Err(RoleNotFound) && repo.roles == old(repo.roles)
    ensures IsValidUuid(id) && id.uuid in old(repo.roles) ==>
      var s := old(repo.roles)[id.uuid];
      var r := RoleRepository.Restamped(s, actor, now).(role := Overlay(s.role, u.role),
                                                       permissions := Overlay(s.permissions, u.permissions));
      result == Ok(r) && repo.roles == old(repo.roles)[id.uuid := r]
  {
    if !IsValidUuid(id) {
      return Err(IdNotValid);
    }
    var role := repo.UpdateRole(id.uuid, u, actor, now);
    if role.None? {
      return Err(RoleNotFound);
    }
    return Ok(role.value);
  }

  /**
   * The guard of `update_activate_role` before the repository is called:
   * a request that does not set `is_active` to true (left out or false) is
   * refused while users have the role.
   */
  function ActivateCheck(id: IdArg, u: RoleUpdateActive, users: Option<seq<Uuid>>): (e: Option<RoleError>)
    ensures !IsValidUuid(id) ==> e == Some(IdNotValid)
    ensures e.None? <==> IsValidUuid(id) && (u.isActive == Set(true) || !UsersWithRole(users))
    ensures e.Some? && IsValidUuid(id) ==> e == Some(UsersUsingRole)
  {
    if !IsValidUuid(id) then Some(IdNotValid)
    else if !(u.isActive == Set(true)) && UsersWithRole(users) then Some(UsersUsingRole)
    else None
  }

  /** Activation is never refused for the role's users; deactivation is refused exactly while some user has it. */
  lemma ActivationOnlyGuardsDeactivation(id: Uuid, users: Option<seq<Uuid>>)
    ensures ActivateCheck(Wellformed(id), RoleUpdateActive(Set(true)), users).None?
    ensures ActivateCheck(Wellformed(id), RoleUpdateActive(Set(false)), users) == Some(UsersUsingRole)
            <==> users.Some? && users.value != []
  {
  }

  /** `update_activate_role`: the guard, then the repository's update; a refused request changes nothing. */
  method UpdateActivateRole(id: IdArg, u: RoleUpdateActive, actor: Uuid, now: Time,
                            users: Option<seq<Uuid>>, repo: RoleRepository)
      returns (result: Result<Role, RoleError>)
    requires repo.Valid()
    modifies repo
    ensures repo.Valid()
    ensures ActivateCheck(id, u, users).Some? ==>
      result == Err(ActivateCheck(id, u, users).value) && repo.roles == old(repo.roles)
    ensures ActivateCheck(id, u, users).None? && id.uuid !in old(repo.roles) ==>
      result == Err(RoleNotFound) && repo.roles == old(repo.roles)
    ensures ActivateCheck(id, u, users).None? && id.uuid in old(repo.roles) ==>
      var s := old(repo.roles)[id.uuid];
      var r := RoleRepository.Restamped(s, actor, now).(isActive := Overlay(s.isActive, u.isActive));
      result == Ok(r) && repo.roles == old(repo.roles)[id.uuid := r]
  {
    if !IsValidUuid(id) {
      return Err(IdNotValid);
    }
    if !(u.isActive == Set(true)) {
      if UsersWithRole(users) {
        return Err(UsersUsingRole);
      }
    }
    var role := repo.UpdateActiveRole(id.uuid, u, actor, now);
    if role.None? {
      return Err(RoleNotFound);
    }
    return Ok(role.value);
  }

  /** The guard of `delete_role` before the repository is called. */
  function DeleteCheck(id: IdArg, users: Option<seq<Uuid>>): (e: Option<RoleError>)
    ensures !IsValidUuid(id) ==> e == Some(IdNotValid)
    ensures e.None? <==> IsValidUuid(id) && !UsersWithRole(users)
    ensures e.Some? && IsValidUuid(id) ==> e == Some(UsersUsingRole)
  {
    if !IsValidUuid(id) then Some(IdNotValid)
    else if UsersWithRole(users) then Some(UsersUsingRole)
    else None
  }

  /** `delete_role`: the guard, then the repository's delete; a refused request deletes nothing. */
  method DeleteRole(id: IdArg, users: Option<seq<Uuid>>, repo: RoleRepository) returns (result: Result<Uuid, RoleError>)
    requires repo.Valid()
    modifies repo
    ensures repo.Valid()
    ensures DeleteCheck(id, users).Some? ==> result == Err(DeleteCheck(id, users).value) && repo.roles == old(repo.roles)
    ensures DeleteCheck(id, users).None? && id.uuid !in old(repo.roles) ==>
      result == Err(RoleNotFound) && repo.roles == old(repo.roles)
    ensures DeleteCheck(id, users).None? && id.uuid in old(repo.roles) ==>
      result == Ok(id.uuid) && repo.roles == old(repo.roles) - {id.uuid}
  {
    if !IsValidUuid(id) {
      return Err(IdNotValid);
    }
    if UsersWithRole(users) {
      return Err(UsersUsingRole);
    }
    var deleted := repo.DeleteRole(id.uuid);
    if deleted.None? {
      return Err(RoleNotFound);
    }
    return Ok(deleted.value);
  }

  /** A role some user holds survives every activation request that could switch it off, and every delete. */
  lemma UsedRoleNeverRemoved(id: Uuid, u: RoleUpdateActive, users: seq<Uuid>)
    requires users != [] && u.isActive != Set(true)
    ensures DeleteCheck(Wellformed(id), Some(users)) == Some(UsersUsingRole)
    ensures ActivateCheck(Wellformed(id), u, Some(users)) == Some(UsersUsingRole)
  {
  }
}
