/**
 * The permission whitelist: the functionalities of the system, each with
 * its route entries, and the membership test roles are checked against.
 * Every route entry of the whitelist is a dictionary with a single key, the
 * route name, mapped to its description; it is modelled as that pair, so
 * `name in entry` is a comparison with the name and `next(iter(entry))` is
 * the name.
 */
module Permissions {

  /** One entry of `get_permissions()`: a functionality and its route entries. */
  datatype Functionality = Functionality(functionality: string, routes: seq<Route>)

  /** A route entry: a route name and its description. */
  datatype Route = Route(name: string, description: string)

  /** The route names of the user-management functionality, in the order they are listed. */
  const UserRouteNames: seq<string> := [
    "permissions:list-permissions",
    "roles:create-role",
    "roles:roles_list",
    "roles:get-role-by-id",
    "roles:update-role-by-id",
    "roles:update-activate-role-by-id",
    "roles:delete-role-by-id",
    "users:create-user",
    "users:users_list",
    "users:get-user-by-id",
    "users:activate-user-by-id",
    "users:update-user-by-id",
    "users:delete-user-by-id",
    "users:change-password-by-id"
  ]

  /** `get_permissions()`: the constant whitelist. */
  function GetPermissions(): (r: seq<Functionality>)
    ensures |r| == 1 && r[0].functionality == "USUARIOS" && |r[0].routes| == |UserRouteNames| == 14
    ensures forall j :: 0 <= j < |r[0].routes| ==> r[0].routes[j].name == UserRouteNames[j]
  {
    [Functionality("USUARIOS", [
      Route("permissions:list-permissions", "Listar permisos"),
      Route("roles:create-role", "Crear rol"),
      Route("roles:roles_list", "Listar roles"),
      Route("roles:get-role-by-id", "Obtener un rol por su id"),
      Route("roles:update-role-by-id", "Actualizar un rol por su id"),
      Route("roles:update-activate-role-by-id", "Activar / Desactivar un rol por su id"),
      Route("roles:delete-role-by-id", "Eliminar un rol por su id"),
      Route("users:create-user", "Crear usuario"),
      Route("users:users_list", "Listar usuarios"),
      Route("users:get-user-by-id", "Obtener un usuario por su id"),
      Route("users:activate-user-by-id", "Activar / Desactivar un usuario por su id"),
      Route("users:update-user-by-id", "Actualizar un usuario por su id"),
      Route("users:delete-user-by-id", "Eliminar un usuario por su id"),
      Route("users:change-password-by-id", "Actualizar password por el propio usuario")
    ])]
  }

  /** `permission` names some route entry of some functionality of `perms`. */
  predicate IsPermission(perms: seq<Functionality>, permission: string)
  {
    exists i, j :: 0 <= i < |perms| && 0 <= j < |perms[i].routes| && perms[i].routes[j].name == permission
  }

  /**
   * The search of `verify_permissions` over a whitelist: every route entry
   * of every functionality, in order, stopping at the first that has the
   * name as a key.
   */
  method VerifyPermissionsIn(perms: seq<Functionality>, permission: string) returns (found: bool)
    ensures found <==> IsPermission(perms, permission)
  {
    found := false;
    var i := 0;
    while i < |perms|
      invariant 0 <= i <= |perms|
      invariant forall i', j :: 0 <= i' < i && 0 <= j < |perms[i'].routes| ==> perms[i'].routes[j].name != permission
    {
      var routes := perms[i].routes;
      var j := 0;
      while j < |routes|
        invariant 0 <= j <= |routes|
        invariant forall j' :: 0 <= j' < j ==> routes[j'].name != permission
      {
        if routes[j].name == permission {
          found := true;
          return found;
        }
        j := j + 1;
      }
      i := i + 1;
    }
    return found;
  }

  /** `verify_permissions`: the search over `get_permissions()`. */
  method VerifyPermissions(permission: string) returns (found: bool)
    ensures found <==> permission in UserRouteNames
  {
    found := VerifyPermissionsIn(GetPermissions(), permission);
    KnownPermissions(permission);
  }

  /** The names the whitelist accepts are exactly the fourteen user-management routes. */
  lemma KnownPermissions(permission: string)
    ensures IsPermission(GetPermissions(), permission) <==> permission in UserRouteNames
  {
    var perms := GetPermissions();
    if permission in UserRouteNames {
      var j :| 0 <= j < |UserRouteNames| && UserRouteNames[j] == permission;
      assert perms[0].routes[j].name == permission;
    }
  }

  /** A name outside the whitelist, such as `test_perm_1`, is not a permission. */
  lemma UnknownNameRejected()
    ensures !IsPermission(GetPermissions(), "test_perm_1")
  {
    KnownPermissions("test_perm_1");
  }

  /**
   * The answer depends only on which functionalities are listed, not on
   * their order or repetition, nor on the order of each one's routes: the
   * test is existential and the search stops at the first match.
   */
  lemma {:induction false} OrderIrrelevant(perms1: seq<Functionality>, perms2: seq<Functionality>, permission: string)
    requires forall f :: f in perms1 ==> exists g :: g in perms2 && multiset(g.routes) == multiset(f.routes)
    ensures IsPermission(perms1, permission) ==> IsPermission(perms2, permission)
  {
    if IsPermission(perms1, permission) {
      var i, j :| 0 <= i < |perms1| && 0 <= j < |perms1[i].routes| && perms1[i].routes[j].name == permission;
      var f := perms1[i];
      assert f in perms1;
      var g :| g in perms2 && multiset(g.routes) == multiset(f.routes);
      assert f.routes[j] in multiset(g.routes);
      var j2 :| 0 <= j2 < |g.routes| && g.routes[j2] == f.routes[j];
      var i2 :| 0 <= i2 < |perms2| && perms2[i2] == g;
      assert perms2[i2].routes[j2].name == permission;
    }
  }
}
