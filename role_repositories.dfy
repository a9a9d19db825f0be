/**
 * The `roles` table: roles and the permissions granted to them, the
 * search helpers of the role list, and the update and delete operations.
 */
module RoleRepositories {
  import opened Common
  import opened Permissions

  /** A row of `roles`. */
  datatype Role = Role(
    id: Uuid,
    role: string,
    permissions: seq<string>,
    isActive: bool,
    createdBy: Option<Uuid>,
    updatedBy: Option<Uuid>,
    createdAt: Time,
    updatedAt: Time)

  /** `RoleIn`: the role handed to the repository for creation. */
  datatype RoleIn = RoleIn(role: string, permissions: seq<string>, createdBy: Option<Uuid>, updatedBy: Option<Uuid>)

  /** `RoleUpdate`: name and permissions, each left out or given. */
  datatype RoleUpdate = RoleUpdate(role: Patch<string>, permissions: Patch<seq<string>>)

  /** `RoleUpdateActive`: the activity flag, left out or given. */
  datatype RoleUpdateActive = RoleUpdateActive(isActive: Patch<bool>)

  // ---------------------------------------------------------------------------
  // Search by functionality

  /** The first functionality of `perms` whose name contains `search`, or "" when none does. */
  function FirstFunctionality(perms: seq<Functionality>, search: string): (r: string)
    ensures r != "" ==> Occurs(search, r)
  {
    if perms == [] then ""
    else if Occurs(search, perms[0].functionality) then perms[0].functionality
    else FirstFunctionality(perms[1..], search)
  }

  /** `FirstFunctionality` finds the earliest functionality containing the search, and "" only when there is none. */
  lemma {:induction false} FirstFunctionalityIsFirst(perms: seq<Functionality>, search: string)
    ensures (forall i :: 0 <= i < |perms| ==> !Occurs(search, perms[i].functionality))
            ==> FirstFunctionality(perms, search) == ""
    ensures forall i :: 0 <= i < |perms| && Occurs(search, perms[i].functionality)
                        && (forall k :: 0 <= k < i ==> !Occurs(search, perms[k].functionality))
                        ==> FirstFunctionality(perms, search) == perms[i].functionality
    decreases |perms|
  {
    if perms != [] {
      FirstFunctionalityIsFirst(perms[1..], search);
      forall i | 0 <= i < |perms| && Occurs(search, perms[i].functionality)
                 && (forall k :: 0 <= k < i ==> !Occurs(search, perms[k].functionality))
        ensures FirstFunctionality(perms, search) == perms[i].functionality
      {
        if i > 0 {
          assert !Occurs(search, perms[0].functionality);
          assert perms[1..][i - 1] == perms[i];
          forall k | 0 <= k < i - 1
            ensures !Occurs(search, perms[1..][k].functionality)
          {
            assert perms[1..][k] == perms[k + 1];
          }
        }
      }
      if forall i :: 0 <= i < |perms| ==> !Occurs(search, perms[i].functionality) {
        forall i | 0 <= i < |perms| - 1
          ensures !Occurs(search, perms[1..][i].functionality)
        {
          assert perms[1..][i] == perms[i + 1];
        }
      }
    }
  }

  /** `__get_functionalities`: the functionality names, in order. */
  method GetFunctionalities(perms: seq<Functionality>) returns (names: seq<string>)
    ensures |names| == |perms| && forall i :: 0 <= i < |perms| ==> names[i] == perms[i].functionality
  {
    names := [];
    var i := 0;
    while i < |perms|
      invariant 0 <= i <= |perms|
      invariant |names| == i && forall k :: 0 <= k < i ==> names[k] == perms[k].functionality
    {
      names := names + [perms[i].functionality];
      i := i + 1;
    }
  }

  /** `str.find(sub) >= 0`, by trying each position in turn. */
  method Find(sub: string, s: string) returns (found: bool)
    ensures found <==> Occurs(sub, s)
  {
    var i := 0;
    while i <= |s|
      invariant 0 <= i <= |s| + 1
      invariant forall k :: 0 <= k < i ==> !(sub <= s[k..])
    {
      if sub <= s[i..] {
        return true;
      }
      i := i + 1;
    }
    return false;
  }

  /** `__check_functionality`: the first functionality that contains `search`, or "". */
  method CheckFunctionality(perms: seq<Functionality>, search: string) returns (funct: string)
    ensures funct == FirstFunctionality(perms, search)
  {
    var functionalities := GetFunctionalities(perms);
    var i := 0;
    while i < |functionalities|
      invariant 0 <= i <= |functionalities|
      invariant FirstFunctionality(perms, search) == FirstFunctionality(perms[i..], search)
    {
      assert perms[i..][1..] == perms[i + 1..];
      var hit := Find(search, functionalities[i]);
      if hit {
        return functionalities[i];
      }
      i := i + 1;
    }
    return "";
  }

  /** The route names of the first functionality named exactly `search`; none when there is no such functionality. */
  function PermitsOf(perms: seq<Functionality>, search: string): (r: seq<string>)
    ensures r == [] || exists i :: 0 <= i < |perms| && perms[i].functionality == search
  {
    if perms == [] then []
    else if perms[0].functionality == search then RouteNames(perms[0].routes)
    else PermitsOf(perms[1..], search)
  }

  /** The names of route entries, in order. */
  function RouteNames(routes: seq<Route>): (r: seq<string>)
    ensures |r| == |routes| && forall j :: 0 <= j < |routes| ==> r[j] == routes[j].name
  {
    if routes == [] then [] else [routes[0].name] + RouteNames(routes[1..])
  }

  /** The permits of a functionality are the route names of its first entry of that name, in order. */
  lemma {:induction false} PermitsOfFirst(perms: seq<Functionality>, search: string, i: int)
    requires 0 <= i < |perms| && perms[i].functionality == search
    requires forall k :: 0 <= k < i ==> perms[k].functionality != search
    ensures PermitsOf(perms, search) == RouteNames(perms[i].routes)
    decreases i
  {
    if i > 0 {
      assert perms[1..][i - 1] == perms[i];
      forall k | 0 <= k < i - 1
        ensures perms[1..][k].functionality != search
      {
        assert perms[1..][k] == perms[k + 1];
      }
      PermitsOfFirst(perms[1..], search, i - 1);
    }
  }

  /** `__get_permits`: the route names of the first functionality equal to `search`, or none. */
  method GetPermits(perms: seq<Functionality>, search: string) returns (permits: seq<string>)
    ensures permits == PermitsOf(perms, search)
  {
    var functRoutes: seq<Route> := [];
    var i := 0;
    while i < |perms|
      invariant 0 <= i <= |perms|
      invariant PermitsOf(perms, search) == PermitsOf(perms[i..], search)
    {
      assert perms[i..][1..] == perms[i + 1..];
      if perms[i].functionality == search {
        functRoutes := perms[i].routes;
        break;
      }
      i := i + 1;
    }
    permits := [];
    if |functRoutes| > 0 {
      var j := 0;
      while j < |functRoutes|
        invariant 0 <= j <= |functRoutes|
        invariant permits == RouteNames(functRoutes)[..j]
      {
        permits := permits + [functRoutes[j].name];
        j := j + 1;
      }
      assert RouteNames(functRoutes)[..j] == RouteNames(functRoutes);
    }
  }

  // ---------------------------------------------------------------------------
  // De-duplication of merged results

  /** `s`, keeping only the first occurrence of each element, in order. */
  function Distinct<T(==)>(s: seq<T>): (r: seq<T>)
    ensures |r| <= |s|
  {
    if s == [] then []
    else
      var d := Distinct(s[..|s| - 1]);
      if s[|s| - 1] in d then d else d + [s[|s| - 1]]
  }

  predicate NoDuplicates<T(==)>(s: seq<T>)
  {
    forall i, j :: 0 <= i < j < |s| ==> s[i] != s[j]
  }

  /** `Distinct` keeps every element once and no other: no duplicates, the same elements. */
  lemma {:induction false} DistinctProperties<T>(s: seq<T>)
    ensures NoDuplicates(Distinct(s))
    ensures forall x :: x in Distinct(s) ==> x in s
    ensures forall x :: x in s ==> x in Distinct(s)
    decreases |s|
  {
    if s != [] {
      var init := s[..|s| - 1];
      DistinctProperties(init);
      assert s == init + [s[|s| - 1]];
    }
  }

  /** A sequence without duplicates is its own de-duplication. */
  lemma {:induction false} DistinctOfDistinct<T>(s: seq<T>)
    requires NoDuplicates(s)
    ensures Distinct(s) == s
    decreases |s|
  {
    if s != [] {
      var init := s[..|s| - 1];
      assert NoDuplicates(init);
      DistinctOfDistinct(init);
      DistinctProperties(init);
      assert s[|s| - 1] !in init;
      assert s == init + [s[|s| - 1]];
    }
  }

  /** The index of the first occurrence of `x` in `s`. */
  function FirstIndex<T(==)>(s: seq<T>, x: T): (k: nat)
    requires x in s
    ensures k < |s| && s[k] == x && forall j :: 0 <= j < k ==> s[j] != x
  {
    if s[0] == x then 0 else 1 + FirstIndex(s[1..], x)
  }

  /** Extending a sequence leaves the first occurrence of each of its elements where it was. */
  lemma FirstIndexExtend<T>(s: seq<T>, y: T, x: T)
    requires x in s
    ensures x in s + [y] && FirstIndex(s + [y], x) == FirstIndex(s, x)
  {
    var k := FirstIndex(s, x);
    var k2 := FirstIndex(s + [y], x);
    assert (s + [y])[k] == x;
    assert !(k2 < k) && !(k < k2);
  }

  /** The kept elements are in the order of their first occurrences. */
  lemma {:induction false} DistinctKeepsFirstOrder<T>(s: seq<T>)
    ensures forall i, j :: 0 <= i < j < |Distinct(s)| ==>
      Distinct(s)[i] in s && Distinct(s)[j] in s && FirstIndex(s, Distinct(s)[i]) < FirstIndex(s, Distinct(s)[j])
    decreases |s|
  {
    DistinctProperties(s);
    if s != [] {
      var init := s[..|s| - 1];
      var last := s[|s| - 1];
      var d := Distinct(init);
      DistinctKeepsFirstOrder(init);
      DistinctProperties(init);
      assert s == init + [last];
      var ds := Distinct(s);
      assert ds == if last in d then d else d + [last];
      forall i, j | 0 <= i < j < |ds|
        ensures ds[i] in s && ds[j] in s && FirstIndex(s, ds[i]) < FirstIndex(s, ds[j])
      {
        assert ds[i] == d[i] && d[i] in d;
        FirstIndexExtend(init, last, ds[i]);
        if j < |d| {
          assert ds[j] == d[j] && d[j] in d;
          FirstIndexExtend(init, last, ds[j]);
        } else {
          assert last !in init && ds[j] == last;
          assert FirstIndex(s, ds[j]) == |init|;
        }
      }
    }
  }

  /** `temp` de-duplicated by the comprehension `[records.append(r) for r in temp if r not in records]`. */
  method Dedup<T(==)>(temp: seq<T>) returns (records: seq<T>)
    ensures records == Distinct(temp)
  {
    records := [];
    var i := 0;
    while i < |temp|
      invariant 0 <= i <= |temp|
      invariant records == Distinct(temp[..i])
    {
      assert temp[..i + 1][..i] == temp[..i];
      if temp[i] !in records {
        records := records + [temp[i]];
      }
      i := i + 1;
    }
    assert temp[..i] == temp;
  }

  // ---------------------------------------------------------------------------
  // The role list

  /** The queries `get_roles_list` sends: all roles, the roles granted one permit, or the roles whose name matches a pattern. */
  datatype RoleQuery =
    | AllRoles(order: Option<string>, direction: Option<string>)
    | WithPermit(permit: string, order: Option<string>, direction: Option<string>)
    | NameLike(pattern: string, order: Option<string>, direction: Option<string>)

  /**
   * The sort parameters as normalised: `order` lower-cased when given and
   * `direction` upper-cased only then (None otherwise). A given order with no
   * direction calls `upper()` on None: an AttributeError (None here).
   */
  function NormalizeSort(order: Option<string>, direction: Option<string>): (r: Option<(Option<string>, Option<string>)>)
    ensures r.None? <==> order.Some? && direction.None?
    ensures order.None? ==> r == Some((None, None))
    ensures order.Some? && direction.Some? ==> r == Some((Some(Lower(order.value)), Some(Upper(direction.value))))
  {
    if order.None? then Some((None, None))
    else if direction.None? then None
    else Some((Some(Lower(order.value)), Some(Upper(direction.value))))
  }

  /** The concatenation of the answers to each permit, as `results.extend` builds it. */
  function Merged<T>(permits: seq<string>, sort: (Option<string>, Option<string>), fetch: RoleQuery -> seq<T>)
      : (r: seq<T>)
    ensures forall i :: 0 <= i < |r| ==>
      exists k :: 0 <= k < |permits| && r[i] in fetch(WithPermit(permits[k], sort.0, sort.1))
  {
    if permits == [] then []
    else Merged(permits[..|permits| - 1], sort, fetch) + fetch(WithPermit(permits[|permits| - 1], sort.0, sort.1))
  }

  /** The roles found for a non-empty search against the whitelist `perms`, before de-duplication is decided. */
  function SearchResult(perms: seq<Functionality>, search: string, sort: (Option<string>, Option<string>),
                        fetch: RoleQuery -> seq<Role>): (r: seq<Role>)
    ensures FirstFunctionality(perms, Upper(search)) != "" ==> NoDuplicates(r)
  {
    var funct := FirstFunctionality(perms, Upper(search));
    if funct != "" then
      DistinctProperties(Merged(PermitsOf(perms, funct), sort, fetch));
      Distinct(Merged(PermitsOf(perms, funct), sort, fetch))
    else fetch(NameLike("%" + Lower(search) + "%", sort.0, sort.1))
  }

  /** `results.extend(...)` over the permits, one query each, in order. */
  method MergePermits(permits: seq<string>, sort: (Option<string>, Option<string>), fetch: RoleQuery -> seq<Role>)
      returns (results: seq<Role>)
    ensures results == Merged(permits, sort, fetch)
  {
    results := [];
    var k := 0;
    while k < |permits|
      invariant 0 <= k <= |permits|
      invariant results == Merged(permits[..k], sort, fetch)
    {
      assert permits[..k + 1][..k] == permits[..k];
      results := results + fetch(WithPermit(permits[k], sort.0, sort.1));
      k := k + 1;
    }
    assert permits[..k] == permits;
  }

  /**
   * The search branch of `get_roles_list` over a whitelist: the roles granted
   * any route of the first functionality whose name contains the upper-cased
   * search, merged and de-duplicated; when no functionality matches, the roles
   * whose lower-cased name matches `%search%`, lower-cased.
   */
  method SearchRoles(perms: seq<Functionality>, search: string, sort: (Option<string>, Option<string>),
                     fetch: RoleQuery -> seq<Role>)
      returns (records: seq<Role>)
    ensures records == SearchResult(perms, search, sort, fetch)
  {
    var found := CheckFunctionality(perms, Upper(search));
    if |found| > 0 {
      var permitList := GetPermits(perms, found);
      var results := MergePermits(permitList, sort, fetch);
      records := Dedup(results);
    } else {
      records := fetch(NameLike("%" + Lower(search) + "%", sort.0, sort.1));
    }
  }

  /**
   * `get_roles_list`. `fetch` stands for the database's answer to a query.
   * No search (None or ""): every role; otherwise the search branch over
   * `get_permissions()`. None for the AttributeError of a missing direction.
   */
  method GetRolesList(search: Option<string>, order: Option<string>, direction: Option<string>,
                      fetch: RoleQuery -> seq<Role>)
      returns (result: Option<seq<Role>>)
    ensures result.None? <==> NormalizeSort(order, direction).None?
    ensures result.Some? && (search.None? || search.value == "") ==>
      result.value == fetch(AllRoles(NormalizeSort(order, direction).value.0, NormalizeSort(order, direction).value.1))
    ensures result.Some? && search.Some? && search.value != "" ==>
      result.value == SearchResult(GetPermissions(), search.value, NormalizeSort(order, direction).value, fetch)
  {
    var normal := NormalizeSort(order, direction);
    if normal.None? {
      return None;
    }
    var sort := normal.value;
    var records: seq<Role>;
    if search.None? || search.value == "" {
      records := fetch(AllRoles(sort.0, sort.1));
    } else {
      records := SearchRoles(GetPermissions(), search.value, sort, fetch);
    }
    if |records| == 0 {
      return Some([]);
    }
    return Some(records);
  }

  /** The whitelist has one functionality, so a search finds "USUARIOS" or nothing. */
  lemma WhitelistFunctionality(search: string)
    ensures FirstFunctionality(GetPermissions(), search) == if Occurs(search, "USUARIOS") then "USUARIOS" else ""
  {
    var perms := GetPermissions();
    assert perms[1..] == [];
  }

  /** The permits of "USUARIOS" are the fourteen user-management routes, in order. */
  lemma WhitelistPermits()
    ensures PermitsOf(GetPermissions(), "USUARIOS") == UserRouteNames
  {
    var perms := GetPermissions();
    RouteNamesAre(perms[0].routes, UserRouteNames);
  }

  /** A search inside no functionality name falls back to the name pattern; one inside "USUARIOS" lists the roles granted a user-management route. */
  lemma SearchBranches(search: string, sort: (Option<string>, Option<string>), fetch: RoleQuery -> seq<Role>)
    ensures !Occurs(Upper(search), "USUARIOS") ==>
      SearchResult(GetPermissions(), search, sort, fetch) == fetch(NameLike("%" + Lower(search) + "%", sort.0, sort.1))
    ensures Occurs(Upper(search), "USUARIOS") ==>
      SearchResult(GetPermissions(), search, sort, fetch) == Distinct(Merged(UserRouteNames, sort, fetch))
  {
    WhitelistFunctionality(Upper(search));
    WhitelistPermits();
  }

  lemma RouteNamesAre(routes: seq<Route>, names: seq<string>)
    requires |routes| == |names| && forall j :: 0 <= j < |routes| ==> routes[j].name == names[j]
    ensures RouteNames(routes) == names
  {
  }

  // ---------------------------------------------------------------------------
  // The repository

  class RoleRepository {
    var roles: map<Uuid, Role>

    /** Every role is stored under its own id. */
    ghost predicate Valid()
      reads this
    {
      forall id :: id in roles ==> roles[id].id == id
    }

    constructor (initial: map<Uuid, Role>)
      requires forall id :: id in initial ==> initial[id].id == id
      ensures Valid() && roles == initial
    {
      roles := initial;
    }

    /** `create_role`: `preprocess_create` defaults the id, `is_active` and both timestamps; the role is inserted. */
    method CreateRole(r: RoleIn, newId: Uuid, createdAt: Time, updatedAt: Time) returns (created: Role)
      requires Valid() && newId !in roles
      modifies this
      ensures Valid()
      ensures created == Role(newId, r.role, r.permissions, true, r.createdBy, r.updatedBy, createdAt, updatedAt)
      ensures roles == old(roles)[newId := created]
    {
      created := Role(newId, r.role, r.permissions, true, r.createdBy, r.updatedBy, createdAt, updatedAt);
      roles := roles[newId := created];
    }

    /** `get_role_by_name`: a role with exactly that name, when there is one. */
    method GetRoleByName(name: string) returns (found: Option<Role>)
      requires Valid()
      ensures found.None? <==> forall id :: id in roles ==> roles[id].role != name
      ensures found.Some? ==> found.value.id in roles && roles[found.value.id] == found.value && found.value.role == name
    {
      if exists id :: id in roles && roles[id].role == name {
        var id :| id in roles && roles[id].role == name;
        found := Some(roles[id]);
      } else {
        found := None;
      }
    }

    /** `get_role_by_id`: the stored role, or `{}` (None). */
    method GetRoleById(id: Uuid) returns (found: Option<Role>)
      requires Valid()
      ensures found.None? <==> id !in roles
      ensures found.Some? ==> found.value == roles[id]
    {
      if id in roles {
        found := Some(roles[id]);
      } else {
        found := None;
      }
    }

    /**
     * The row `UPDATE_ROLE_BY_ID` writes for a stored role: the role as
     * `GET_ROLE_BY_ID` reads it, which does not select `created_by`, so that
     * field is written back as None; stamped with the actor and the instant.
     */
    static function Restamped(stored: Role, updatedById: Uuid, now: Time): (r: Role)
      ensures r.id == stored.id && r.role == stored.role && r.permissions == stored.permissions
      ensures r.isActive == stored.isActive && r.createdAt == stored.createdAt
      ensures r.createdBy == None && r.updatedBy == Some(updatedById) && r.updatedAt == now
    {
      stored.(createdBy := None, updatedBy := Some(updatedById), updatedAt := now)
    }

    /**
     * `update_role`: `{}` (None) for an unknown id; otherwise the stored role,
     * restamped, with the fields set in the patch laid over it.
     */
    method UpdateRole(id: Uuid, u: RoleUpdate, updatedById: Uuid, now: Time) returns (result: Option<Role>)
      requires Valid()
      modifies this
      ensures Valid()
      ensures id !in old(roles) ==> result.None? && roles == old(roles)
      ensures id in old(roles) ==>
        var r := Restamped(old(roles)[id], updatedById, now).(role := Overlay(old(roles)[id].role, u.role),
                                                               permissions := Overlay(old(roles)[id].permissions, u.permissions));
        result == Some(r) && roles == old(roles)[id := r]
    {
      var role := GetRoleById(id);
      if role.None? {
        return None;
      }
      var r := Restamped(role.value, updatedById, now);
      r := r.(role := Overlay(r.role, u.role), permissions := Overlay(r.permissions, u.permissions));
      roles := roles[id := r];
      result := Some(r);
    }

    /** `update_active_role`: as `update_role`, for the activity flag. */
    method UpdateActiveRole(id: Uuid, u: RoleUpdateActive, updatedById: Uuid, now: Time) returns (result: Option<Role>)
      requires Valid()
      modifies this
      ensures Valid()
      ensures id !in old(roles) ==> result.None? && roles == old(roles)
      ensures id in old(roles) ==>
        var r := Restamped(old(roles)[id], updatedById, now).(isActive := Overlay(old(roles)[id].isActive, u.isActive));
        result == Some(r) && roles == old(roles)[id := r]
    {
      var role := GetRoleById(id);
      if role.None? {
        return None;
      }
      var r := Restamped(role.value, updatedById, now);
      r := r.(isActive := Overlay(r.isActive, u.isActive));
      roles := roles[id := r];
      result := Some(r);
    }

    /** `delete_role`: `{}` (None) and nothing deleted for an unknown id; otherwise the role is removed. */
    method DeleteRole(id: Uuid) returns (result: Option<Uuid>)
      requires Valid()
      modifies this
      ensures Valid()
      ensures id !in old(roles) ==> result.None? && roles == old(roles)
      ensures id in old(roles) ==> result == Some(id) && roles == old(roles) - {id}
    {
      var role := GetRoleById(id);
      if role.None? {
        return None;
      }
      roles := roles - {id};
      result := Some(id);
    }
  }
}
