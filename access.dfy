/**
 * The role gate (src/middlewares/access.js): `access(role)` lets a request
 * through, answers 401, or answers 403, from the authentication the
 * earlier middleware left on the request.
 */
module Access {
  import opened Js

  datatype Decision = Next | Unauthorized | Forbidden

  /** `req.authenticated.user` when `req.authenticated` is an object, undefined otherwise. */
  function UserOf(authenticated: Value): Value {
    if authenticated.Obj? then Get(authenticated.fields, "user") else Undefined
  }

  /** `user && Array.isArray(user.roles)`. */
  predicate HasRoleList(user: Value) {
    Truthy(user) && user.Obj? && Get(user.fields, "roles").Arr?
  }

  /** The SYS shortcut: a system-administrator request asking for the `admin` role. */
  predicate SysShortcut(authMethod: Value, authenticated: Value, role: Value) {
    authMethod == Str("SYS") && Truthy(authenticated) && role == Str("admin")
  }

  /**
   * `access(role)(req, res, next)`: the SYS shortcut first; then 401 without
   * a user holding a role list; then 403 when a role is asked for and the
   * list lacks it; otherwise through.
   */
  function Decide(authMethod: Value, authenticated: Value, role: Value): (r: Decision)
    ensures r == Unauthorized <==> !SysShortcut(authMethod, authenticated, role) && !HasRoleList(UserOf(authenticated))
    ensures r == Forbidden <==>
      && !SysShortcut(authMethod, authenticated, role)
      && HasRoleList(UserOf(authenticated))
      && Truthy(role) && role !in Get(UserOf(authenticated).fields, "roles").items
  {
    if SysShortcut(authMethod, authenticated, role) then Next
    else
      var user := UserOf(authenticated);
      if !HasRoleList(user) then Unauthorized
      else if Truthy(role) && role !in Get(user.fields, "roles").items then Forbidden
      else Next
  }

  /** The shortcut concerns the `admin` role only: for any other role SYS is treated like any method. */
  lemma SysShortcutOnlyForAdmin(authMethod: Value, authenticated: Value, role: Value)
    requires role != Str("admin")
    ensures Decide(authMethod, authenticated, role) == Decide(Undefined, authenticated, role)
  {
  }

  /** Without a role to check, any user with a role list gets through, whatever the list holds. */
  lemma NoRoleAdmitsAnyUser(authMethod: Value, authenticated: Value, role: Value)
    requires !Truthy(role) && HasRoleList(UserOf(authenticated))
    ensures Decide(authMethod, authenticated, role) == Next
  {
  }

  /** Granting the role can only open the gate: a user refused with 403 passes once the role is in the list. */
  lemma GrantingRoleAdmits(authMethod: Value, user: Object, role: Value)
    requires Get(user, "roles").Arr?
    requires Decide(authMethod, Obj(map["user" := Obj(user)]), role) == Forbidden
    ensures Decide(authMethod, Obj(map["user" := Obj(user["roles" := Arr(Get(user, "roles").items + [role])])]), role)
            == Next
  {
    var granted := user["roles" := Arr(Get(user, "roles").items + [role])];
    assert role in Get(granted, "roles").items;
  }
}
