/**
 * The administrator routes (src/routes/admin.js): look a user up by id, and
 * add or remove one of its roles. Each handler appears twice: as written,
 * and as evidently intended; the intended role edits are those of the user
 * controller.
 */
module AdminRoutes {
  import opened Js
  import opened Cache
  import opened Roles
  import opened UserStore
  import opened UserController

  /** `User.findById(id)` over the stored users; an undefined id finds nothing. */
  function FindById(users: map<string, Snapshot>, id: Option<string>): (r: Option<Snapshot>)
    ensures r.Some? <==> id.Some? && id.value in users
  {
    if id.Some? && id.value in users then Some(users[id.value]) else None
  }

  /**
   * `GET /admin/users/:user_id` as written: it looks up `req.query.user_id`
   * rather than the path parameter, sends the result only when it is null,
   * and answers 404 when a user is found.
   */
  function GetUserAsWritten(users: map<string, Snapshot>, pathUserId: string, queryUserId: Option<string>): (r: Response)
    ensures r.SendUser? ==> r.user.None?
    ensures FindById(users, queryUserId).Some? <==> r == Status(NotFound)
  {
    var user := FindById(users, queryUserId);
    if user.None? then SendUser(user) else Status(NotFound)
  }

  /** `GET /admin/users/:user_id` as intended: the document of the path's id, or 404. */
  function GetUser(users: map<string, Snapshot>, pathUserId: string): (r: Response)
    ensures r.SendUser? <==> pathUserId in users
    ensures r.SendUser? ==> r.user == Some(users[pathUserId])
    ensures !r.SendUser? ==> r == Status(NotFound)
  {
    match FindById(users, Some(pathUserId))
    case Some(user) => SendUser(Some(user))
    case None => Status(NotFound)
  }

  /** As written, a stored user asked for by path alone is answered with `null`; as intended, with the user. */
  lemma GetUserDiscrepancy(users: map<string, Snapshot>, pathUserId: string)
    requires pathUserId in users
    ensures GetUserAsWritten(users, pathUserId, None) == SendUser(None)
    ensures GetUser(users, pathUserId) == SendUser(Some(users[pathUserId]))
  {
  }

  /**
   * `POST /admin/users/:user_id/roles` as written. The role comes from
   * `req.body.role`, while the validator demands `role_name`; and
   * `saveData(user)` passes the document where the context belongs, so it
   * throws before anything is saved or stamped: an edit is never persisted
   * and the request is never answered.
   */
  method AddRoleAsWritten(user: UserDoc?, body: Object) returns (res: Response)
    modifies user
    ensures user == null ==> res == Status(NotFound)
    ensures user != null ==>
      && user.persisted == old(user.persisted)
      && (AddedRoles(old(user.roles), Get(body, "role")).None? ==> res == Status(Conflict) && user.roles == old(user.roles))
      && (AddedRoles(old(user.roles), Get(body, "role")).Some? ==>
            res == NoResponse && user.roles == Arr(AddedRoles(old(user.roles), Get(body, "role")).value))
  {
    if user == null {
      return Status(NotFound);
    }
    var added := AddedRoles(user.roles, Get(body, "role"));
    if added.None? {
      return Status(Conflict);
    }
    user.roles := Arr(added.value);
    res := NoResponse;
  }

  /** A body the validator accepts carries `role_name` only, so the role read as written is undefined. */
  lemma RoleFieldMismatch(roleName: string)
    ensures AddedRoles(Arr([]), Get(map["role_name" := Str(roleName)], "role")) == Some([Undefined])
  {
    var body := map["role_name" := Str(roleName)];
    assert "role" != "role_name" by {
      assert |"role"| != |"role_name"|;
    }
    assert "role" !in body;
    assert Get(body, "role") == Undefined;
    var empty: seq<Value> := [];
    assert empty + [Undefined] == [Undefined];
    assert AddedRoles(Arr(empty), Undefined) == Some([Undefined]);
  }

  /** The add route as intended: the role is `role_name`, and the edit is saved through the context. */
  method AddRole(cache: TtlCache, user: UserDoc?, body: Object, now: int, saveSucceeds: bool) returns (res: Response)
    requires "role_name" in body && body["role_name"].Str?
    modifies cache, user
    ensures cache.now == old(cache.now)
    ensures user == null ==> res == Status(NotFound) && cache.entries == old(cache.entries)
    ensures user != null && AddedRoles(old(user.roles), body["role_name"]).Some? && saveSucceeds ==>
      && res == Status(Created)
      && user.persisted == Snapshot(Arr(AddedRoles(old(user.roles), body["role_name"]).value), Num(now))
    ensures user != null && AddedRoles(old(user.roles), body["role_name"]).None? ==>
      res == Status(Conflict) && user.persisted == old(user.persisted) && cache.entries == old(cache.entries)
  {
    res := UserController.AddRole(cache, user, body["role_name"].s, now, saveSucceeds);
  }

  /**
   * `DELETE /admin/users/:user_id/roles/:role_name` as written: the splice
   * happens in memory, then `saveData(user)` throws as in the add route.
   */
  method RemoveRoleAsWritten(user: UserDoc?, roleName: string) returns (res: Response)
    modifies user
    ensures user == null ==> res == Status(NotFound)
    ensures user != null ==>
      && user.persisted == old(user.persisted)
      && (RemovedRoles(old(user.roles), Str(roleName)).None? ==> res == Status(Gone) && user.roles == old(user.roles))
      && (RemovedRoles(old(user.roles), Str(roleName)).Some? ==>
            res == NoResponse && user.roles == Arr(RemovedRoles(old(user.roles), Str(roleName)).value))
  {
    if user == null {
      return Status(NotFound);
    }
    var removed := RemovedRoles(user.roles, Str(roleName));
    if removed.None? {
      return Status(Gone);
    }
    user.roles := Arr(removed.value);
    res := NoResponse;
  }

  /** The remove route as intended: the edit is saved through the context and 204 sent. */
  method RemoveRole(cache: TtlCache, user: UserDoc?, roleName: string, now: int, saveSucceeds: bool) returns (res: Response)
    modifies cache, user
    ensures cache.now == old(cache.now)
    ensures user == null ==> res == Status(NotFound) && cache.entries == old(cache.entries)
    ensures user != null && RemovedRoles(old(user.roles), Str(roleName)).Some? && saveSucceeds ==>
      && res == Status(NoContent)
      && user.persisted == Snapshot(Arr(RemovedRoles(old(user.roles), Str(roleName)).value), Num(now))
    ensures user != null && RemovedRoles(old(user.roles), Str(roleName)).None? ==>
      res == Status(Gone) && user.persisted == old(user.persisted) && cache.entries == old(cache.entries)
  {
    res := UserController.RemoveRole(cache, user, roleName, now, saveSucceeds);
  }
}
