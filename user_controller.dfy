/**
 * The role endpoints of the user controller (src/controllers/user.js):
 * `POST /user/role` adds a role and `DELETE /user/role` removes one, on
 * the document `findById` returned (`null` when there is none).
 */
module UserController {
  import opened Js
  import opened Cache
  import opened Roles
  import opened UserStore

  /** What the handler does with the response: a status, a user document, or nothing at all. */
  datatype Response = Status(code: int) | SendUser(user: Option<Snapshot>) | NoResponse

  const Created := 201
  const NoContent := 204
  const NotFound := 404
  const Conflict := 409
  const Gone := 410

  /**
   * Add `role`: 404 for a missing user; 409 for a role already held, with
   * nothing changed or saved; otherwise the edited list is saved and 201
   * sent. A rejected save leaves the request unanswered.
   */
  method AddRole(cache: TtlCache, user: UserDoc?, role: string, now: int, saveSucceeds: bool)
    returns (res: Response)
    modifies cache, user
    ensures cache.now == old(cache.now)
    ensures user == null ==> res == Status(NotFound) && cache.entries == old(cache.entries)
    ensures user != null && AddedRoles(old(user.roles), Str(role)).None? ==>
      && res == Status(Conflict) && cache.entries == old(cache.entries)
      && user.Current() == old(user.Current()) && user.persisted == old(user.persisted)
    ensures user != null && AddedRoles(old(user.roles), Str(role)).Some? ==>
      && user.Current() == Snapshot(Arr(AddedRoles(old(user.roles), Str(role)).value), Num(now))
      && (saveSucceeds ==>
            && res == Status(Created) && user.persisted == user.Current()
            && cache.entries == old(cache.entries)[TokenKey(user.id) := Entry(Num(now), old(cache.now) + StampTtl)])
      && (!saveSucceeds ==>
            && res == NoResponse && user.persisted == old(user.persisted) && cache.entries == old(cache.entries))
  {
    if user == null {
      return Status(NotFound);
    }
    var added := AddedRoles(user.roles, Str(role));
    if added.None? {
      return Status(Conflict);
    }
    user.roles := Arr(added.value);
    var saved := SaveData(cache, user, now, saveSucceeds);
    res := if saved.Some? then Status(Created) else NoResponse;
  }

  /**
   * Remove `role`: 404 for a missing user; 410 when `roles` is not an
   * array or lacks the role, with nothing changed or saved; otherwise the
   * first occurrence is spliced out, the list saved and 204 sent.
   */
  method RemoveRole(cache: TtlCache, user: UserDoc?, role: string, now: int, saveSucceeds: bool)
    returns (res: Response)
    modifies cache, user
    ensures cache.now == old(cache.now)
    ensures user == null ==> res == Status(NotFound) && cache.entries == old(cache.entries)
    ensures user != null && RemovedRoles(old(user.roles), Str(role)).None? ==>
      && res == Status(Gone) && cache.entries == old(cache.entries)
      && user.Current() == old(user.Current()) && user.persisted == old(user.persisted)
    ensures user != null && RemovedRoles(old(user.roles), Str(role)).Some? ==>
      && user.Current() == Snapshot(Arr(RemovedRoles(old(user.roles), Str(role)).value), Num(now))
      && (saveSucceeds ==>
            && res == Status(NoContent) && user.persisted == user.Current()
            && cache.entries == old(cache.entries)[TokenKey(user.id) := Entry(Num(now), old(cache.now) + StampTtl)])
      && (!saveSucceeds ==>
            && res == NoResponse && user.persisted == old(user.persisted) && cache.entries == old(cache.entries))
  {
    if user == null {
      return Status(NotFound);
    }
    var removed := RemovedRoles(user.roles, Str(role));
    if removed.None? {
      return Status(Gone);
    }
    user.roles := Arr(removed.value);
    var saved := SaveData(cache, user, now, saveSucceeds);
    res := if saved.Some? then Status(NoContent) else NoResponse;
  }
}
