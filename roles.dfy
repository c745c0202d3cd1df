/**
 * The role-list edits shared by the user controller and the admin routes:
 * `roles.includes`, `roles.push` and `roles.indexOf` + `roles.splice(i, 1)`
 * on the `roles` member of a user document, which may not be an array.
 */
module Roles {
  import opened Js

  /** `items.indexOf(x)` for an element that is present: its first position. */
  function IndexOf(items: seq<Value>, x: Value): (i: nat)
    requires x in items
    ensures i < |items| && items[i] == x
    ensures forall j :: 0 <= j < i ==> items[j] != x
  {
    if items[0] == x then 0 else 1 + IndexOf(items[1..], x)
  }

  /**
   * The add edit: a `roles` that is not an array becomes `[role]`; a role
   * already in the array is a conflict (`None`); otherwise it is appended.
   */
  function AddedRoles(roles: Value, role: Value): (r: Option<seq<Value>>)
    ensures r.None? <==> roles.Arr? && role in roles.items
    ensures r.Some? ==> role in r.value
    ensures !roles.Arr? ==> r == Some([role])
    ensures roles.Arr? && role !in roles.items ==> r == Some(roles.items + [role])
  {
    if !roles.Arr? then Some([role])
    else if role in roles.items then None
    else Some(roles.items + [role])
  }

  /**
   * The remove edit: the first occurrence of the role is spliced out; a
   * `roles` that is not an array, or lacks the role, is gone (`None`).
   */
  function RemovedRoles(roles: Value, role: Value): (r: Option<seq<Value>>)
    ensures r.None? <==> !(roles.Arr? && role in roles.items)
    ensures r.Some? ==> |r.value| == |roles.items| - 1
  {
    if roles.Arr? && role in roles.items then
      var i := IndexOf(roles.items, role);
      Some(roles.items[..i] + roles.items[i + 1..])
    else None
  }

  /** No role occurs twice. */
  predicate Distinct(items: seq<Value>) {
    forall i, j :: 0 <= i < j < |items| ==> items[i] != items[j]
  }

  // ----- properties -----

  /** Adding to an array keeps every existing role in its place and puts the new one last. */
  lemma AddAppends(items: seq<Value>, role: Value)
    requires role !in items
    ensures var r := AddedRoles(Arr(items), role).value;
      |r| == |items| + 1 && r[..|items|] == items && r[|items|] == role
  {
  }

  /** Splicing out position `i` keeps the prefix, shifts the suffix up by one and drops one copy of `s[i]`. */
  lemma Splice(s: seq<Value>, i: nat)
    requires i < |s|
    ensures var r := s[..i] + s[i + 1..];
      && r[..i] == s[..i]
      && (forall j :: i <= j < |r| ==> r[j] == s[j + 1])
      && multiset(r) == multiset(s) - multiset{s[i]}
  {
    var before, after := s[..i], s[i + 1..];
    var r := before + after;
    assert r[..i] == before;
    assert s == before + [s[i]] + after;
    assert multiset(s) == multiset(before) + multiset{s[i]} + multiset(after);
  }

  /**
   * Removing takes out exactly one copy of the role: the roles before its
   * first occurrence stay in place, those after it move up by one, and the
   * multiset of roles loses that one copy.
   */
  lemma RemoveFirstOccurrence(items: seq<Value>, role: Value)
    requires role in items
    ensures var r := RemovedRoles(Arr(items), role).value;
      var i := IndexOf(items, role);
      && r[..i] == items[..i] && role !in r[..i]
      && (forall j :: i <= j < |r| ==> r[j] == items[j + 1])
      && multiset(r) == multiset(items) - multiset{role}
  {
    var i := IndexOf(items, role);
    var r := items[..i] + items[i + 1..];
    assert RemovedRoles(Arr(items), role) == Some(r);
    Splice(items, i);
    assert items[i] == role;
    assert forall j :: 0 <= j < i ==> items[..i][j] != role;
  }

  /** Removing a role just added gives the original list back. */
  lemma RemoveUndoesAdd(items: seq<Value>, role: Value)
    requires role !in items
    ensures RemovedRoles(Arr(AddedRoles(Arr(items), role).value), role) == Some(items)
  {
    var r := items + [role];
    assert r[|items|] == role;
    assert forall j :: 0 <= j < |items| ==> r[j] == items[j];
    assert IndexOf(r, role) == |items|;
    assert r[..|items|] == items && r[|items| + 1..] == [];
    assert items + [] == items;
  }

  /** Adding keeps a list free of duplicates. */
  lemma AddKeepsDistinct(roles: Value, role: Value)
    requires roles.Arr? ==> Distinct(roles.items)
    requires AddedRoles(roles, role).Some?
    ensures Distinct(AddedRoles(roles, role).value)
  {
  }

  /** On a duplicate-free list, removing a role takes away every copy of it. */
  lemma RemoveClearsDistinct(items: seq<Value>, role: Value)
    requires Distinct(items) && role in items
    ensures var r := RemovedRoles(Arr(items), role).value;
      Distinct(r) && role !in r
  {
    var i := IndexOf(items, role);
    var r := RemovedRoles(Arr(items), role).value;
    assert r == items[..i] + items[i + 1..];
    forall j | 0 <= j < |r| ensures r[j] != role {
      if j < i {
        assert r[j] == items[j];
      } else {
        assert r[j] == items[j + 1];
      }
    }
    forall a, b | 0 <= a < b < |r| ensures r[a] != r[b] {
      var a' := if a < i then a else a + 1;
      var b' := if b < i then b else b + 1;
      assert r[a] == items[a'] && r[b] == items[b'];
    }
  }
}
