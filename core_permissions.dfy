/**
 * The permission classes of ggongsul/core/permissions.py.
 */
module CorePermissions {
  import opened Wrappers

  /**
   * The position of the first entry of view.action_permissions (in mapping order)
   * whose action list contains action, if any.
   */
  function FirstMatch<K>(mapping: seq<(K, seq<string>)>, action: string): (k: Option<nat>)
    ensures k.Some? ==> k.value < |mapping| && action in mapping[k.value].1
                        && forall j :: 0 <= j < k.value ==> action !in mapping[j].1
    ensures k.None? ==> forall j :: 0 <= j < |mapping| ==> action !in mapping[j].1
  {
    if mapping == [] then None
    else if action in mapping[0].1 then Some(0)
    else
      var k := FirstMatch(mapping[1..], action);
      assert forall j :: 0 < j < |mapping| ==> mapping[j] == mapping[1..][j - 1];
      if k.Some? then Some(k.value + 1) else None
  }

  /**
   * ActionBasedPermission.has_permission: the verdict of the permission class
   * of the first entry listing the view's action; denied when none lists it (or
   * the view has no mapping: an empty one). hasPermission(klass) is
   * klass().has_permission(request, view).
   */
  function ActionBasedPermission<K>(mapping: seq<(K, seq<string>)>, action: string, hasPermission: K -> bool): (allowed: bool)
    ensures allowed <==> exists i :: 0 <= i < |mapping| && action in mapping[i].1
                                     && (forall j :: 0 <= j < i ==> action !in mapping[j].1)
                                     && hasPermission(mapping[i].0)
  {
    var k := FirstMatch(mapping, action);
    if k.None? then false
    else
      assert forall i :: (0 <= i < |mapping| && action in mapping[i].1
                          && (forall j :: 0 <= j < i ==> action !in mapping[j].1)) ==> i == k.value;
      hasPermission(mapping[k.value].0)
  }

  /** A later entry listing the same action never decides: the earlier entry wins. */
  lemma EarlierEntryWins<K>(mapping: seq<(K, seq<string>)>, action: string, hasPermission: K -> bool, i: nat)
    requires i < |mapping| && action in mapping[i].1
    requires forall j :: 0 <= j < i ==> action !in mapping[j].1
    ensures ActionBasedPermission(mapping, action, hasPermission) == hasPermission(mapping[i].0)
  {
  }

  /** request.user: None, or a user with its authentication state and benefits. */
  datatype User = User(isAuthenticated: bool, hasMembershipBenefits: bool)

  /** HasMembershipBenefits.has_permission: a present, authenticated user with benefits. */
  function HasMembershipBenefitsPermission(user: Option<User>): (allowed: bool)
    ensures allowed <==> user.Some? && user.value.isAuthenticated && user.value.hasMembershipBenefits
  {
    match user
    case None => false
    case Some(u) => u.isAuthenticated && u.hasMembershipBenefits
  }

  /** Line 21 as written: the bound method is truthy, so benefits are never checked. */
  function HasMembershipBenefitsPermissionAsWritten(user: Option<User>): bool
  {
    user.Some? && user.value.isAuthenticated
  }

  /** As written, any authenticated member is let through, with or without benefits. */
  lemma PermissionAsWrittenIgnoresBenefits()
    ensures HasMembershipBenefitsPermissionAsWritten(Some(User(true, false)))
    ensures !HasMembershipBenefitsPermission(Some(User(true, false)))
  {
  }
}
