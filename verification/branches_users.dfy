/** Users' branches: the allowed branches and the default one, the two
    constraints that keep the default among the allowed, and which writes
    clear the access caches. */
module BranchUsers {
  import opened Wrappers

  /** A user's branch fields: `branch_ids` (allowed) and `branch_id`
      (default). */
  datatype User = User(id: nat, active: bool, allowed: set<nat>, default: Option<nat>)

  /** The rule both constraints enforce: with allowed branches and a default
      set, the default is among the allowed. */
  predicate DefaultAllowed(u: User) {
    u.allowed == {} || u.default.None? || u.default.value in u.allowed
  }

  datatype Error = NotAllowedBranch(user: nat) | BranchNotInAllowed(user: nat)

  /** `_check_branch_id`: checks every user; the first offender raises. */
  function CheckBranchId(users: seq<User>): (r: Outcome<Error>)
    ensures r == Pass <==> forall k :: 0 <= k < |users| ==> DefaultAllowed(users[k])
    ensures r.Fail? ==> exists k :: 0 <= k < |users| && !DefaultAllowed(users[k]) && r.error == NotAllowedBranch(users[k].id)
  {
    if users == [] then Pass
    else if !DefaultAllowed(users[0]) then Fail(NotAllowedBranch(users[0].id))
    else
      assert forall k :: 1 <= k < |users| ==> users[k] == users[1..][k - 1];
      CheckBranchId(users[1..])
  }

  /** `_check_branch`: the same rule, on active users only. */
  function CheckBranch(users: seq<User>): (r: Outcome<Error>)
    ensures r == Pass <==> forall k :: 0 <= k < |users| && users[k].active ==> DefaultAllowed(users[k])
    ensures r.Fail? ==> exists k :: 0 <= k < |users| && users[k].active && !DefaultAllowed(users[k])
                                    && r.error == BranchNotInAllowed(users[k].id)
  {
    if users == [] then Pass
    else if users[0].active && !DefaultAllowed(users[0]) then Fail(BranchNotInAllowed(users[0].id))
    else
      assert forall k :: 1 <= k < |users| ==> users[k] == users[1..][k - 1];
      CheckBranch(users[1..])
  }

  /** The second check never refuses what the first accepts; only the first
      catches an archived user with a stray default. */
  lemma FirstCheckSubsumesSecond(users: seq<User>)
    ensures CheckBranchId(users) == Pass ==> CheckBranch(users) == Pass
  {
  }

  lemma ArchivedUserOnlyFailsFirst(u: User)
    requires !u.active && !DefaultAllowed(u)
    ensures CheckBranchId([u]).Fail? && CheckBranch([u]) == Pass
  {
  }

  /** The user fields a write can touch. */
  datatype Field = BranchField | AllowedBranchesField | OtherField(name: string)

  /** `write`: whether the access caches are cleared before writing. */
  function WriteClearsCaches(touched: set<Field>): (b: bool)
    ensures b <==> exists f :: f in touched && !f.OtherField?
  {
    BranchField in touched || AllowedBranchesField in touched
  }
}
