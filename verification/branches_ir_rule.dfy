/** The `branch_ids` value record rules are evaluated with, and the cache
    key that keeps rule domains apart per branch selection. */
module BranchRecordRules {
  import opened Wrappers
  import opened BranchUsers

  /** `_eval_context`'s `branch_ids`: the branches selected in the context;
      else the user's allowed branches (`ordered` lists them as the user's
      record does); else the default branch alone; else nothing. */
  function EvalBranchIds(contextBranches: seq<nat>, u: User, ordered: seq<nat>): (r: seq<nat>)
    requires forall b :: b in ordered <==> b in u.allowed
    ensures contextBranches != [] ==> r == contextBranches
    ensures contextBranches == [] && u.allowed != {} ==> r == ordered
    ensures contextBranches == [] && u.allowed == {} && u.default.Some? ==> r == [u.default.value]
    ensures contextBranches == [] && u.allowed == {} && u.default.None? ==> r == []
  {
    if contextBranches != [] then contextBranches
    else if u.allowed != {} then ordered
    else if u.default.Some? then [u.default.value]
    else []
  }

  /** Without a branch selection, the rules see at least the user's default
      branch whenever the branch constraints hold. */
  lemma FallbackKeepsDefault(u: User, ordered: seq<nat>)
    requires forall b :: b in ordered <==> b in u.allowed
    requires DefaultAllowed(u) && u.default.Some?
    ensures u.default.value in EvalBranchIds([], u, ordered)
  {
  }

  /** Rules see no branch at all only when neither the context nor the user
      names one. */
  lemma EmptyOnlyWithoutBranches(contextBranches: seq<nat>, u: User, ordered: seq<nat>)
    requires forall b :: b in ordered <==> b in u.allowed
    ensures EvalBranchIds(contextBranches, u, ordered) == []
            <==> contextBranches == [] && u.allowed == {} && u.default.None?
  {
    if u.allowed != {} {
      var b :| b in u.allowed;
      assert b in ordered;
    }
  }

  const BranchContextKey := "allowed_branch_ids"

  /** `_compute_domain_keys`: the parent's keys, then the branch selection. */
  function DomainKeys(parentKeys: seq<string>): (r: seq<string>)
    ensures |r| == |parentKeys| + 1
    ensures r[..|parentKeys|] == parentKeys
    ensures BranchContextKey in r
  {
    parentKeys + [BranchContextKey]
  }
}
