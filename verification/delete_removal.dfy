/** The access check that reserves deletion to a group: an `unlink` the
    model's ordinary rights allow is still refused to a user outside the
    delete group, unless the environment runs as superuser. */
module DeleteRemoval {
  import opened Wrappers

  datatype AccessError = AccessError

  const Unlink := "unlink"

  /** The parent check's answer with `raise_exception` passed on: `base` is
      what it returns when asked not to raise. */
  function ParentCheck(base: bool, raiseException: bool): (r: Result<bool, AccessError>)
    ensures r.Err? <==> !base && raiseException
    ensures r.Ok? ==> r.value == base
  {
    if base then Ok(true) else if raiseException then Err(AccessError) else Ok(false)
  }

  /** The extra refusal: a non-superuser outside the delete group asking
      to unlink. */
  predicate DeleteRefused(operation: string, superuser: bool, inDeleteGroup: bool) {
    operation == Unlink && !superuser && !inDeleteGroup
  }

  /** `check_access_rights`: the parent is asked without raising; an
      allowed unlink may still be refused; a refusal raises only when
      `raise_exception` is set. */
  function CheckAccessRights(operation: string, raiseException: bool, base: bool, superuser: bool, inDeleteGroup: bool)
    : (r: Result<bool, AccessError>)
    ensures r.Err? <==> raiseException && (!base || DeleteRefused(operation, superuser, inDeleteGroup))
    ensures r.Ok? ==> (r.value <==> base && !DeleteRefused(operation, superuser, inDeleteGroup))
  {
    if operation == Unlink && base && !superuser && !inDeleteGroup then
      if raiseException then Err(AccessError) else Ok(false)
    else if !base && raiseException then Err(AccessError)
    else Ok(base)
  }

  /** Only deletion is affected: every other operation, and any operation
      run as superuser, gets the parent's answer. */
  lemma OnlyUnlinkRestricted(operation: string, raiseException: bool, base: bool, superuser: bool, inDeleteGroup: bool)
    requires operation != Unlink || superuser || inDeleteGroup
    ensures CheckAccessRights(operation, raiseException, base, superuser, inDeleteGroup) == ParentCheck(base, raiseException)
  {
  }

  /** The check never grants what the parent refuses. */
  lemma NeverWidens(operation: string, raiseException: bool, base: bool, superuser: bool, inDeleteGroup: bool)
    ensures CheckAccessRights(operation, raiseException, base, superuser, inDeleteGroup) == Ok(true) ==> base
  {
  }

  /** Outside the delete group and without superuser rights, no unlink is
      granted. */
  lemma UnlinkNeedsGroup(raiseException: bool, base: bool)
    ensures CheckAccessRights(Unlink, raiseException, base, false, false) != Ok(true)
  {
  }

  /** Raising and non-raising calls agree: the raising call fails exactly
      when the quiet one answers `False`. */
  lemma RaiseAgreesWithQuiet(operation: string, base: bool, superuser: bool, inDeleteGroup: bool)
    ensures CheckAccessRights(operation, true, base, superuser, inDeleteGroup).Err?
            <==> CheckAccessRights(operation, false, base, superuser, inDeleteGroup) == Ok(false)
  {
  }
}
