/** Storekeeper rules on stock pickings: who may validate an internal
    transfer, and which storekeepers are mailed when a transfer is created. */
module StorekeeperPicking {
  import opened Wrappers
  import opened Stock

  /** What the rules read from a picking: its operation type and the
      warehouses of its source and destination locations. */
  datatype PickingView = PickingView(
    id: nat,
    code: OperationCode,
    sourceWarehouse: Option<Warehouse>,
    destWarehouse: Option<Warehouse>)

  /** The current user and the purchase-request groups it belongs to. */
  datatype User = User(id: nat, storekeeperGroup: bool, administrator: bool, manager: bool)

  /** The destination warehouse and its storekeeper, as the refusal names them. */
  datatype Error = CannotValidate(picking: nat, warehouse: Option<nat>, storekeeper: Option<nat>)

  /** The user is the storekeeper of the picking's destination warehouse. */
  predicate IsDestStorekeeper(p: PickingView, user: User) {
    p.destWarehouse.Some? && p.destWarehouse.value.storekeeper == Some(user.id)
  }

  /** `_check_storekeeper_validation`. */
  function CanValidate(p: PickingView, user: User): (r: bool)
    ensures p.code != Internal ==> r
    ensures !user.storekeeperGroup || user.administrator || user.manager ==> r
    ensures p.code == Internal && user.storekeeperGroup && !user.administrator && !user.manager
            ==> (r <==> IsDestStorekeeper(p, user))
  {
    if p.code != Internal then true
    else if !user.storekeeperGroup then true
    else if user.administrator then true
    else if user.manager then true
    else IsDestStorekeeper(p, user)
  }

  /** `button_validate`: every picking is checked before the parent
      validation runs; the first refused picking stops it. */
  method ButtonValidate(pickings: seq<PickingView>, user: User) returns (r: Outcome<Error>)
    ensures r == Pass <==> forall k :: 0 <= k < |pickings| ==> CanValidate(pickings[k], user)
    ensures r.Fail? ==>
      exists k :: 0 <= k < |pickings| && !CanValidate(pickings[k], user)
                  && (forall j :: 0 <= j < k ==> CanValidate(pickings[j], user))
                  && r.error == CannotValidate(pickings[k].id,
                                               if pickings[k].destWarehouse.Some? then Some(pickings[k].destWarehouse.value.id) else None,
                                               StorekeeperOf(pickings[k].destWarehouse))
  {
    for k := 0 to |pickings|
      invariant forall j :: 0 <= j < k ==> CanValidate(pickings[j], user)
    {
      var p := pickings[k];
      if !CanValidate(p, user) {
        var warehouse := if p.destWarehouse.Some? then Some(p.destWarehouse.value.id) else None;
        return Fail(CannotValidate(p.id, warehouse, StorekeeperOf(p.destWarehouse)));
      }
    }
    return Pass;
  }

  /** Which side of the transfer a notified storekeeper stands on. */
  datatype Side = SourceSide | DestinationSide

  datatype Mail = Mail(recipient: nat, email: string, side: Side)

  function StorekeeperOf(w: Option<Warehouse>): Option<nat> {
    if w.Some? then w.value.storekeeper else None
  }

  /** `_send_notification_email`: nothing when the user has no email. */
  function MailTo(user: nat, side: Side, emailOf: nat -> string): seq<Mail> {
    if emailOf(user) == "" then [] else [Mail(user, emailOf(user), side)]
  }

  /** `_send_storekeeper_notifications`, as the list of mails it sends. */
  function Notifications(templateFound: bool, p: PickingView, emailOf: nat -> string): (r: seq<Mail>)
    ensures !templateFound ==> r == []
    ensures p.code != Internal && p.code != Incoming ==> r == []
    ensures forall k :: 0 <= k < |r| ==> r[k].email != "" && r[k].email == emailOf(r[k].recipient)
    ensures forall k :: 0 <= k < |r| && r[k].side == SourceSide ==>
      p.code == Internal && StorekeeperOf(p.sourceWarehouse) == Some(r[k].recipient)
    ensures forall k :: 0 <= k < |r| && r[k].side == DestinationSide ==>
      StorekeeperOf(p.destWarehouse) == Some(r[k].recipient)
    ensures p.code == Incoming ==> |r| <= 1
  {
    if !templateFound then []
    else if p.code == Internal then
      var source := StorekeeperOf(p.sourceWarehouse);
      var dest := StorekeeperOf(p.destWarehouse);
      var toSource := if source.Some? then MailTo(source.value, SourceSide, emailOf) else [];
      var toDest := if dest.Some? && (p.sourceWarehouse.None? || source != dest)
                    then MailTo(dest.value, DestinationSide, emailOf) else [];
      toSource + toDest
    else if p.code == Incoming then
      var dest := StorekeeperOf(p.destWarehouse);
      if dest.Some? then MailTo(dest.value, DestinationSide, emailOf) else []
    else []
  }

  /** Nobody is mailed twice for the same picking. */
  lemma NoStorekeeperMailedTwice(templateFound: bool, p: PickingView, emailOf: nat -> string)
    ensures var r := Notifications(templateFound, p, emailOf);
            forall i, j :: 0 <= i < j < |r| ==> r[i].recipient != r[j].recipient
  {
  }

  /** A receipt mails the storekeeper of its destination warehouse when
      that storekeeper has an address, and nobody else. */
  lemma IncomingReachesDestination(p: PickingView, emailOf: nat -> string)
    requires p.code == Incoming
    ensures var r := Notifications(true, p, emailOf);
            var dest := StorekeeperOf(p.destWarehouse);
            (dest.Some? && emailOf(dest.value) != "" ==> r == [Mail(dest.value, emailOf(dest.value), DestinationSide)])
            && (dest.None? || emailOf(dest.value) == "" ==> r == [])
  {
  }

  /** An internal transfer mails each of its storekeepers that has an
      address: the source one, and the destination one. */
  lemma InternalTransferReachesBoth(p: PickingView, emailOf: nat -> string)
    requires p.code == Internal
    ensures var r := Notifications(true, p, emailOf);
            var source := StorekeeperOf(p.sourceWarehouse);
            var dest := StorekeeperOf(p.destWarehouse);
            (source.Some? && emailOf(source.value) != "" ==> exists k :: 0 <= k < |r| && r[k].recipient == source.value)
            && (dest.Some? && emailOf(dest.value) != "" ==> exists k :: 0 <= k < |r| && r[k].recipient == dest.value)
  {
    var r := Notifications(true, p, emailOf);
    var source := StorekeeperOf(p.sourceWarehouse);
    var dest := StorekeeperOf(p.destWarehouse);
    if source.Some? && emailOf(source.value) != "" {
      assert r[0].recipient == source.value;
    }
    if dest.Some? && emailOf(dest.value) != "" {
      if source == dest {
        assert r[0].recipient == dest.value;
      } else {
        assert r[|r| - 1].recipient == dest.value;
      }
    }
  }
}
