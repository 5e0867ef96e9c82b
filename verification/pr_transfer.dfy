/** The wizard that turns the chosen availability rows into one internal
    transfer: a picking, one move per row, and one allocation per move
    linking it back to its purchase request line. */
module CreateTransferWizard {
  import opened Wrappers
  import opened Stock
  import opened PurchaseRequest
  import opened RequestAllocation

  /** A line of the transfer wizard. */
  datatype TransferLine = TransferLine(prLine: nat, product: nat, source: Option<Location>, qty: real, uom: Option<nat>)

  datatype Picking = Picking(id: nat, pickingType: nat, source: Option<Location>, dest: Option<Location>, origin: string)

  datatype Move = Move(
    id: nat,
    product: nat,
    qty: real,
    uom: Option<nat>,
    picking: nat,
    source: Option<Location>,
    dest: Option<Location>,
    prLine: nat)

  datatype Error = NoLines | NoPickingType

  /** The operation-type search: internal, of `warehouse`, and not
      archived (the default search leaves archived types out). */
  predicate InternalOf(t: PickingType, warehouse: nat) {
    t.active && t.code == Internal && t.warehouse == Some(warehouse)
  }

  /** The first type the search returns, as `search(..., limit=1)`, with
      `types` in search order. */
  function FirstInternalType(types: seq<PickingType>, warehouse: nat): (r: Option<PickingType>)
    ensures r.Some? ==> exists k :: 0 <= k < |types| && types[k] == r.value && InternalOf(types[k], warehouse)
                                    && forall j :: 0 <= j < k ==> !InternalOf(types[j], warehouse)
    ensures r.None? <==> forall k :: 0 <= k < |types| ==> !InternalOf(types[k], warehouse)
  {
    if types == [] then None
    else if InternalOf(types[0], warehouse) then Some(types[0])
    else
      var r := FirstInternalType(types[1..], warehouse);
      if r.Some? then
        var k :| 0 <= k < |types[1..]| && types[1..][k] == r.value && InternalOf(types[1..][k], warehouse)
                 && forall j :: 0 <= j < k ==> !InternalOf(types[1..][j], warehouse);
        assert types[k + 1] == r.value;
        assert forall j :: 1 <= j < k + 1 ==> types[j] == types[1..][j - 1];
        r
      else
        assert forall k :: 1 <= k < |types| ==> types[k] == types[1..][k - 1];
        r
  }

  /** `_find_internal_transfer_picking_type`: the source location's
      warehouse, else the company's first warehouse; then that warehouse's
      first internal operation type.  `companyWarehouses` is what the
      warehouse search of the request's company returns, archived
      warehouses left out, in search order. */
  function FindInternalPickingType(source: Option<Location>, companyWarehouses: seq<Warehouse>,
                                   types: seq<PickingType>): (r: Option<PickingType>)
    ensures source.Some? && source.value.warehouse.Some? ==>
      r == FirstInternalType(types, source.value.warehouse.value)
    ensures !(source.Some? && source.value.warehouse.Some?) && companyWarehouses != [] ==>
      r == FirstInternalType(types, companyWarehouses[0].id)
    ensures !(source.Some? && source.value.warehouse.Some?) && companyWarehouses == [] ==> r.None?
  {
    var warehouse := if source.Some? && source.value.warehouse.Some? then Some(source.value.warehouse.value)
                     else if companyWarehouses != [] then Some(companyWarehouses[0].id)
                     else None;
    if warehouse.Some? then FirstInternalType(types, warehouse.value) else None
  }

  /** The moves of the transfer, numbered from `firstMove`. */
  function MovesFor(lines: seq<TransferLine>, picking: nat, dest: Option<Location>, firstMove: nat): (r: seq<Move>)
    ensures |r| == |lines|
    ensures forall k :: 0 <= k < |r| ==>
      r[k] == Move(firstMove + k, lines[k].product, lines[k].qty, lines[k].uom, picking, lines[k].source, dest, lines[k].prLine)
  {
    seq(|lines|, k requires 0 <= k < |lines| =>
          Move(firstMove + k, lines[k].product, lines[k].qty, lines[k].uom, picking, lines[k].source, dest, lines[k].prLine))
  }

  /** The allocation values, one per move, before the ledger numbers them. */
  function AllocationsFor(lines: seq<TransferLine>, request: nat, firstMove: nat): (r: seq<Allocation>)
    ensures |r| == |lines|
    ensures forall k :: 0 <= k < |r| ==>
      r[k] == Allocation(0, lines[k].prLine, request, Some(firstMove + k), None, lines[k].qty, 0.0)
  {
    seq(|lines|, k requires 0 <= k < |lines| =>
          Allocation(0, lines[k].prLine, request, Some(firstMove + k), None, lines[k].qty, 0.0))
  }

  /** Every move has exactly one allocation, on the same request line and for
      the same quantity. */
  lemma MoveAllocationPairing(lines: seq<TransferLine>, picking: nat, dest: Option<Location>,
                              request: nat, firstMove: nat, firstId: nat)
    ensures var moves := MovesFor(lines, picking, dest, firstMove);
            var allocs := Numbered(AllocationsFor(lines, request, firstMove), firstId);
            |moves| == |allocs|
            && forall k :: 0 <= k < |moves| ==>
                 allocs[k].stockMove == Some(moves[k].id) && allocs[k].line == moves[k].prLine
                 && allocs[k].requestedQty == moves[k].qty && allocs[k].id == firstId + k
  {
  }

  /** Pickings and moves of the stock database. */
  class StockStore {
    var pickings: seq<Picking>
    var moves: seq<Move>
    var nextPicking: nat
    var nextMove: nat

    constructor ()
      ensures pickings == [] && moves == [] && nextPicking == 1 && nextMove == 1
    {
      pickings := [];
      moves := [];
      nextPicking := 1;
      nextMove := 1;
    }
  }

  /** `action_create_transfer`. */
  method ActionCreateTransfer(lines: seq<TransferLine>, dest: Option<Location>, requestId: nat,
                              request: Request, companyWarehouses: seq<Warehouse>, types: seq<PickingType>,
                              store: StockStore, ledger: Ledger)
    returns (r: Outcome<Error>)
    requires ledger.Valid()
    modifies request, store, ledger
    ensures ledger.Valid()
    ensures lines == [] ==> r == Fail(NoLines)
    ensures lines != [] && FindInternalPickingType(lines[0].source, companyWarehouses, types).None?
            ==> r == Fail(NoPickingType)
    ensures lines != [] && FindInternalPickingType(lines[0].source, companyWarehouses, types).Some?
            ==> r == Pass
    ensures r.Fail? ==>
      store.pickings == old(store.pickings) && store.moves == old(store.moves)
      && ledger.allocations == old(ledger.allocations) && request.state == old(request.state)
    ensures r == Pass ==>
      var pickingType := FindInternalPickingType(lines[0].source, companyWarehouses, types);
      pickingType.Some?
      && store.pickings == old(store.pickings)
           + [Picking(old(store.nextPicking), pickingType.value.id, lines[0].source, dest, request.name)]
      && store.moves == old(store.moves) + MovesFor(lines, old(store.nextPicking), dest, old(store.nextMove))
      && ledger.allocations == old(ledger.allocations)
           + Numbered(AllocationsFor(lines, requestId, old(store.nextMove)), old(ledger.nextId))
      && request.state == (if old(request.state) == Approved then InProgress else old(request.state))
    ensures request.name == old(request.name) && request.lines == old(request.lines)
    ensures request.previousState == old(request.previousState) && request.onHoldReason == old(request.onHoldReason)
  {
    if lines == [] {
      return Fail(NoLines);
    }
    var pickingType := FindInternalPickingType(lines[0].source, companyWarehouses, types);
    if pickingType.None? {
      return Fail(NoPickingType);
    }
    var pickingId := store.nextPicking;
    store.pickings := store.pickings + [Picking(pickingId, pickingType.value.id, lines[0].source, dest, request.name)];
    store.nextPicking := store.nextPicking + 1;

    CreateMoves(lines, pickingId, dest, requestId, store, ledger);
    if request.state == Approved {
      request.ButtonInProgress();
    }
    return Pass;
  }

  /** The loop of `action_create_transfer`: one move per line in the new
      picking, each with its allocation on the line's request line. */
  method CreateMoves(lines: seq<TransferLine>, pickingId: nat, dest: Option<Location>, requestId: nat,
                     store: StockStore, ledger: Ledger)
    requires ledger.Valid()
    modifies store, ledger
    ensures ledger.Valid()
    ensures store.pickings == old(store.pickings) && store.nextPicking == old(store.nextPicking)
    ensures store.moves == old(store.moves) + MovesFor(lines, pickingId, dest, old(store.nextMove))
    ensures ledger.allocations == old(ledger.allocations)
              + Numbered(AllocationsFor(lines, requestId, old(store.nextMove)), old(ledger.nextId))
  {
    var firstMove := store.nextMove;
    var firstId := ledger.nextId;
    var allocs := AllocationsFor(lines, requestId, firstMove);
    for k := 0 to |lines|
      invariant ledger.Valid()
      invariant store.nextMove == firstMove + k && ledger.nextId == firstId + k
      invariant store.pickings == old(store.pickings) && store.nextPicking == old(store.nextPicking)
      invariant store.moves == old(store.moves) + MovesFor(lines[..k], pickingId, dest, firstMove)
      invariant ledger.allocations == old(ledger.allocations) + Numbered(allocs[..k], firstId)
    {
      var line := lines[k];
      var moveId := store.nextMove;
      MovesForStep(lines, k, pickingId, dest, firstMove);
      store.moves := store.moves + [Move(moveId, line.product, line.qty, line.uom, pickingId, line.source, dest, line.prLine)];
      store.nextMove := store.nextMove + 1;
      NumberedStep(allocs, k, firstId);
      var created, _ := ledger.Create([allocs[k]]);
    }
    assert lines[..|lines|] == lines;
    assert allocs[..|lines|] == allocs;
  }

  lemma MovesForStep(lines: seq<TransferLine>, k: nat, picking: nat, dest: Option<Location>, firstMove: nat)
    requires k < |lines|
    ensures MovesFor(lines[..k + 1], picking, dest, firstMove)
            == MovesFor(lines[..k], picking, dest, firstMove)
               + [Move(firstMove + k, lines[k].product, lines[k].qty, lines[k].uom, picking, lines[k].source, dest, lines[k].prLine)]
  {
    var a := MovesFor(lines[..k + 1], picking, dest, firstMove);
    var b := MovesFor(lines[..k], picking, dest, firstMove);
    assert forall j :: 0 <= j < k ==> a[j] == b[j];
  }

  lemma NumberedStep(vals: seq<Allocation>, k: nat, firstId: nat)
    requires k < |vals|
    ensures Numbered(vals[..k + 1], firstId) == Numbered(vals[..k], firstId) + Numbered([vals[k]], firstId + k)
  {
    var a := Numbered(vals[..k + 1], firstId);
    var b := Numbered(vals[..k], firstId);
    assert forall j :: 0 <= j < k ==> a[j] == b[j];
  }
}
