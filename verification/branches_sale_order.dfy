/** Sale orders and branches: an order with a branch may only use a
    warehouse and a pricelist of that branch (or of none); choosing a
    warehouse carries its branch and bank information over; invoices carry
    the order's branch. */
module BranchSaleOrder {
  import opened Wrappers

  datatype Warehouse = Warehouse(id: nat, branch: Option<nat>, bankInformation: string)

  datatype Pricelist = Pricelist(id: nat, branch: Option<nat>)

  /** The fields the branch rules read from an order. */
  datatype OrderView = OrderView(id: nat, branch: Option<nat>, warehouse: Option<Warehouse>, pricelist: Option<Pricelist>)

  /** A warehouse of another branch than the order's. */
  predicate WarehouseConflict(o: OrderView) {
    o.branch.Some? && o.warehouse.Some? && o.warehouse.value.branch.Some? && o.warehouse.value.branch != o.branch
  }

  /** A pricelist of another branch than the order's. */
  predicate PricelistConflict(o: OrderView) {
    o.branch.Some? && o.pricelist.Some? && o.pricelist.value.branch.Some? && o.pricelist.value.branch != o.branch
  }

  datatype Error = WarehouseMismatch(order: nat) | PricelistMismatch(order: nat)

  /** `_check_branch_consistency`: the warehouse is checked before the
      pricelist, order by order. */
  function CheckBranchConsistency(orders: seq<OrderView>): (r: Outcome<Error>)
    ensures r == Pass <==> forall k :: 0 <= k < |orders| ==> !WarehouseConflict(orders[k]) && !PricelistConflict(orders[k])
    ensures r.Fail? && r.error.WarehouseMismatch? ==>
      exists k :: 0 <= k < |orders| && WarehouseConflict(orders[k]) && orders[k].id == r.error.order
    ensures r.Fail? && r.error.PricelistMismatch? ==>
      exists k :: 0 <= k < |orders| && PricelistConflict(orders[k]) && orders[k].id == r.error.order
  {
    if orders == [] then Pass
    else if WarehouseConflict(orders[0]) then Fail(WarehouseMismatch(orders[0].id))
    else if PricelistConflict(orders[0]) then Fail(PricelistMismatch(orders[0].id))
    else
      assert forall k :: 1 <= k < |orders| ==> orders[k] == orders[1..][k - 1];
      CheckBranchConsistency(orders[1..])
  }

  /** An order without a branch, or whose warehouse and pricelist have no
      branch, always passes. */
  lemma UnbranchedPasses(o: OrderView)
    requires o.branch.None?
             || ((o.warehouse.None? || o.warehouse.value.branch.None?) && (o.pricelist.None? || o.pricelist.value.branch.None?))
    ensures CheckBranchConsistency([o]) == Pass
  {
  }

  /** Invoice values as the parent prepares them: the branch and the rest. */
  datatype InvoiceVals = InvoiceVals(branch: Option<nat>, rest: map<string, string>)

  /** `_prepare_invoice`: the order's branch, when it has one, replaces the
      parent's; nothing else changes. */
  function PrepareInvoice(orderBranch: Option<nat>, parent: InvoiceVals): (r: InvoiceVals)
    ensures r.rest == parent.rest
    ensures orderBranch.Some? ==> r.branch == orderBranch
    ensures orderBranch.None? ==> r == parent
  {
    if orderBranch.Some? then parent.(branch := orderBranch) else parent
  }

  /** The note that bank information gives an order, if any. */
  function BankNote(w: Option<Warehouse>, note: string): (r: string)
    ensures w.Some? && w.value.bankInformation != "" ==> r == w.value.bankInformation
    ensures w.None? || w.value.bankInformation == "" ==> r == note
  {
    if w.Some? && w.value.bankInformation != "" then w.value.bankInformation else note
  }

  class SaleOrder {
    const id: nat
    var branch: Option<nat>
    var warehouse: Option<Warehouse>
    var pricelist: Option<Pricelist>
    var note: string

    constructor (id: nat, branch: Option<nat>, warehouse: Option<Warehouse>, pricelist: Option<Pricelist>, note: string)
      ensures this.id == id && this.branch == branch && this.warehouse == warehouse
      ensures this.pricelist == pricelist && this.note == note
    {
      this.id := id;
      this.branch := branch;
      this.warehouse := warehouse;
      this.pricelist := pricelist;
      this.note := note;
    }

    function View(): OrderView
      reads this
    {
      OrderView(id, branch, warehouse, pricelist)
    }

    /** `_onchange_warehouse_id_branch`: the warehouse's branch, if it has
        one, becomes the order's, so the warehouse can no longer conflict;
        its bank information, if any, becomes the note. */
    method OnchangeWarehouse()
      modifies this
      ensures !WarehouseConflict(View())
      ensures warehouse.Some? && warehouse.value.branch.Some? ==> branch == warehouse.value.branch
      ensures warehouse.None? || warehouse.value.branch.None? ==> branch == old(branch)
      ensures note == BankNote(warehouse, old(note))
      ensures warehouse == old(warehouse) && pricelist == old(pricelist)
    {
      if warehouse.Some? {
        if warehouse.value.branch.Some? {
          branch := warehouse.value.branch;
        }
        if warehouse.value.bankInformation != "" {
          note := warehouse.value.bankInformation;
        }
      }
    }

    /** The part of `create` that runs on each new order. */
    method CopyBankInformation()
      modifies this
      ensures note == BankNote(warehouse, old(note))
      ensures branch == old(branch) && warehouse == old(warehouse) && pricelist == old(pricelist)
    {
      if warehouse.Some? && warehouse.value.bankInformation != "" {
        note := warehouse.value.bankInformation;
      }
    }
  }

  /** `create`, after the parent has created `orders`: each order whose
      warehouse has bank information takes it as its note. */
  method Create(orders: seq<SaleOrder>)
    requires forall i, j :: 0 <= i < j < |orders| ==> orders[i] != orders[j]
    modifies set o | o in orders
    ensures forall k :: 0 <= k < |orders| ==>
      orders[k].note == BankNote(orders[k].warehouse, old(orders[k].note))
      && orders[k].branch == old(orders[k].branch) && orders[k].warehouse == old(orders[k].warehouse)
      && orders[k].pricelist == old(orders[k].pricelist)
  {
    for k := 0 to |orders|
      invariant forall j :: 0 <= j < k ==>
        orders[j].note == BankNote(orders[j].warehouse, old(orders[j].note))
        && orders[j].branch == old(orders[j].branch) && orders[j].warehouse == old(orders[j].warehouse)
        && orders[j].pricelist == old(orders[j].pricelist)
      invariant forall j :: k <= j < |orders| ==>
        orders[j].note == old(orders[j].note)
        && orders[j].branch == old(orders[j].branch) && orders[j].warehouse == old(orders[j].warehouse)
        && orders[j].pricelist == old(orders[j].pricelist)
    {
      orders[k].CopyBankInformation();
    }
  }
}
