/** The stock records the purchase-request wizards read: locations with
    their materialised `parent_path`, quants, warehouses and operation
    types. */
module Stock {
  import opened Wrappers

  /** A stock location.  `parentPath` is the `parent_path` column, "" when
      unset; two locations are the same record when their values are equal. */
  datatype Location = Location(id: nat, parentPath: string, warehouse: Option<nat>, internal: bool)

  /** A `stock.quant`: on-hand quantity of a product at a location. */
  datatype Quant = Quant(product: nat, location: Location, quantity: real, company: nat)

  datatype Warehouse = Warehouse(id: nat, company: nat, storekeeper: Option<nat>)

  datatype OperationCode = Incoming | Outgoing | Internal | Other

  /** An operation type; `active` is false for an archived one. */
  datatype PickingType = PickingType(id: nat, warehouse: Option<nat>, code: OperationCode, active: bool)
}
