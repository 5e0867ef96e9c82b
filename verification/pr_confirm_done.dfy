/** The wizard that lists the unfulfilled lines of a purchase request and
    closes it on confirmation. */
module ConfirmDoneWizard {
  import opened PurchaseRequest

  /** Sum of the unfulfilled quantities of the wizard rows. */
  function UnfulfilledSum(rows: seq<ConfirmLine>): real {
    if rows == [] then 0.0 else rows[0].unfulfilled + UnfulfilledSum(rows[1..])
  }

  datatype Totals = Totals(count: nat, qty: real)

  /** `_compute_totals`. */
  function ComputeTotals(rows: seq<ConfirmLine>): (t: Totals)
    ensures t.count == |rows| && t.qty == UnfulfilledSum(rows)
  {
    Totals(|rows|, UnfulfilledSum(rows))
  }

  /** The rows `button_done` builds all have a positive unfulfilled
      quantity, so a non-empty wizard always shows a positive total. */
  lemma {:induction false} TotalPositive(rows: seq<ConfirmLine>)
    requires forall k :: 0 <= k < |rows| ==> rows[k].unfulfilled > 0.0
    ensures UnfulfilledSum(rows) >= 0.0
    ensures rows != [] ==> UnfulfilledSum(rows) > 0.0
  {
    if rows != [] {
      TotalPositive(rows[1..]);
    }
  }

  /** The total splits along any cut of the rows. */
  lemma {:induction false} UnfulfilledSumAppend(a: seq<ConfirmLine>, b: seq<ConfirmLine>)
    ensures UnfulfilledSum(a + b) == UnfulfilledSum(a) + UnfulfilledSum(b)
  {
    if a == [] {
      assert a + b == b;
    } else {
      assert (a + b)[1..] == a[1..] + b;
      UnfulfilledSumAppend(a[1..], b);
    }
  }

  /** `action_confirm_done`: the request is closed whatever is still open,
      and nothing else about it changes. */
  method ActionConfirmDone(request: Request)
    modifies request
    ensures request.state == Done
    ensures request.name == old(request.name) && request.requestedBy == old(request.requestedBy)
    ensures request.assignedTo == old(request.assignedTo) && request.lines == old(request.lines)
    ensures request.previousState == old(request.previousState)
    ensures request.onHoldReason == old(request.onHoldReason)
  {
    request.state := Done;
  }
}
