/** Allocations tie a purchase request line to the stock move or purchase
    line that serves it.  The model keeps the ledger of allocations, the
    open quantity of each, the notes posted on receipt, and which request
    lines each change sends to recomputation. */
module RequestAllocation {
  import opened Wrappers
  import opened Text

  /** `purchase.order.line.state`. */
  datatype PurchaseState = PoDraft | Sent | PoToApprove | Purchase | PoDone | Cancel

  /** What an allocation reads from its purchase order line. */
  datatype PurchaseLineInfo = PurchaseLineInfo(state: PurchaseState, productName: string, uomName: string)

  datatype Allocation = Allocation(
    id: nat,
    line: nat,
    request: nat,
    stockMove: Option<nat>,
    purchaseLine: Option<PurchaseLineInfo>,
    requestedQty: real,
    allocatedQty: real)

  /** The related `purchase_state` is cancel or done. */
  predicate Closed(a: Allocation) {
    a.purchaseLine.Some? && (a.purchaseLine.value.state == Cancel || a.purchaseLine.value.state == PoDone)
  }

  /** `_compute_open_product_qty`: nothing is open on a closed purchase
      line; otherwise what was requested and not yet allocated, never below
      zero. */
  function OpenQty(a: Allocation): (r: real)
    ensures r >= 0.0
    ensures Closed(a) ==> r == 0.0
    ensures !Closed(a) ==> r >= a.requestedQty - a.allocatedQty && (r == 0.0 || r == a.requestedQty - a.allocatedQty)
  {
    if Closed(a) then 0.0
    else
      var open := a.requestedQty - a.allocatedQty;
      if open < 0.0 then 0.0 else open
  }

  /** Open quantity only shrinks as more is allocated. */
  lemma OpenQtyAntitone(a: Allocation, more: real)
    requires more >= a.allocatedQty
    ensures OpenQty(a.(allocatedQty := more)) <= OpenQty(a)
  {
  }

  /** The note `_notify_allocation` posts on a request. */
  datatype Note = Note(request: nat, productName: string, qty: real, uomName: string)

  /** The product label of the note: the purchase line's product, escaped;
      an allocation without purchase line renders Python's `False`. */
  function ProductLabel(p: Option<PurchaseLineInfo>): string {
    HtmlEscape(if p.Some? then p.value.productName else "False")
  }

  /** The unit of the note: the purchase line's unit name, not escaped;
      `False` without purchase line. */
  function UomLabel(p: Option<PurchaseLineInfo>): string {
    if p.Some? then p.value.uomName else "False"
  }

  /** `_notify_allocation`: nothing for a zero quantity, else one note per
      allocation, in order, on that allocation's request. */
  method NotifyAllocation(allocations: seq<Allocation>, allocatedQty: real) returns (notes: seq<Note>)
    ensures allocatedQty == 0.0 ==> notes == []
    ensures allocatedQty != 0.0 ==> |notes| == |allocations|
    ensures forall k :: 0 <= k < |notes| ==>
      notes[k].request == allocations[k].request && notes[k].qty == allocatedQty
      && notes[k].productName == ProductLabel(allocations[k].purchaseLine)
      && notes[k].uomName == UomLabel(allocations[k].purchaseLine)
    ensures forall k :: 0 <= k < |notes| ==>
      forall j :: 0 <= j < |notes[k].productName| ==> MarkupSafe(notes[k].productName[j])
  {
    notes := [];
    if allocatedQty == 0.0 {
      return;
    }
    for k := 0 to |allocations|
      invariant |notes| == k
      invariant forall i :: 0 <= i < k ==>
        notes[i].request == allocations[i].request && notes[i].qty == allocatedQty
        && notes[i].productName == ProductLabel(allocations[i].purchaseLine)
        && notes[i].uomName == UomLabel(allocations[i].purchaseLine)
    {
      var a := allocations[k];
      notes := notes + [Note(a.request, ProductLabel(a.purchaseLine), allocatedQty, UomLabel(a.purchaseLine))];
    }
  }

  /** The escaped label still names the product exactly. */
  lemma LabelKeepsName(p: PurchaseLineInfo)
    ensures HtmlUnescape(ProductLabel(Some(p))) == p.productName
  {
    UnescapeEscape(p.productName);
  }

  /** `mapped("purchase_request_line_id")`. */
  function LinesOf(allocations: seq<Allocation>): (lines: set<nat>)
    ensures forall k :: 0 <= k < |allocations| ==> allocations[k].line in lines
    ensures forall l :: l in lines ==> exists k :: 0 <= k < |allocations| && allocations[k].line == l
  {
    if allocations == [] then {}
    else {allocations[0].line} + LinesOf(allocations[1..])
  }

  /** The allocations whose id is in `ids`, in ledger order. */
  function Selected(allocations: seq<Allocation>, ids: set<nat>): (r: seq<Allocation>)
    ensures forall k :: 0 <= k < |r| ==> r[k] in allocations && r[k].id in ids
    ensures forall k :: 0 <= k < |allocations| && allocations[k].id in ids ==> allocations[k] in r
  {
    if allocations == [] then []
    else if allocations[0].id in ids then [allocations[0]] + Selected(allocations[1..], ids)
    else Selected(allocations[1..], ids)
  }

  /** The allocations whose id is not in `ids`. */
  function Remaining(allocations: seq<Allocation>, ids: set<nat>): (r: seq<Allocation>)
    ensures forall k :: 0 <= k < |r| ==> r[k] in allocations && r[k].id !in ids
    ensures forall k :: 0 <= k < |allocations| && allocations[k].id !in ids ==> allocations[k] in r
  {
    if allocations == [] then []
    else if allocations[0].id in ids then Remaining(allocations[1..], ids)
    else [allocations[0]] + Remaining(allocations[1..], ids)
  }

  /** The fields a `write` may set; an absent key leaves the field alone. */
  datatype Update = Update(line: Option<(nat, nat)>, requestedQty: Option<real>, allocatedQty: Option<real>)

  function Apply(a: Allocation, u: Update): (r: Allocation)
    ensures r.id == a.id
  {
    var withLine := if u.line.Some? then a.(line := u.line.value.0, request := u.line.value.1) else a;
    var withRequested := if u.requestedQty.Some? then withLine.(requestedQty := u.requestedQty.value) else withLine;
    if u.allocatedQty.Some? then withRequested.(allocatedQty := u.allocatedQty.value) else withRequested
  }

  /** The ledger after writing `u` on the allocations in `ids`. */
  function ApplyAll(allocations: seq<Allocation>, ids: set<nat>, u: Update): (r: seq<Allocation>)
    ensures |r| == |allocations|
    ensures forall k :: 0 <= k < |r| ==> r[k].id == allocations[k].id
    ensures forall k :: 0 <= k < |r| ==>
      r[k] == (if allocations[k].id in ids then Apply(allocations[k], u) else allocations[k])
  {
    if allocations == [] then []
    else
      [if allocations[0].id in ids then Apply(allocations[0], u) else allocations[0]]
      + ApplyAll(allocations[1..], ids, u)
  }

  /** Ids are unique in the ledger and below the next id to hand out. */
  predicate WellNumbered(allocations: seq<Allocation>, nextId: nat) {
    (forall k :: 0 <= k < |allocations| ==> allocations[k].id < nextId)
    && (forall i, j :: 0 <= i < j < |allocations| ==> allocations[i].id != allocations[j].id)
  }

  /** New allocations numbered from `start`. */
  function Numbered(vals: seq<Allocation>, start: nat): (r: seq<Allocation>)
    ensures |r| == |vals|
    ensures forall k :: 0 <= k < |r| ==> r[k] == vals[k].(id := start + k)
  {
    seq(|vals|, k requires 0 <= k < |vals| => vals[k].(id := start + k))
  }

  /** A write that re-parents an allocation sends both its old and its new
      request line to recomputation. */
  lemma WriteRecomputesOldAndNew(allocations: seq<Allocation>, ids: set<nat>, u: Update, k: nat)
    requires 0 <= k < |allocations| && allocations[k].id in ids
    ensures allocations[k].line in LinesOf(Selected(allocations, ids))
    ensures ApplyAll(allocations, ids, u)[k].line
            in LinesOf(Selected(ApplyAll(allocations, ids, u), ids))
  {
    var after := ApplyAll(allocations, ids, u);
    assert after[k].id == allocations[k].id;
    assert after[k] in Selected(after, ids);
    var s := Selected(after, ids);
    var j :| 0 <= j < |s| && s[j] == after[k];
  }

  /** Deleting allocations keeps exactly the others, and the request lines
      sent to recomputation are those the deleted allocations pointed to. */
  lemma UnlinkSplitsLedger(allocations: seq<Allocation>, ids: set<nat>, k: nat)
    requires 0 <= k < |allocations|
    ensures allocations[k].id in ids ==> allocations[k].line in LinesOf(Selected(allocations, ids))
    ensures allocations[k].id !in ids ==> allocations[k] in Remaining(allocations, ids)
  {
    if allocations[k].id in ids {
      var s := Selected(allocations, ids);
      var j :| 0 <= j < |s| && s[j] == allocations[k];
    }
  }

  /** The stored allocations of the database. */
  class Ledger {
    var allocations: seq<Allocation>
    var nextId: nat

    ghost predicate Valid()
      reads this
    {
      WellNumbered(allocations, nextId)
    }

    constructor ()
      ensures Valid() && allocations == [] && nextId == 1
    {
      allocations := [];
      nextId := 1;
    }

    /** `create`: append the new allocations and recompute their lines. */
    method Create(vals: seq<Allocation>) returns (created: seq<Allocation>, recompute: set<nat>)
      requires Valid()
      modifies this
      ensures Valid()
      ensures created == Numbered(vals, old(nextId))
      ensures allocations == old(allocations) + created
      ensures nextId == old(nextId) + |vals|
      ensures recompute == LinesOf(created)
    {
      created := Numbered(vals, nextId);
      allocations := allocations + created;
      nextId := nextId + |vals|;
      recompute := LinesOf(created);
    }

    /** `write`: update the selected allocations and recompute the union of
        their lines before and after. */
    method Write(ids: set<nat>, u: Update) returns (recompute: set<nat>)
      requires Valid()
      modifies this
      ensures Valid()
      ensures allocations == ApplyAll(old(allocations), ids, u) && nextId == old(nextId)
      ensures recompute == LinesOf(Selected(old(allocations), ids)) + LinesOf(Selected(allocations, ids))
    {
      var before := LinesOf(Selected(allocations, ids));
      allocations := ApplyAll(allocations, ids, u);
      var after := LinesOf(Selected(allocations, ids));
      recompute := before + after;
    }

    /** `unlink`: drop the selected allocations and recompute their lines. */
    method Unlink(ids: set<nat>) returns (recompute: set<nat>)
      requires Valid()
      modifies this
      ensures Valid()
      ensures allocations == Remaining(old(allocations), ids) && nextId == old(nextId)
      ensures recompute == LinesOf(Selected(old(allocations), ids))
    {
      recompute := LinesOf(Selected(allocations, ids));
      allocations := Remaining(allocations, ids);
      RemainingWellNumbered(old(allocations), ids, nextId);
    }
  }

  lemma {:induction false} RemainingWellNumbered(allocations: seq<Allocation>, ids: set<nat>, nextId: nat)
    requires WellNumbered(allocations, nextId)
    ensures WellNumbered(Remaining(allocations, ids), nextId)
  {
    if allocations != [] {
      TailWellNumbered(allocations, nextId);
      RemainingWellNumbered(allocations[1..], ids, nextId);
      if allocations[0].id !in ids {
        RemainingAvoidsHead(allocations, ids, nextId);
        ConsWellNumbered(allocations[0], Remaining(allocations[1..], ids), nextId);
      }
    }
  }

  lemma TailWellNumbered(allocations: seq<Allocation>, nextId: nat)
    requires allocations != [] && WellNumbered(allocations, nextId)
    ensures WellNumbered(allocations[1..], nextId)
  {
    var tail := allocations[1..];
    forall i, j | 0 <= i < j < |tail| ensures tail[i].id != tail[j].id {
      assert tail[i] == allocations[i + 1] && tail[j] == allocations[j + 1];
    }
  }

  lemma RemainingAvoidsHead(allocations: seq<Allocation>, ids: set<nat>, nextId: nat)
    requires allocations != [] && WellNumbered(allocations, nextId)
    ensures forall a :: a in Remaining(allocations[1..], ids) ==> a.id != allocations[0].id
  {
    var tail := allocations[1..];
    forall a | a in Remaining(tail, ids) ensures a.id != allocations[0].id {
      var j :| 0 <= j < |tail| && tail[j] == a;
      assert allocations[j + 1] == a;
    }
  }

  lemma ConsWellNumbered(a: Allocation, rest: seq<Allocation>, nextId: nat)
    requires WellNumbered(rest, nextId) && a.id < nextId
    requires forall b :: b in rest ==> b.id != a.id
    ensures WellNumbered([a] + rest, nextId)
  {
    var r := [a] + rest;
    forall i, j | 0 <= i < j < |r| ensures r[i].id != r[j].id {
      assert r[j] == rest[j - 1];
      if i > 0 {
        assert r[i] == rest[i - 1];
      }
    }
  }
}
