/** The two request wizards of the petty cash box: the box they default to,
    and the allocation or expense line each appends to it. */
module PettyCashWizards {
  import opened Wrappers
  import opened Dates
  import opened PettyCash

  /** A petty cash record as the default search sees it. */
  datatype BoxRef = BoxRef(id: nat, custodian: nat)

  /** The first record (in search order) whose custodian is `user`. */
  function FirstOfCustodian(boxes: seq<BoxRef>, user: nat): (r: Option<nat>)
    ensures r.None? <==> forall k :: 0 <= k < |boxes| ==> boxes[k].custodian != user
    ensures r.Some? ==> exists k :: 0 <= k < |boxes| && boxes[k].custodian == user && boxes[k].id == r.value
                                    && forall j :: 0 <= j < k ==> boxes[j].custodian != user
  {
    if boxes == [] then None
    else if boxes[0].custodian == user then Some(boxes[0].id)
    else
      var r := FirstOfCustodian(boxes[1..], user);
      if r.Some? then
        var k :| 0 <= k < |boxes[1..]| && boxes[1..][k].custodian == user && boxes[1..][k].id == r.value
                  && forall j :: 0 <= j < k ==> boxes[1..][j].custodian != user;
        assert boxes[k + 1] == boxes[1..][k];
        assert forall j :: 1 <= j < k + 1 ==> boxes[j] == boxes[1..][j - 1];
        r
      else
        assert forall k :: 1 <= k < |boxes| ==> boxes[k] == boxes[1..][k - 1];
        r
  }

  /** `_default_petty_cash` of both wizards: the record the wizard was opened
      from, else the user's own box, else none. */
  function DefaultPettyCash(activeModel: string, activeId: Option<nat>, boxes: seq<BoxRef>, user: nat): (r: Option<nat>)
    ensures activeModel == "pct.petty.cash" ==> r == activeId
    ensures activeModel != "pct.petty.cash" ==>
      (r.None? <==> forall k :: 0 <= k < |boxes| ==> boxes[k].custodian != user)
    ensures activeModel != "pct.petty.cash" && r.Some? ==>
      exists k :: 0 <= k < |boxes| && boxes[k].id == r.value && boxes[k].custodian == user
  {
    if activeModel == "pct.petty.cash" then activeId else FirstOfCustodian(boxes, user)
  }

  datatype WizardError = BoxClosed | AmountNotPositive

  /** The allocation request wizard's fields; the journal's default account
      is read through `defaultAccountOf`. */
  datatype AllocationRequest = AllocationRequest(date: Date, amount: real, sourceJournal: nat, distribution: Distribution)

  datatype ExpenseRequest = ExpenseRequest(
    date: Date,
    product: Option<nat>,
    description: string,
    amount: real,
    attachments: seq<nat>,
    distribution: Distribution)

  /** The refusals shared by both wizards, in their order. */
  function Admissible(state: CashState, amount: real): (r: Outcome<WizardError>)
    ensures r == Pass <==> state != Closed && amount > 0.0
    ensures state == Closed ==> r == Fail(BoxClosed)
    ensures state != Closed && amount <= 0.0 ==> r == Fail(AmountNotPositive)
  {
    if state == Closed then Fail(BoxClosed)
    else if amount <= 0.0 then Fail(AmountNotPositive)
    else Pass
  }

  /** The allocation line the wizard creates: no entry yet, and the source
      account computed from the journal. */
  function NewAllocation(w: AllocationRequest, id: nat, defaultAccountOf: nat -> Option<nat>): (l: AllocationLine)
    ensures l.move.None? && LineState(l.move) == MoveDraft
    ensures l.date == Some(w.date) && l.amount == w.amount && l.sourceJournal == w.sourceJournal
    ensures l.sourceAccount == defaultAccountOf(w.sourceJournal)
    ensures l.id == id && l.distribution == w.distribution
  {
    AllocationLine(id, Some(w.date), w.amount, w.sourceJournal, defaultAccountOf(w.sourceJournal), w.distribution, None)
  }

  /** The expense line the wizard creates: the product only when one was
      chosen, the expense account computed from it. */
  function NewExpense(w: ExpenseRequest, id: nat, expenseAccountOf: nat -> Option<nat>): (l: ExpenseLine)
    ensures l.move.None? && LineState(l.move) == MoveDraft
    ensures l.date == Some(w.date) && l.amount == w.amount && l.description == w.description
    ensures l.product == w.product && l.attachments == w.attachments
    ensures w.product.None? ==> l.account.None?
    ensures w.product.Some? ==> l.account == expenseAccountOf(w.product.value)
    ensures l.id == id && l.distribution == w.distribution
  {
    var account := if w.product.Some? then expenseAccountOf(w.product.value) else None;
    ExpenseLine(id, Some(w.date), w.description, w.amount, w.product, account, w.attachments, w.distribution, None)
  }

  /** `action_create_allocation`: exactly one draft allocation appended, or
      a refusal that changes nothing. */
  method ActionCreateAllocation(box: PettyCash, w: AllocationRequest, id: nat, defaultAccountOf: nat -> Option<nat>)
    returns (r: Outcome<WizardError>)
    modifies box
    ensures r == Admissible(old(box.state), w.amount)
    ensures r.Pass? ==> box.allocations == old(box.allocations) + [NewAllocation(w, id, defaultAccountOf)]
    ensures r.Fail? ==> box.allocations == old(box.allocations)
    ensures box.expenses == old(box.expenses) && box.state == old(box.state)
  {
    r := Admissible(box.state, w.amount);
    if r.Pass? {
      box.allocations := box.allocations + [NewAllocation(w, id, defaultAccountOf)];
    }
  }

  /** `action_create_expense`: exactly one draft expense appended, or a
      refusal that changes nothing.  The box need not be running here;
      posting the expense demands it. */
  method ActionCreateExpense(box: PettyCash, w: ExpenseRequest, id: nat, expenseAccountOf: nat -> Option<nat>)
    returns (r: Outcome<WizardError>)
    modifies box
    ensures r == Admissible(old(box.state), w.amount)
    ensures r.Pass? ==> box.expenses == old(box.expenses) + [NewExpense(w, id, expenseAccountOf)]
    ensures r.Fail? ==> box.expenses == old(box.expenses)
    ensures box.allocations == old(box.allocations) && box.state == old(box.state)
  {
    r := Admissible(box.state, w.amount);
    if r.Pass? {
      box.expenses := box.expenses + [NewExpense(w, id, expenseAccountOf)];
    }
  }

  /** A freshly requested line is a draft: it changes no balance until its
      entry is posted. */
  lemma NewAllocationLeavesBalances(box: seq<AllocationLine>, w: AllocationRequest, id: nat,
                                    defaultAccountOf: nat -> Option<nat>, year: int)
    ensures var after := AllocationsCash(box + [NewAllocation(w, id, defaultAccountOf)]);
            SumBefore(after, year) == SumBefore(AllocationsCash(box), year)
            && SumIn(after, year) == SumIn(AllocationsCash(box), year)
  {
    var l := NewAllocation(w, id, defaultAccountOf);
    assert AllocationsCash(box + [l]) == AllocationsCash(box) + [AllocationCash(l)];
    UnpostedIgnored(AllocationsCash(box), AllocationCash(l), year);
  }

  lemma NewExpenseLeavesBalances(box: seq<ExpenseLine>, w: ExpenseRequest, id: nat,
                                 expenseAccountOf: nat -> Option<nat>, year: int)
    ensures var after := ExpensesCash(box + [NewExpense(w, id, expenseAccountOf)]);
            SumBefore(after, year) == SumBefore(ExpensesCash(box), year)
            && SumIn(after, year) == SumIn(ExpensesCash(box), year)
  {
    var l := NewExpense(w, id, expenseAccountOf);
    assert ExpensesCash(box + [l]) == ExpensesCash(box) + [ExpenseCash(l)];
    UnpostedIgnored(ExpensesCash(box), ExpenseCash(l), year);
  }
}
