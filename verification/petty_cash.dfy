/** A petty cash custodian box: its three-state life cycle, the allocation
    and expense lines recorded against it, the balances derived from the
    posted lines, and the two-line journal entries its lines generate. */
module PettyCash {
  import opened Wrappers
  import opened Dates

  datatype CashState = CashDraft | Running | Closed

  /** `account.move.state`, which a line's own state mirrors. */
  datatype MoveState = MoveDraft | Posted | MoveCancel

  /** An analytic distribution: analytic account to percentage. */
  type Distribution = map<nat, real>

  datatype EntryLine = EntryLine(
    account: nat,
    partner: Option<nat>,
    debit: real,
    credit: real,
    product: Option<nat>,
    distribution: Distribution)

  datatype JournalEntry = JournalEntry(id: nat, journal: nat, date: Option<Date>, lines: seq<EntryLine>, state: MoveState)

  datatype AllocationLine = AllocationLine(
    id: nat,
    date: Option<Date>,
    amount: real,
    sourceJournal: nat,
    sourceAccount: Option<nat>,
    distribution: Distribution,
    move: Option<JournalEntry>)

  datatype ExpenseLine = ExpenseLine(
    id: nat,
    date: Option<Date>,
    description: string,
    amount: real,
    product: Option<nat>,
    account: Option<nat>,
    attachments: seq<nat>,
    distribution: Distribution,
    move: Option<JournalEntry>)

  // ---------------------------------------------------------------------
  // Line state and balances

  /** `_compute_state` of both line kinds: the entry's state, or draft. */
  function LineState(move: Option<JournalEntry>): (s: MoveState)
    ensures move.None? ==> s == MoveDraft
    ensures move.Some? ==> s == move.value.state
  {
    if move.Some? then move.value.state else MoveDraft
  }

  /** What the balance computations read from a line. */
  datatype CashLine = CashLine(date: Option<Date>, amount: real, state: MoveState)

  function AllocationCash(l: AllocationLine): CashLine {
    CashLine(l.date, l.amount, LineState(l.move))
  }

  function ExpenseCash(l: ExpenseLine): CashLine {
    CashLine(l.date, l.amount, LineState(l.move))
  }

  function AllocationsCash(ls: seq<AllocationLine>): (r: seq<CashLine>)
    ensures |r| == |ls| && forall k :: 0 <= k < |r| ==> r[k] == AllocationCash(ls[k])
  {
    seq(|ls|, k requires 0 <= k < |ls| => AllocationCash(ls[k]))
  }

  function ExpensesCash(ls: seq<ExpenseLine>): (r: seq<CashLine>)
    ensures |r| == |ls| && forall k :: 0 <= k < |r| ==> r[k] == ExpenseCash(ls[k])
  {
    seq(|ls|, k requires 0 <= k < |ls| => ExpenseCash(ls[k]))
  }

  /** A posted, dated line of a year before `year`. */
  predicate CountsBefore(l: CashLine, year: int) {
    l.date.Some? && l.date.value.year < year && l.state == Posted
  }

  /** A posted, dated line of year `year`. */
  predicate CountsIn(l: CashLine, year: int) {
    l.date.Some? && l.date.value.year == year && l.state == Posted
  }

  function SumBefore(ls: seq<CashLine>, year: int): real
    decreases |ls|
  {
    if ls == [] then 0.0
    else SumBefore(ls[..|ls| - 1], year) + (if CountsBefore(ls[|ls| - 1], year) then ls[|ls| - 1].amount else 0.0)
  }

  function SumIn(ls: seq<CashLine>, year: int): real
    decreases |ls|
  {
    if ls == [] then 0.0
    else SumIn(ls[..|ls| - 1], year) + (if CountsIn(ls[|ls| - 1], year) then ls[|ls| - 1].amount else 0.0)
  }

  /** A line that is not posted, or has no date, changes no sum. */
  lemma UnpostedIgnored(ls: seq<CashLine>, l: CashLine, year: int)
    requires l.state != Posted || l.date.None?
    ensures SumBefore(ls + [l], year) == SumBefore(ls, year)
    ensures SumIn(ls + [l], year) == SumIn(ls, year)
  {
    assert (ls + [l])[..|ls|] == ls;
  }

  /** What was brought forward into next year is what came before this year
      plus what this year posted. */
  lemma {:induction false} NextYearBefore(ls: seq<CashLine>, year: int)
    ensures SumBefore(ls, year + 1) == SumBefore(ls, year) + SumIn(ls, year)
    decreases |ls|
  {
    if ls != [] {
      NextYearBefore(ls[..|ls| - 1], year);
    }
  }

  /** `_compute_amount_brought_forward`. */
  function BroughtForward(allocations: seq<CashLine>, expenses: seq<CashLine>, year: int): real {
    SumBefore(allocations, year) - SumBefore(expenses, year)
  }

  /** The balances `_compute_amounts` stores. */
  datatype Amounts = Amounts(broughtForward: real, allocatedTotal: real, expensedTotal: real, left: real)

  /** `_compute_amount_brought_forward` and `_compute_amounts` for
      `current_year`. */
  function ComputeAmounts(allocations: seq<CashLine>, expenses: seq<CashLine>, currentYear: int): (r: Amounts)
    ensures r.left == r.broughtForward + r.allocatedTotal - r.expensedTotal
    ensures r.broughtForward == BroughtForward(allocations, expenses, currentYear)
    ensures r.allocatedTotal == SumIn(allocations, currentYear) && r.expensedTotal == SumIn(expenses, currentYear)
  {
    var bf := BroughtForward(allocations, expenses, currentYear);
    var allocatedSum := SumIn(allocations, currentYear);
    var expensedSum := SumIn(expenses, currentYear);
    Amounts(bf, allocatedSum, expensedSum, bf + allocatedSum - expensedSum)
  }

  /** The year-end roll-over: next year's brought-forward amount is this
      year's amount left. */
  lemma AmountLeftRollsOver(allocations: seq<CashLine>, expenses: seq<CashLine>, year: int)
    ensures ComputeAmounts(allocations, expenses, year + 1).broughtForward
            == ComputeAmounts(allocations, expenses, year).left
  {
    NextYearBefore(allocations, year);
    NextYearBefore(expenses, year);
  }

  // ---------------------------------------------------------------------
  // State changes

  /** `action_set_running` on one record. */
  function SetRunning(s: CashState): (r: CashState)
    ensures r == Running <==> s == CashDraft || s == Running
    ensures s != CashDraft ==> r == s
  {
    if s == CashDraft then Running else s
  }

  /** `action_set_closed` on one record. */
  function SetClosed(s: CashState): (r: CashState)
    ensures r == Closed <==> s == Running || s == Closed
    ensures s != Running ==> r == s
  {
    if s == Running then Closed else s
  }

  /** Closing needs a running box, and running needs a draft one: a draft
      box cannot be closed in one step. */
  lemma NoShortcutToClosed()
    ensures SetClosed(CashDraft) == CashDraft
    ensures SetClosed(SetRunning(CashDraft)) == Closed
  {
  }

  // ---------------------------------------------------------------------
  // Journal entries

  datatype Error =
    | EntryExists
    | NoCustodianAccount
    | NoSourceAccount
    | NoExpenseAccount
    | NotRunning(name: string)

  function SumDebit(ls: seq<EntryLine>): real {
    if ls == [] then 0.0 else ls[0].debit + SumDebit(ls[1..])
  }

  function SumCredit(ls: seq<EntryLine>): real {
    if ls == [] then 0.0 else ls[0].credit + SumCredit(ls[1..])
  }

  /** Debits equal credits. */
  predicate Balanced(e: JournalEntry) {
    SumDebit(e.lines) == SumCredit(e.lines)
  }

  /** An entry made of one debit of `amount` on `debitAccount` and one credit
      of `amount` on `creditAccount`. */
  predicate TwoLineEntry(e: JournalEntry, amount: real, debitAccount: nat, creditAccount: nat) {
    |e.lines| == 2
    && e.lines[0].account == debitAccount && e.lines[0].debit == amount && e.lines[0].credit == 0.0
    && e.lines[1].account == creditAccount && e.lines[1].debit == 0.0 && e.lines[1].credit == amount
  }

  lemma TwoLineEntryBalanced(e: JournalEntry, amount: real, debitAccount: nat, creditAccount: nat)
    requires TwoLineEntry(e, amount, debitAccount, creditAccount)
    ensures Balanced(e)
  {
    var ls := e.lines;
    assert ls[1..][1..] == [];
    assert SumDebit(ls[1..]) == 0.0 + SumDebit(ls[1..][1..]);
    assert SumCredit(ls[1..]) == amount + SumCredit(ls[1..][1..]);
    assert SumDebit(ls) == amount + SumDebit(ls[1..]);
    assert SumCredit(ls) == 0.0 + SumCredit(ls[1..]);
  }

  /** The petty cash fields an entry reads. */
  datatype Box = Box(name: string, state: CashState, journal: nat, custodianAccount: Option<nat>, custodianPartner: Option<nat>)

  /** The entry of an allocation's `action_create_move`: money moves from the
      source account to the custodian account. */
  function AllocationMove(box: Box, l: AllocationLine, id: nat): (r: Result<JournalEntry, Error>)
    ensures l.move.Some? ==> r == Err(EntryExists)
    ensures l.move.None? && box.custodianAccount.None? ==> r == Err(NoCustodianAccount)
    ensures l.move.None? && box.custodianAccount.Some? && l.sourceAccount.None? ==> r == Err(NoSourceAccount)
    ensures r.Ok? ==>
      r.value.state == MoveDraft && r.value.id == id && r.value.journal == box.journal && r.value.date == l.date
      && TwoLineEntry(r.value, l.amount, box.custodianAccount.value, l.sourceAccount.value)
      && Balanced(r.value)
  {
    if l.move.Some? then Err(EntryExists)
    else if box.custodianAccount.None? then Err(NoCustodianAccount)
    else if l.sourceAccount.None? then Err(NoSourceAccount)
    else
      var e := JournalEntry(id, box.journal, l.date, [
        EntryLine(box.custodianAccount.value, box.custodianPartner, l.amount, 0.0, None, l.distribution),
        EntryLine(l.sourceAccount.value, box.custodianPartner, 0.0, l.amount, None, l.distribution)
      ], MoveDraft);
      TwoLineEntryBalanced(e, l.amount, box.custodianAccount.value, l.sourceAccount.value);
      Ok(e)
  }

  /** The entry of an expense's `action_create_move`: money moves from the
      custodian account to the expense account; the debit line carries the
      product when there is one. */
  function ExpenseMove(box: Box, l: ExpenseLine, id: nat): (r: Result<JournalEntry, Error>)
    ensures l.move.Some? ==> r == Err(EntryExists)
    ensures l.move.None? && box.custodianAccount.None? ==> r == Err(NoCustodianAccount)
    ensures l.move.None? && box.custodianAccount.Some? && l.account.None? ==> r == Err(NoExpenseAccount)
    ensures r.Ok? ==>
      r.value.state == MoveDraft && r.value.id == id && r.value.journal == box.journal && r.value.date == l.date
      && TwoLineEntry(r.value, l.amount, l.account.value, box.custodianAccount.value)
      && r.value.lines[0].product == l.product
      && Balanced(r.value)
  {
    if l.move.Some? then Err(EntryExists)
    else if box.custodianAccount.None? then Err(NoCustodianAccount)
    else if l.account.None? then Err(NoExpenseAccount)
    else
      var e := JournalEntry(id, box.journal, l.date, [
        EntryLine(l.account.value, box.custodianPartner, l.amount, 0.0, l.product, l.distribution),
        EntryLine(box.custodianAccount.value, box.custodianPartner, 0.0, l.amount, None, l.distribution)
      ], MoveDraft);
      TwoLineEntryBalanced(e, l.amount, l.account.value, box.custodianAccount.value);
      Ok(e)
  }

  /** `move_id.action_post()` when the entry is a draft. */
  function PostIfDraft(e: JournalEntry): (r: JournalEntry)
    ensures e.state == MoveDraft ==> r == e.(state := Posted)
    ensures e.state != MoveDraft ==> r == e
  {
    if e.state == MoveDraft then e.(state := Posted) else e
  }

  /** `action_post` on one allocation line: the entry is created when
      missing, then posted when it is a draft. */
  function PostAllocation(box: Box, l: AllocationLine, id: nat): (r: Result<AllocationLine, Error>)
    ensures l.move.Some? ==> r.Ok?
    ensures l.move.Some? && l.move.value.state != MoveDraft ==> r == Ok(l)
    ensures l.move.Some? && l.move.value.state == MoveDraft ==>
      r == Ok(l.(move := Some(l.move.value.(state := Posted))))
    ensures l.move.None? ==>
      var e := AllocationMove(box, l, id);
      (e.Err? ==> r == Err(e.error)) && (e.Ok? ==> r == Ok(l.(move := Some(e.value.(state := Posted)))))
    ensures r.Ok? ==> r.value.move.Some? && LineState(r.value.move) != MoveDraft
  {
    if l.move.Some? then Ok(l.(move := Some(PostIfDraft(l.move.value))))
    else
      var e := AllocationMove(box, l, id);
      if e.Err? then Err(e.error) else Ok(l.(move := Some(PostIfDraft(e.value))))
  }

  /** `action_post` on one expense line: refused unless the box is running,
      then as for allocations. */
  function PostExpense(box: Box, l: ExpenseLine, id: nat): (r: Result<ExpenseLine, Error>)
    ensures box.state != Running ==> r == Err(NotRunning(box.name))
    ensures box.state == Running && l.move.Some? ==> r.Ok?
    ensures box.state == Running && l.move.Some? && l.move.value.state != MoveDraft ==> r == Ok(l)
    ensures box.state == Running && l.move.Some? && l.move.value.state == MoveDraft ==>
      r == Ok(l.(move := Some(l.move.value.(state := Posted))))
    ensures box.state == Running && l.move.None? ==>
      var e := ExpenseMove(box, l, id);
      (e.Err? ==> r == Err(e.error)) && (e.Ok? ==> r == Ok(l.(move := Some(e.value.(state := Posted)))))
    ensures r.Ok? ==> r.value.move.Some? && LineState(r.value.move) != MoveDraft
  {
    if box.state != Running then Err(NotRunning(box.name))
    else if l.move.Some? then Ok(l.(move := Some(PostIfDraft(l.move.value))))
    else
      var e := ExpenseMove(box, l, id);
      if e.Err? then Err(e.error) else Ok(l.(move := Some(PostIfDraft(e.value))))
  }

  /** Posting a posted allocation line again changes nothing. */
  lemma PostAllocationIdempotent(box: Box, l: AllocationLine, id: nat, id2: nat)
    requires PostAllocation(box, l, id).Ok?
    ensures PostAllocation(box, PostAllocation(box, l, id).value, id2) == PostAllocation(box, l, id)
  {
  }

  /** Posting a posted expense line again changes nothing. */
  lemma PostExpenseIdempotent(box: Box, l: ExpenseLine, id: nat, id2: nat)
    requires PostExpense(box, l, id).Ok?
    ensures PostExpense(box, PostExpense(box, l, id).value, id2) == PostExpense(box, l, id)
  {
  }

  // ---------------------------------------------------------------------
  // The record

  /** A petty cash box.  Its name, custodian, journal and accounts are
      fixed here: no action of the box or its wizards writes them. */
  class PettyCash {
    const name: string
    var state: CashState
    const custodian: nat
    const journal: nat
    const custodianAccount: Option<nat>
    const custodianPartner: Option<nat>
    var allocations: seq<AllocationLine>
    var expenses: seq<ExpenseLine>

    constructor (name: string, custodian: nat, journal: nat, custodianAccount: Option<nat>, custodianPartner: Option<nat>)
      ensures this.name == name && state == CashDraft && this.custodian == custodian && this.journal == journal
      ensures this.custodianAccount == custodianAccount && this.custodianPartner == custodianPartner
      ensures allocations == [] && expenses == []
    {
      this.name := name;
      state := CashDraft;
      this.custodian := custodian;
      this.journal := journal;
      this.custodianAccount := custodianAccount;
      this.custodianPartner := custodianPartner;
      allocations := [];
      expenses := [];
    }

    function BoxView(): Box
      reads this
    {
      Box(name, state, journal, custodianAccount, custodianPartner)
    }

    /** The stored balances, for `current_year`. */
    function Amounts(currentYear: int): Amounts
      reads this
    {
      ComputeAmounts(AllocationsCash(allocations), ExpensesCash(expenses), currentYear)
    }

    method ActionSetRunning()
      modifies this
      ensures state == SetRunning(old(state))
      ensures allocations == old(allocations) && expenses == old(expenses)
    {
      if state == CashDraft {
        state := Running;
      }
    }

    method ActionSetClosed()
      modifies this
      ensures state == SetClosed(old(state))
      ensures allocations == old(allocations) && expenses == old(expenses)
    {
      if state == Running {
        state := Closed;
      }
    }

    method ActionSetDraft()
      modifies this
      ensures state == CashDraft
      ensures allocations == old(allocations) && expenses == old(expenses)
    {
      state := CashDraft;
    }

    /** `action_create_move` on allocation line `k`; `id` is the new entry's. */
    method AllocationCreateMove(k: nat, id: nat) returns (r: Outcome<Error>)
      requires k < |allocations|
      modifies this
      ensures var e := AllocationMove(old(BoxView()), old(allocations)[k], id);
              (e.Ok? ==> r == Pass && allocations == old(allocations)[k := old(allocations)[k].(move := Some(e.value))])
              && (e.Err? ==> r == Fail(e.error) && allocations == old(allocations))
      ensures expenses == old(expenses) && state == old(state)
    {
      var e := AllocationMove(BoxView(), allocations[k], id);
      if e.Err? {
        return Fail(e.error);
      }
      allocations := allocations[k := allocations[k].(move := Some(e.value))];
      return Pass;
    }

    /** `action_post` on allocation line `k`: create the entry if missing,
        then post it if it is a draft.  No state check on the box. */
    method AllocationPost(k: nat, id: nat) returns (r: Outcome<Error>)
      requires k < |allocations|
      modifies this
      ensures var p := PostAllocation(old(BoxView()), old(allocations)[k], id);
              (p.Ok? ==> r == Pass && allocations == old(allocations)[k := p.value])
              && (p.Err? ==> r == Fail(p.error) && allocations == old(allocations))
      ensures old(allocations)[k].move.Some? ==> r == Pass
      ensures expenses == old(expenses) && state == old(state)
    {
      if allocations[k].move.None? {
        r := AllocationCreateMove(k, id);
        if r.Fail? {
          return;
        }
      }
      var line := allocations[k];
      allocations := allocations[k := line.(move := Some(PostIfDraft(line.move.value)))];
      return Pass;
    }

    /** `action_create_move` on expense line `k`. */
    method ExpenseCreateMove(k: nat, id: nat) returns (r: Outcome<Error>)
      requires k < |expenses|
      modifies this
      ensures var e := ExpenseMove(old(BoxView()), old(expenses)[k], id);
              (e.Ok? ==> r == Pass && expenses == old(expenses)[k := old(expenses)[k].(move := Some(e.value))])
              && (e.Err? ==> r == Fail(e.error) && expenses == old(expenses))
      ensures allocations == old(allocations) && state == old(state)
    {
      var e := ExpenseMove(BoxView(), expenses[k], id);
      if e.Err? {
        return Fail(e.error);
      }
      expenses := expenses[k := expenses[k].(move := Some(e.value))];
      return Pass;
    }

    /** `action_post` on expense line `k`: refused unless the box is
        running; then as for allocations. */
    method ExpensePost(k: nat, id: nat) returns (r: Outcome<Error>)
      requires k < |expenses|
      modifies this
      ensures var p := PostExpense(old(BoxView()), old(expenses)[k], id);
              (p.Ok? ==> r == Pass && expenses == old(expenses)[k := p.value])
              && (p.Err? ==> r == Fail(p.error) && expenses == old(expenses))
      ensures state != Running ==> r == Fail(NotRunning(name)) && expenses == old(expenses)
      ensures state == Running && old(expenses)[k].move.Some? ==> r == Pass
      ensures allocations == old(allocations) && state == old(state)
    {
      if state != Running {
        return Fail(NotRunning(name));
      }
      if expenses[k].move.None? {
        r := ExpenseCreateMove(k, id);
        if r.Fail? {
          return;
        }
      }
      var line := expenses[k];
      expenses := expenses[k := line.(move := Some(PostIfDraft(line.move.value)))];
      return Pass;
    }
  }
}
