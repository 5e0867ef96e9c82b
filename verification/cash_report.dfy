/** The cash report wizard: the filters it turns into search domains, the
    totals it shows, the year choices it offers, and the values the printed
    report recomputes from the selection it is handed. */
module CashReport {
  import opened Wrappers
  import opened Text
  import opened Dates

  /** A line of either kind as the report reads it: its box's custodian,
      its date (payment date or expense date) and its amount. */
  datatype ReportLine = ReportLine(id: nat, custodian: nat, date: Option<Date>, amount: real)

  /** The date field a domain term filters on. */
  datatype DateField = PaymentDate | ExpenseDate

  /** A search domain term. */
  datatype Term =
    | CustodianIs(user: nat)
    | OnOrAfter(field: DateField, bound: Date)
    | OnOrBefore(field: DateField, bound: Date)

  /** A term on a line; a date comparison is false on an empty date. */
  predicate TermHolds(t: Term, l: ReportLine) {
    match t
    case CustodianIs(u) => l.custodian == u
    case OnOrAfter(_, b) => l.date.Some? && Leq(b, l.date.value)
    case OnOrBefore(_, b) => l.date.Some? && Leq(l.date.value, b)
  }

  /** A domain is the conjunction of its terms. */
  predicate Holds(domain: seq<Term>, l: ReportLine)
    decreases |domain|
  {
    domain == [] || (Holds(domain[..|domain| - 1], l) && TermHolds(domain[|domain| - 1], l))
  }

  lemma HoldsAppend(domain: seq<Term>, t: Term, l: ReportLine)
    ensures Holds(domain + [t], l) <==> Holds(domain, l) && TermHolds(t, l)
  {
    assert (domain + [t])[..|domain|] == domain;
  }

  /** The number of custodian terms of a domain. */
  function CustodianTerms(domain: seq<Term>): nat {
    if domain == [] then 0
    else CustodianTerms(domain[..|domain| - 1]) + (if domain[|domain| - 1].CustodianIs? then 1 else 0)
  }

  lemma CustodianTermsAppend(domain: seq<Term>, t: Term)
    ensures CustodianTerms(domain + [t]) == CustodianTerms(domain) + (if t.CustodianIs? then 1 else 0)
  {
    assert (domain + [t])[..|domain|] == domain;
  }

  /** What the filters select, stated directly. */
  predicate Selected(custodian: Option<nat>, year: Option<int>, user: nat, accountant: bool, l: ReportLine) {
    OfCustodian(custodian, l) && InYear(year, l) && Visible(user, accountant, l)
  }

  predicate OfCustodian(custodian: Option<nat>, l: ReportLine) {
    custodian.None? || l.custodian == custodian.value
  }

  predicate InYear(year: Option<int>, l: ReportLine) {
    year.None? || (l.date.Some? && Leq(YearStart(year.value), l.date.value) && Leq(l.date.value, YearEnd(year.value)))
  }

  /** Outside the accountant group a user sees only their own lines. */
  predicate Visible(user: nat, accountant: bool, l: ReportLine) {
    accountant || l.custodian == user
  }

  /** `_get_allocation_domain` (with `PaymentDate`) and `_get_expense_domain`
      (with `ExpenseDate`): the custodian term when a custodian is chosen,
      the two year bounds when a year is chosen, and the user's own
      custodianship for anyone outside the accountant group. */
  method FilterDomain(field: DateField, custodian: Option<nat>, year: Option<int>, user: nat, accountant: bool)
    returns (domain: seq<Term>)
    ensures |domain| == (if custodian.Some? then 1 else 0) + (if year.Some? then 2 else 0) + (if accountant then 0 else 1)
    ensures custodian.Some? ==> domain[0] == CustodianIs(custodian.value)
    ensures CustodianTerms(domain) == (if custodian.Some? then 1 else 0) + (if accountant then 0 else 1)
    ensures year.Some? ==> OnOrAfter(field, YearStart(year.value)) in domain && OnOrBefore(field, YearEnd(year.value)) in domain
    ensures year.None? ==> forall k :: 0 <= k < |domain| ==> domain[k].CustodianIs?
    ensures !accountant ==> domain[|domain| - 1] == CustodianIs(user)
    ensures forall l :: Holds(domain, l) <==> Selected(custodian, year, user, accountant, l)
  {
    domain := [];
    if custodian.Some? {
      HoldsAppendAll(domain, CustodianIs(custodian.value));
      CustodianTermsAppend(domain, CustodianIs(custodian.value));
      domain := domain + [CustodianIs(custodian.value)];
    }
    assert |domain| == (if custodian.Some? then 1 else 0);
    assert forall l :: Holds(domain, l) <==> OfCustodian(custodian, l);
    if year.Some? {
      HoldsAppendAll(domain, OnOrAfter(field, YearStart(year.value)));
      CustodianTermsAppend(domain, OnOrAfter(field, YearStart(year.value)));
      domain := domain + [OnOrAfter(field, YearStart(year.value))];
      HoldsAppendAll(domain, OnOrBefore(field, YearEnd(year.value)));
      CustodianTermsAppend(domain, OnOrBefore(field, YearEnd(year.value)));
      domain := domain + [OnOrBefore(field, YearEnd(year.value))];
    }
    assert |domain| == (if custodian.Some? then 1 else 0) + (if year.Some? then 2 else 0);
    assert forall l :: Holds(domain, l) <==> OfCustodian(custodian, l) && InYear(year, l);
    if !accountant {
      HoldsAppendAll(domain, CustodianIs(user));
      CustodianTermsAppend(domain, CustodianIs(user));
      domain := domain + [CustodianIs(user)];
    }
  }

  lemma HoldsAppendAll(domain: seq<Term>, t: Term)
    ensures forall l :: Holds(domain + [t], l) <==> Holds(domain, l) && TermHolds(t, l)
  {
    forall l {
      HoldsAppend(domain, t, l);
    }
  }

  /** For a line with a real date, the two year bounds select exactly the
      lines of that year. */
  lemma YearBoundsSelectYear(custodian: Option<nat>, y: int, user: nat, accountant: bool, l: ReportLine)
    requires l.date.Some? && Valid(l.date.value)
    ensures Selected(custodian, Some(y), user, accountant, l)
            <==> Selected(custodian, None, user, accountant, l) && l.date.value.year == y
  {
    WithinYear(l.date.value, y);
  }

  /** `search(domain)`: the lines satisfying it, in their order. */
  function Search(lines: seq<ReportLine>, domain: seq<Term>): (r: seq<ReportLine>)
    ensures forall l :: l in r <==> l in lines && Holds(domain, l)
    ensures |r| <= |lines|
  {
    if lines == [] then []
    else (if Holds(domain, lines[0]) then [lines[0]] else []) + Search(lines[1..], domain)
  }

  /** `_onchange_filters`: the wizard's lines become exactly the lines the
      filters select. */
  method OnchangeFilters(allAllocations: seq<ReportLine>, allExpenses: seq<ReportLine>,
                         custodian: Option<nat>, year: Option<int>, user: nat, accountant: bool)
    returns (allocations: seq<ReportLine>, expenses: seq<ReportLine>)
    ensures forall l :: l in allocations <==> l in allAllocations && Selected(custodian, year, user, accountant, l)
    ensures forall l :: l in expenses <==> l in allExpenses && Selected(custodian, year, user, accountant, l)
  {
    var allocationDomain := FilterDomain(PaymentDate, custodian, year, user, accountant);
    var expenseDomain := FilterDomain(ExpenseDate, custodian, year, user, accountant);
    allocations := Search(allAllocations, allocationDomain);
    expenses := Search(allExpenses, expenseDomain);
  }

  function Total(lines: seq<ReportLine>): real {
    if lines == [] then 0.0 else lines[0].amount + Total(lines[1..])
  }

  /** A petty cash record as the summary reads it; `active` is false for an
      archived box. */
  datatype BoxBalance = BoxBalance(custodian: nat, broughtForward: real, active: bool)

  /** The brought-forward amounts of the boxes of `custodian`, or of every
      box when it is none; the default search leaves archived boxes out. */
  function BroughtForwardOf(boxes: seq<BoxBalance>, custodian: Option<nat>): real {
    if boxes == [] then 0.0
    else (if boxes[0].active && (custodian.None? || boxes[0].custodian == custodian.value)
          then boxes[0].broughtForward else 0.0)
         + BroughtForwardOf(boxes[1..], custodian)
  }

  lemma {:induction false} BroughtForwardAppend(a: seq<BoxBalance>, b: seq<BoxBalance>, custodian: Option<nat>)
    ensures BroughtForwardOf(a + b, custodian) == BroughtForwardOf(a, custodian) + BroughtForwardOf(b, custodian)
    decreases |a|
  {
    if a == [] {
      assert a + b == b;
    } else {
      assert (a + b)[1..] == a[1..] + b;
      BroughtForwardAppend(a[1..], b, custodian);
    }
  }

  /** An archived box adds nothing to the brought forward: removing it
      leaves the sum as it was. */
  lemma ArchivedBoxIgnored(boxes: seq<BoxBalance>, i: nat, custodian: Option<nat>)
    requires i < |boxes| && !boxes[i].active
    ensures BroughtForwardOf(boxes, custodian) == BroughtForwardOf(boxes[..i] + boxes[i + 1..], custodian)
  {
    assert boxes == boxes[..i] + ([boxes[i]] + boxes[i + 1..]);
    BroughtForwardAppend(boxes[..i], [boxes[i]] + boxes[i + 1..], custodian);
    BroughtForwardAppend([boxes[i]], boxes[i + 1..], custodian);
    BroughtForwardAppend(boxes[..i], boxes[i + 1..], custodian);
  }

  datatype Summary = Summary(broughtForward: real, allocatedTotal: real, expensedTotal: real, balance: real)

  /** `_compute_summary`: totals of the selected lines, and the brought
      forward of the chosen custodian's boxes, or of the boxes the user may
      see when no custodian is chosen. */
  function ComputeSummary(allocations: seq<ReportLine>, expenses: seq<ReportLine>, boxes: seq<BoxBalance>,
                          custodian: Option<nat>, user: nat, accountant: bool): (r: Summary)
    ensures r.balance == r.broughtForward + r.allocatedTotal - r.expensedTotal
    ensures r.allocatedTotal == Total(allocations) && r.expensedTotal == Total(expenses)
    ensures custodian.Some? ==> r.broughtForward == BroughtForwardOf(boxes, custodian)
    ensures custodian.None? && accountant ==> r.broughtForward == BroughtForwardOf(boxes, None)
    ensures custodian.None? && !accountant ==> r.broughtForward == BroughtForwardOf(boxes, Some(user))
  {
    var scope := if custodian.Some? then custodian else if accountant then None else Some(user);
    var bf := BroughtForwardOf(boxes, scope);
    Summary(bf, Total(allocations), Total(expenses), bf + Total(allocations) - Total(expenses))
  }

  datatype ReportError = NoXlsxWriter | NothingToExport

  /** The guard of `action_print_pdf`. */
  function PrintGuard(allocations: seq<ReportLine>, expenses: seq<ReportLine>): (r: Outcome<ReportError>)
    ensures r.Fail? <==> allocations == [] && expenses == []
    ensures r.Fail? ==> r.error == NothingToExport
  {
    if allocations == [] && expenses == [] then Fail(NothingToExport) else Pass
  }

  /** The guards of `action_export_excel`: the missing library first. */
  function ExportGuard(xlsxAvailable: bool, allocations: seq<ReportLine>, expenses: seq<ReportLine>): (r: Outcome<ReportError>)
    ensures !xlsxAvailable ==> r == Fail(NoXlsxWriter)
    ensures xlsxAvailable ==> r == PrintGuard(allocations, expenses)
  {
    if !xlsxAvailable then Fail(NoXlsxWriter) else PrintGuard(allocations, expenses)
  }

  // ---------------------------------------------------------------------
  // The printed report

  /** The data dictionary; a missing key is `None`. */
  datatype ReportData = ReportData(allocationIds: Option<seq<nat>>, expenseIds: Option<seq<nat>>, broughtForward: Option<real>)

  function Ids(lines: seq<ReportLine>): (r: seq<nat>)
    ensures |r| == |lines| && forall k :: 0 <= k < |r| ==> r[k] == lines[k].id
  {
    if lines == [] then [] else [lines[0].id] + Ids(lines[1..])
  }

  /** The data `action_print_pdf` hands to the report. */
  function PrintData(allocations: seq<ReportLine>, expenses: seq<ReportLine>, s: Summary): ReportData {
    ReportData(Some(Ids(allocations)), Some(Ids(expenses)), Some(s.broughtForward))
  }

  /** The sum of the amounts of the records `ids` browses. */
  function SumAmounts(ids: seq<nat>, amountOf: nat -> real): real {
    if ids == [] then 0.0 else amountOf(ids[0]) + SumAmounts(ids[1..], amountOf)
  }

  datatype ReportValues = ReportValues(broughtForward: real, allocatedTotal: real, expensedTotal: real, balance: real)

  /** `_get_report_values`: everything recomputed from the ids, with `[]`
      and `0.0` for missing keys and an absent data dictionary. */
  function GetReportValues(data: Option<ReportData>, amountOf: nat -> real): (r: ReportValues)
    ensures r.balance == r.broughtForward + r.allocatedTotal - r.expensedTotal
    ensures data.None? ==> r == ReportValues(0.0, 0.0, 0.0, 0.0)
    ensures data.Some? && data.value.broughtForward.None? ==> r.broughtForward == 0.0
    ensures data.Some? && data.value.allocationIds.None? ==> r.allocatedTotal == 0.0
    ensures data.Some? && data.value.expenseIds.None? ==> r.expensedTotal == 0.0
  {
    var d := if data.Some? then data.value else ReportData(None, None, None);
    var allocationIds := if d.allocationIds.Some? then d.allocationIds.value else [];
    var expenseIds := if d.expenseIds.Some? then d.expenseIds.value else [];
    var bf := if d.broughtForward.Some? then d.broughtForward.value else 0.0;
    var allocatedSum := SumAmounts(allocationIds, amountOf);
    var expensedSum := SumAmounts(expenseIds, amountOf);
    ReportValues(bf, allocatedSum, expensedSum, bf + allocatedSum - expensedSum)
  }

  /** Browsing the ids of some lines sums their amounts. */
  lemma {:induction false} SumAmountsOfIds(lines: seq<ReportLine>, amountOf: nat -> real)
    requires forall k :: 0 <= k < |lines| ==> amountOf(lines[k].id) == lines[k].amount
    ensures SumAmounts(Ids(lines), amountOf) == Total(lines)
  {
    if lines != [] {
      assert Ids(lines)[1..] == Ids(lines[1..]);
      SumAmountsOfIds(lines[1..], amountOf);
    }
  }

  /** The printed report shows the same totals and balance as the wizard
      it was printed from. */
  lemma PrintedReportMatchesWizard(allocations: seq<ReportLine>, expenses: seq<ReportLine>, boxes: seq<BoxBalance>,
                                   custodian: Option<nat>, user: nat, accountant: bool, amountOf: nat -> real)
    requires forall k :: 0 <= k < |allocations| ==> amountOf(allocations[k].id) == allocations[k].amount
    requires forall k :: 0 <= k < |expenses| ==> amountOf(expenses[k].id) == expenses[k].amount
    ensures var s := ComputeSummary(allocations, expenses, boxes, custodian, user, accountant);
            var r := GetReportValues(Some(PrintData(allocations, expenses, s)), amountOf);
            r.broughtForward == s.broughtForward && r.allocatedTotal == s.allocatedTotal
            && r.expensedTotal == s.expensedTotal && r.balance == s.balance
  {
    SumAmountsOfIds(allocations, amountOf);
    SumAmountsOfIds(expenses, amountOf);
  }

  // ---------------------------------------------------------------------
  // Year choices

  predicate StrictlyIncreasing(s: seq<int>) {
    forall i, j :: 0 <= i < j < |s| ==> s[i] < s[j]
  }

  /** Adds `y` to a strictly increasing sequence, keeping it so. */
  function Insert(s: seq<int>, y: int): (r: seq<int>)
    requires StrictlyIncreasing(s)
    ensures StrictlyIncreasing(r)
    ensures forall z :: z in r <==> z in s || z == y
  {
    if s == [] then [y]
    else if y < s[0] then
      HeadLeast(s);
      ConsIncreasing(y, s);
      [y] + s
    else if y == s[0] then s
    else
      HeadLeast(s);
      var rest := Insert(s[1..], y);
      assert s == [s[0]] + s[1..];
      ConsIncreasing(s[0], rest);
      [s[0]] + rest
  }

  /** The tail of a strictly increasing sequence is strictly increasing and
      above its head. */
  lemma HeadLeast(s: seq<int>)
    requires StrictlyIncreasing(s) && s != []
    ensures StrictlyIncreasing(s[1..])
    ensures forall z :: z in s[1..] ==> z > s[0]
  {
    forall z | z in s[1..]
      ensures z > s[0]
    {
      var j :| 0 <= j < |s[1..]| && s[1..][j] == z;
      assert s[j + 1] == z;
    }
  }

  /** A value below every element of a strictly increasing sequence can be
      put in front of it. */
  lemma ConsIncreasing(x: int, rest: seq<int>)
    requires StrictlyIncreasing(rest)
    requires forall z :: z in rest ==> z > x
    ensures StrictlyIncreasing([x] + rest)
  {
    var r := [x] + rest;
    forall i, j | 0 <= i < j < |r|
      ensures r[i] < r[j]
    {
      assert r[j] == rest[j - 1];
      if i > 0 {
        assert r[i] == rest[i - 1];
      } else {
        assert rest[j - 1] in rest;
      }
    }
  }

  /** Adds the non-zero years of `rows` to `years`. */
  method AddYears(years: seq<int>, rows: seq<int>) returns (r: seq<int>)
    requires StrictlyIncreasing(years)
    ensures StrictlyIncreasing(r)
    ensures forall z :: z in r <==> z in years || (z in rows && z != 0)
  {
    r := years;
    for k := 0 to |rows|
      invariant StrictlyIncreasing(r)
      invariant forall z :: z in r <==> z in years || (z in rows[..k] && z != 0)
    {
      assert rows[..k + 1] == rows[..k] + [rows[k]];
      if rows[k] != 0 {
        r := Insert(r, rows[k]);
      }
    }
    assert rows[..|rows|] == rows;
  }

  /** `_get_year_selection`: the distinct non-zero years of the allocation
      and expense dates, and the current year, in ascending order. */
  method YearSelection(allocationYears: seq<int>, expenseYears: seq<int>, currentYear: int) returns (years: seq<int>)
    ensures StrictlyIncreasing(years)
    ensures currentYear in years
    ensures forall z :: z in years <==>
      z == currentYear || (z != 0 && (z in allocationYears || z in expenseYears))
  {
    years := AddYears([], allocationYears);
    years := AddYears(years, expenseYears);
    years := Insert(years, currentYear);
  }

  /** The selection pairs `(str(year), str(year))`. */
  function YearLabels(years: seq<int>): (r: seq<(string, string)>)
    ensures |r| == |years|
    ensures forall k :: 0 <= k < |r| ==> r[k].0 == r[k].1 == IntToString(years[k])
  {
    if years == [] then [] else [(IntToString(years[0]), IntToString(years[0]))] + YearLabels(years[1..])
  }

  /** Distinct years give distinct selection keys. */
  lemma YearLabelsDistinct(years: seq<int>)
    requires StrictlyIncreasing(years)
    ensures var r := YearLabels(years);
            forall i, j :: 0 <= i < j < |r| ==> r[i].0 != r[j].0
  {
    var r := YearLabels(years);
    forall i, j | 0 <= i < j < |r|
      ensures r[i].0 != r[j].0
    {
      if r[i].0 == r[j].0 {
        IntToStringInjective(years[i], years[j]);
      }
    }
  }
}
