/** The "check availability" wizard of a purchase request: one row per
    request line and stocked source location, editable transfer quantities
    kept within what is available and still requested, and the conversion of
    the chosen rows into lines of the transfer wizard. */
module CheckAvailabilityWizard {
  import opened Wrappers
  import opened Text
  import opened Stock
  import opened PurchaseRequest
  import opened CreateTransferWizard

  /** One wizard row; its identity is its position in the wizard. */
  datatype Row = Row(prLine: nat, product: nat, location: Option<Location>, requested: real, transfer: real)

  /** A location with stock and its available quantity, as kept in the
      `locations_with_stock` dictionary (insertion order preserved). */
  datatype Entry = Entry(location: Location, available: real)

  /** `StockQuant._get_available_quantity(product, location)`, supplied by the
      host: product id and location id to quantity. */
  type Availability = (nat, nat) -> real

  datatype Error =
    | NothingToTransfer
    | ExceedsAvailable(product: nat, qty: real, available: real)
    | ExceedsUnfulfilled(line: nat, total: real, unfulfilled: real)

  // ---------------------------------------------------------------------
  // Building the rows

  /** A request line the wizard offers rows for. */
  predicate Qualifies(l: Line) {
    !l.cancelled && l.unfulfilledQty > 0.0 && l.product.Some?
  }

  predicate QuantMatches(q: Quant, product: nat, company: nat) {
    q.product == product && q.location.internal && q.quantity > 0.0 && q.company == company
  }

  /** The quant search: this product, internal locations, positive
      quantity, the request's company; in the order given. */
  function SearchQuants(quants: seq<Quant>, product: nat, company: nat): (r: seq<Quant>)
    ensures forall k :: 0 <= k < |r| ==> QuantMatches(r[k], product, company) && r[k] in quants
    ensures forall k :: 0 <= k < |quants| && QuantMatches(quants[k], product, company) ==> quants[k] in r
  {
    if quants == [] then []
    else if QuantMatches(quants[0], product, company) then [quants[0]] + SearchQuants(quants[1..], product, company)
    else SearchQuants(quants[1..], product, company)
  }

  /** The destination itself, or a location below it by `parent_path`, when
      both paths are set. */
  predicate Excluded(loc: Location, dest: Option<Location>) {
    dest.Some? &&
    (loc == dest.value
     || (loc.parentPath != "" && dest.value.parentPath != ""
         && StartsWith(loc.parentPath, dest.value.parentPath)))
  }

  function LocationsOf(entries: seq<Entry>): (r: seq<Location>)
    ensures |r| == |entries| && forall k :: 0 <= k < |r| ==> r[k] == entries[k].location
  {
    seq(|entries|, k requires 0 <= k < |entries| => entries[k].location)
  }

  /** One pass of the quant loop. */
  function StockStep(entries: seq<Entry>, q: Quant, product: nat, dest: Option<Location>,
                     available: Availability): (r: seq<Entry>)
    ensures r == entries || r == entries + [Entry(q.location, available(product, q.location.id))]
    ensures r != entries ==> !Excluded(q.location, dest) && q.location !in LocationsOf(entries)
                             && available(product, q.location.id) > 0.0
    ensures forall l :: l in LocationsOf(entries) ==> l in LocationsOf(r)
    ensures !Excluded(q.location, dest) && available(product, q.location.id) > 0.0
            ==> q.location in LocationsOf(r)
  {
    if Excluded(q.location, dest) then entries
    else if q.location in LocationsOf(entries) then entries
    else if available(product, q.location.id) > 0.0 then
      var r := entries + [Entry(q.location, available(product, q.location.id))];
      assert LocationsOf(r) == LocationsOf(entries) + [q.location];
      r
    else entries
  }

  /** The dictionary after the quant loop has run over `quants`. */
  function StockEntries(quants: seq<Quant>, product: nat, dest: Option<Location>,
                        available: Availability): (entries: seq<Entry>)
    ensures forall k :: 0 <= k < |entries| ==>
      !Excluded(entries[k].location, dest)
      && entries[k].available == available(product, entries[k].location.id)
      && entries[k].available > 0.0
      && exists j :: 0 <= j < |quants| && quants[j].location == entries[k].location
    ensures forall i, j :: 0 <= i < j < |entries| ==> entries[i].location != entries[j].location
    ensures forall j :: 0 <= j < |quants| && !Excluded(quants[j].location, dest)
              && available(product, quants[j].location.id) > 0.0
              ==> quants[j].location in LocationsOf(entries)
    decreases |quants|
  {
    if quants == [] then []
    else
      var prefix := StockEntries(quants[..|quants| - 1], product, dest, available);
      var last := quants[|quants| - 1];
      assert forall j :: 0 <= j < |quants| - 1 ==> quants[..|quants| - 1][j] == quants[j];
      StockStep(prefix, last, product, dest, available)
  }

  /** The rows created for one qualifying line and its stocked locations:
      one per location, or a single row without location. */
  function LineRows(l: Line, entries: seq<Entry>): (rows: seq<Row>)
    requires l.product.Some?
    ensures entries == [] ==> rows == [Row(l.id, l.product.value, None, l.unfulfilledQty, 0.0)]
    ensures entries != [] ==>
      (|rows| == |entries| && forall k :: 0 <= k < |rows| ==> rows[k].location == Some(entries[k].location))
    ensures forall k :: 0 <= k < |rows| ==>
      rows[k].prLine == l.id && rows[k].product == l.product.value
      && rows[k].requested == l.unfulfilledQty && rows[k].transfer == 0.0
  {
    if entries == [] then [Row(l.id, l.product.value, None, l.unfulfilledQty, 0.0)]
    else seq(|entries|, k requires 0 <= k < |entries| =>
               Row(l.id, l.product.value, Some(entries[k].location), l.unfulfilledQty, 0.0))
  }

  function RowsForLine(l: Line, quants: seq<Quant>, company: nat, dest: Option<Location>,
                       available: Availability): (rows: seq<Row>)
    ensures rows != [] ==> Qualifies(l)
    ensures forall k :: 0 <= k < |rows| ==>
      rows[k].transfer == 0.0 && rows[k].prLine == l.id && rows[k].requested == l.unfulfilledQty
      && rows[k].product == l.product.value
    ensures forall k :: 0 <= k < |rows| && rows[k].location.Some? ==>
      !Excluded(rows[k].location.value, dest) && available(rows[k].product, rows[k].location.value.id) > 0.0
  {
    if Qualifies(l) then
      LineRows(l, StockEntries(SearchQuants(quants, l.product.value, company), l.product.value, dest, available))
    else []
  }

  /** All rows `_create_wizard_lines` creates for the request lines. */
  function WizardRows(lines: seq<Line>, quants: seq<Quant>, company: nat, dest: Option<Location>,
                      available: Availability): (rows: seq<Row>)
    ensures forall k :: 0 <= k < |rows| ==>
      rows[k].transfer == 0.0
      && exists i :: 0 <= i < |lines| && Qualifies(lines[i]) && rows[k].prLine == lines[i].id
                     && rows[k].requested == lines[i].unfulfilledQty
                     && rows[k].product == lines[i].product.value
    ensures forall k :: 0 <= k < |rows| && rows[k].location.Some? ==>
      !Excluded(rows[k].location.value, dest) && available(rows[k].product, rows[k].location.value.id) > 0.0
    decreases |lines|
  {
    if lines == [] then []
    else
      var prefix := WizardRows(lines[..|lines| - 1], quants, company, dest, available);
      var l := lines[|lines| - 1];
      assert forall i :: 0 <= i < |lines| - 1 ==> lines[..|lines| - 1][i] == lines[i];
      prefix + RowsForLine(l, quants, company, dest, available)
  }

  /** Every qualifying line gets at least one row, and a line without any
      stocked location gets exactly one, without location. */
  lemma LineWithoutStockGetsOneRow(l: Line, quants: seq<Quant>, company: nat, dest: Option<Location>,
                                   available: Availability)
    requires Qualifies(l)
    ensures |RowsForLine(l, quants, company, dest, available)| >= 1
    ensures StockEntries(SearchQuants(quants, l.product.value, company), l.product.value, dest, available) == []
            ==> RowsForLine(l, quants, company, dest, available)
                == [Row(l.id, l.product.value, None, l.unfulfilledQty, 0.0)]
  {
  }

  predicate DistinctIds(lines: seq<Line>) {
    forall i, j :: 0 <= i < j < |lines| ==> lines[i].id != lines[j].id
  }

  /** No two rows of the same request line share a location. */
  predicate OncePerLine(rows: seq<Row>) {
    forall a, b :: 0 <= a < b < |rows| && rows[a].prLine == rows[b].prLine ==>
      rows[a].location.None? || rows[a].location != rows[b].location
  }

  lemma OncePerLineConcat(prefix: seq<Row>, tail: seq<Row>)
    requires OncePerLine(prefix) && OncePerLine(tail)
    requires forall a, b :: 0 <= a < |prefix| && 0 <= b < |tail| ==> prefix[a].prLine != tail[b].prLine
    ensures OncePerLine(prefix + tail)
  {
    var rows := prefix + tail;
    forall a, b | 0 <= a < b < |rows| && rows[a].prLine == rows[b].prLine
      ensures rows[a].location.None? || rows[a].location != rows[b].location
    {
      if b < |prefix| {
        assert rows[a] == prefix[a] && rows[b] == prefix[b];
      } else if a < |prefix| {
        assert false;
      } else {
        assert rows[a] == tail[a - |prefix|] && rows[b] == tail[b - |prefix|];
      }
    }
  }

  /** The rows of one line name each stocked location once. */
  lemma RowsForLineOnce(l: Line, quants: seq<Quant>, company: nat, dest: Option<Location>,
                        available: Availability)
    ensures OncePerLine(RowsForLine(l, quants, company, dest, available))
  {
    if Qualifies(l) {
      var e := StockEntries(SearchQuants(quants, l.product.value, company), l.product.value, dest, available);
      var rows := LineRows(l, e);
      if e != [] {
        forall a, b | 0 <= a < b < |rows|
          ensures rows[a].location != rows[b].location
        {
          assert rows[a].location == Some(e[a].location);
          assert rows[b].location == Some(e[b].location);
        }
      }
    }
  }

  /** Within the rows of one request line a location appears at most once. */
  lemma {:induction false} LocationOncePerLine(lines: seq<Line>, quants: seq<Quant>, company: nat,
                                               dest: Option<Location>, available: Availability)
    requires DistinctIds(lines)
    ensures OncePerLine(WizardRows(lines, quants, company, dest, available))
    decreases |lines|
  {
    if lines != [] {
      var init := lines[..|lines| - 1];
      var l := lines[|lines| - 1];
      assert DistinctIds(init);
      LocationOncePerLine(init, quants, company, dest, available);
      var prefix := WizardRows(init, quants, company, dest, available);
      var tail := RowsForLine(l, quants, company, dest, available);
      RowsForLineOnce(l, quants, company, dest, available);
      forall a, b | 0 <= a < |prefix| && 0 <= b < |tail|
        ensures prefix[a].prLine != tail[b].prLine
      {
        var i :| 0 <= i < |init| && Qualifies(init[i]) && prefix[a].prLine == init[i].id;
        assert init[i] == lines[i];
      }
      OncePerLineConcat(prefix, tail);
    }
  }

  // ---------------------------------------------------------------------
  // Quantities on the rows

  /** `_compute_available_qty`. */
  function AvailableQty(r: Row, available: Availability): real {
    if r.location.Some? then available(r.product, r.location.value.id) else 0.0
  }

  /** Sum of the transfer quantities of the rows of request line `line`. */
  function SumFor(rows: seq<Row>, line: nat): real
    decreases |rows|
  {
    if rows == [] then 0.0
    else SumFor(rows[..|rows| - 1], line) + (if rows[|rows| - 1].prLine == line then rows[|rows| - 1].transfer else 0.0)
  }

  lemma {:induction false} SumForAppend(a: seq<Row>, b: seq<Row>, line: nat)
    ensures SumFor(a + b, line) == SumFor(a, line) + SumFor(b, line)
    decreases |b|
  {
    if b == [] {
      assert a + b == a;
    } else {
      var ab := a + b;
      assert ab[..|ab| - 1] == a + b[..|b| - 1];
      assert ab[|ab| - 1] == b[|b| - 1];
      SumForAppend(a, b[..|b| - 1], line);
    }
  }

  /** One more row of a prefix adds its transfer to its own line only. */
  lemma SumForPrefixStep(rows: seq<Row>, k: nat, line: nat)
    requires k < |rows|
    ensures SumFor(rows[..k + 1], line) == SumFor(rows[..k], line) + (if rows[k].prLine == line then rows[k].transfer else 0.0)
  {
    assert rows[..k + 1][..k] == rows[..k];
  }

  lemma SumForSingle(r: Row, line: nat)
    ensures SumFor([r], line) == (if r.prLine == line then r.transfer else 0.0)
  {
    assert [r][..0] == [];
  }

  /** Transfer of the other rows of the same request line. */
  function OthersSum(rows: seq<Row>, k: nat): real
    requires k < |rows|
  {
    SumFor(rows[..k], rows[k].prLine) + SumFor(rows[k + 1..], rows[k].prLine)
  }

  /** `_get_remaining_qty_for_pr_line`. */
  function RemainingForLine(rows: seq<Row>, k: nat): (r: real)
    requires k < |rows|
    ensures r >= 0.0 && r >= rows[k].requested - OthersSum(rows, k)
    ensures r == 0.0 || r == rows[k].requested - OthersSum(rows, k)
  {
    var rest := rows[k].requested - OthersSum(rows, k);
    if 0.0 >= rest then 0.0 else rest
  }

  /** The other rows together with this one make up the line's total. */
  lemma OthersPlusSelf(rows: seq<Row>, k: nat)
    requires k < |rows|
    ensures SumFor(rows, rows[k].prLine) == OthersSum(rows, k) + rows[k].transfer
  {
    var line := rows[k].prLine;
    assert rows == rows[..k] + [rows[k]] + rows[k + 1..];
    SumForAppend(rows[..k] + [rows[k]], rows[k + 1..], line);
    SumForAppend(rows[..k], [rows[k]], line);
    SumForSingle(rows[k], line);
  }

  /** `_onchange_transfer_qty`: a negative entry becomes 0; otherwise the
      entry is cut to the available quantity and then to what the line still
      needs. */
  function ClampTransfer(t: real, available: real, remaining: real): (r: real)
    ensures t < 0.0 ==> r == 0.0
    ensures t >= 0.0 ==> r <= available && r <= remaining && r <= t
    ensures t >= 0.0 ==> r == t || r == available || r == remaining
    ensures t >= 0.0 && available >= 0.0 && remaining >= 0.0 ==> r >= 0.0
  {
    if t < 0.0 then 0.0
    else
      var capped := if t > available then available else t;
      if capped > remaining then remaining else capped
  }

  // ---------------------------------------------------------------------
  // Selection and conversion

  /** `line_ids.filtered(lambda l: l.transfer_qty > 0)`. */
  function Chosen(rows: seq<Row>): (r: seq<Row>)
    ensures forall k :: 0 <= k < |r| ==> r[k].transfer > 0.0 && r[k] in rows
    ensures forall k :: 0 <= k < |rows| && rows[k].transfer > 0.0 ==> rows[k] in r
  {
    if rows == [] then []
    else if rows[0].transfer > 0.0 then [rows[0]] + Chosen(rows[1..])
    else Chosen(rows[1..])
  }

  /** The transfer wizard line made from a chosen row. */
  function ToTransferLine(r: Row, uomOf: nat -> Option<nat>): TransferLine {
    TransferLine(r.prLine, r.product, r.location, r.transfer, uomOf(r.prLine))
  }

  /** What `action_convert_to_transfer` accepts. */
  predicate ConvertAccepts(chosen: seq<Row>, available: Availability, unfulfilledOf: nat -> real) {
    chosen != []
    && (forall k :: 0 <= k < |chosen| ==> chosen[k].transfer <= AvailableQty(chosen[k], available))
    && (forall k :: 0 <= k < |chosen| ==> SumFor(chosen, chosen[k].prLine) <= unfulfilledOf(chosen[k].prLine))
  }

  /** A chosen row without location is never accepted: it has nothing
      available. */
  lemma AcceptedRowsHaveSource(chosen: seq<Row>, available: Availability, unfulfilledOf: nat -> real)
    requires ConvertAccepts(chosen, available, unfulfilledOf)
    requires forall k :: 0 <= k < |chosen| ==> chosen[k].transfer > 0.0
    ensures forall k :: 0 <= k < |chosen| ==> chosen[k].location.Some?
  {
  }

  /** Row `k` is the first chosen row asking for more than is available at
      its location. */
  predicate FirstOverAvailable(chosen: seq<Row>, available: Availability, k: int) {
    0 <= k < |chosen|
    && chosen[k].transfer > AvailableQty(chosen[k], available)
    && forall j :: 0 <= j < k ==> chosen[j].transfer <= AvailableQty(chosen[j], available)
  }

  /** The error the per-row check raises for row `k`. */
  function AvailableError(chosen: seq<Row>, available: Availability, k: nat): Error
    requires k < |chosen|
  {
    ExceedsAvailable(chosen[k].product, chosen[k].transfer, AvailableQty(chosen[k], available))
  }

  /** Row `k` is the first chosen row whose request line's total exceeds
      that line's unfulfilled quantity; the lines of the rows before it all
      fit, so its line is the first failing one in order of first
      appearance. */
  predicate FirstOverUnfulfilled(chosen: seq<Row>, unfulfilledOf: nat -> real, k: int) {
    0 <= k < |chosen|
    && SumFor(chosen, chosen[k].prLine) > unfulfilledOf(chosen[k].prLine)
    && forall j :: 0 <= j < k ==> SumFor(chosen, chosen[j].prLine) <= unfulfilledOf(chosen[j].prLine)
  }

  /** The error the per-line check raises for the line of row `k`. */
  function UnfulfilledError(chosen: seq<Row>, unfulfilledOf: nat -> real, k: nat): Error
    requires k < |chosen|
  {
    var line := chosen[k].prLine;
    ExceedsUnfulfilled(line, SumFor(chosen, line), unfulfilledOf(line))
  }

  /** The per-row check: the first chosen row asking for more than is
      available at its location, if any. */
  method CheckAvailable(chosen: seq<Row>, available: Availability) returns (r: Outcome<Error>)
    ensures r == Pass <==> forall k :: 0 <= k < |chosen| ==> chosen[k].transfer <= AvailableQty(chosen[k], available)
    ensures r.Fail? ==>
      exists k :: FirstOverAvailable(chosen, available, k) && r.error == AvailableError(chosen, available, k)
  {
    for k := 0 to |chosen|
      invariant forall j :: 0 <= j < k ==> chosen[j].transfer <= AvailableQty(chosen[j], available)
    {
      var avail := AvailableQty(chosen[k], available);
      if chosen[k].transfer > avail {
        assert FirstOverAvailable(chosen, available, k);
        return Fail(ExceedsAvailable(chosen[k].product, chosen[k].transfer, avail));
      }
    }
    return Pass;
  }

  /** `pr_line_totals`: the chosen transfer per request line, with the
      lines in order of first appearance. */
  method LineTotals(chosen: seq<Row>) returns (totals: map<nat, real>, order: seq<nat>)
    ensures forall l :: l in totals <==> l in order
    ensures forall l :: l in totals <==> exists j :: 0 <= j < |chosen| && chosen[j].prLine == l
    ensures forall l :: l in totals ==> totals[l] == SumFor(chosen, l)
    ensures InFirstSight(chosen, order, |chosen|)
  {
    totals := map[];
    order := [];
    for k := 0 to |chosen|
      invariant forall l :: l in totals <==> l in order
      invariant forall l :: l in totals <==> exists j :: 0 <= j < k && chosen[j].prLine == l
      invariant forall l :: l in totals ==> totals[l] == SumFor(chosen[..k], l)
      invariant InFirstSight(chosen, order, k)
    {
      var line := chosen[k].prLine;
      forall l | l in totals
        ensures SumFor(chosen[..k + 1], l) == SumFor(chosen[..k], l) + (if l == line then chosen[k].transfer else 0.0)
      {
        SumForPrefixStep(chosen, k, l);
      }
      InFirstSightGrow(chosen, order, k);
      if line !in totals {
        SumForPrefixStep(chosen, k, line);
        SumForAbsent(chosen[..k], line);
        totals := totals[line := 0.0];
        InFirstSightAppend(chosen, order, k);
        assert order + [line] == order + [chosen[k].prLine];
        order := order + [line];
      }
      totals := totals[line := totals[line] + chosen[k].transfer];
    }
    assert chosen[..|chosen|] == chosen;
  }

  /** `order` lists request lines in order of first appearance among the
      first `n` chosen rows: each line has a row among them, and every row
      before that row belongs to a line listed earlier. */
  predicate InFirstSight(chosen: seq<Row>, order: seq<nat>, n: nat)
    requires n <= |chosen|
  {
    forall i :: 0 <= i < |order| ==> FirstSeenAt(chosen, order, i, n)
  }

  predicate FirstSeenAt(chosen: seq<Row>, order: seq<nat>, i: nat, n: nat)
    requires i < |order| && n <= |chosen|
  {
    exists k :: 0 <= k < n && chosen[k].prLine == order[i] && forall j :: 0 <= j < k ==> chosen[j].prLine in order[..i]
  }

  /** Appending the line of row `n`, seen for the first time. */
  lemma InFirstSightAppend(chosen: seq<Row>, order: seq<nat>, n: nat)
    requires n < |chosen| && InFirstSight(chosen, order, n)
    requires forall j :: 0 <= j < n ==> chosen[j].prLine in order
    ensures InFirstSight(chosen, order + [chosen[n].prLine], n + 1)
  {
    var o := order + [chosen[n].prLine];
    var m := n + 1;
    forall i: nat | i < |o|
      ensures FirstSeenAt(chosen, o, i, m)
    {
      if i < |order| {
        assert o[..i] == order[..i];
        assert FirstSeenAt(chosen, order, i, n);
        var k :| 0 <= k < n && chosen[k].prLine == order[i] && forall j :: 0 <= j < k ==> chosen[j].prLine in order[..i];
        assert chosen[k].prLine == o[i];
      } else {
        assert o[..i] == order;
        assert chosen[n].prLine == o[i];
      }
    }
  }

  /** Looking at one more row keeps every listed line's first sight. */
  lemma InFirstSightGrow(chosen: seq<Row>, order: seq<nat>, n: nat)
    requires n < |chosen| && InFirstSight(chosen, order, n)
    ensures InFirstSight(chosen, order, n + 1)
  {
    var m := n + 1;
    forall i: nat | i < |order|
      ensures FirstSeenAt(chosen, order, i, m)
    {
      assert FirstSeenAt(chosen, order, i, n);
    }
  }

  /** The per-line check, in dictionary order. */
  method CheckTotals(chosen: seq<Row>, unfulfilledOf: nat -> real) returns (r: Outcome<Error>)
    ensures r == Pass <==> forall k :: 0 <= k < |chosen| ==> SumFor(chosen, chosen[k].prLine) <= unfulfilledOf(chosen[k].prLine)
    ensures r.Fail? ==>
      exists k :: FirstOverUnfulfilled(chosen, unfulfilledOf, k) && r.error == UnfulfilledError(chosen, unfulfilledOf, k)
  {
    var totals, order := LineTotals(chosen);
    for i := 0 to |order|
      invariant forall j :: 0 <= j < i ==> SumFor(chosen, order[j]) <= unfulfilledOf(order[j])
    {
      var line := order[i];
      if totals[line] > unfulfilledOf(line) {
        assert FirstSeenAt(chosen, order, i, |chosen|);
        var k :| 0 <= k < |chosen| && chosen[k].prLine == line
          && forall j :: 0 <= j < k ==> chosen[j].prLine in order[..i];
        forall j | 0 <= j < k
          ensures SumFor(chosen, chosen[j].prLine) <= unfulfilledOf(chosen[j].prLine)
        {
          assert chosen[j].prLine in order[..i];
          var m :| 0 <= m < i && order[m] == chosen[j].prLine;
        }
        assert FirstOverUnfulfilled(chosen, unfulfilledOf, k);
        return Fail(ExceedsUnfulfilled(line, totals[line], unfulfilledOf(line)));
      }
    }
    forall k | 0 <= k < |chosen|
      ensures SumFor(chosen, chosen[k].prLine) <= unfulfilledOf(chosen[k].prLine)
    {
      assert chosen[k].prLine in totals;
      var j :| 0 <= j < |order| && order[j] == chosen[k].prLine;
    }
    return Pass;
  }

  /** The error `action_convert_to_transfer` raises on chosen rows: the
      per-row error of the first row over its available quantity when there
      is one, and otherwise the per-line error of the first line over its
      unfulfilled quantity. */
  predicate RaisedFirst(chosen: seq<Row>, available: Availability, unfulfilledOf: nat -> real, e: Error) {
    (exists k :: 0 <= k < |chosen| && FirstOverAvailable(chosen, available, k) && e == AvailableError(chosen, available, k))
    || ((forall k :: 0 <= k < |chosen| ==> chosen[k].transfer <= AvailableQty(chosen[k], available))
        && exists k :: 0 <= k < |chosen| && FirstOverUnfulfilled(chosen, unfulfilledOf, k) && e == UnfulfilledError(chosen, unfulfilledOf, k))
  }

  /** `action_convert_to_transfer`: validate the chosen rows, per row and per
      request line, and hand them to the transfer wizard unchanged. */
  method ConvertToTransfer(rows: seq<Row>, available: Availability, unfulfilledOf: nat -> real,
                           uomOf: nat -> Option<nat>) returns (r: Result<seq<TransferLine>, Error>)
    ensures r.Ok? <==> ConvertAccepts(Chosen(rows), available, unfulfilledOf)
    ensures Chosen(rows) == [] ==> r == Err(NothingToTransfer)
    ensures Chosen(rows) != [] && r.Err? ==> RaisedFirst(Chosen(rows), available, unfulfilledOf, r.error)
    ensures r.Ok? ==>
      (|r.value| == |Chosen(rows)|
       && forall k :: 0 <= k < |r.value| ==>
            r.value[k] == ToTransferLine(Chosen(rows)[k], uomOf) && r.value[k].source.Some?
            && r.value[k].qty > 0.0)
  {
    var chosen := Chosen(rows);
    if chosen == [] {
      return Err(NothingToTransfer);
    }
    var perRow := CheckAvailable(chosen, available);
    if perRow.Fail? {
      assert RaisedFirst(chosen, available, unfulfilledOf, perRow.error);
      return Err(perRow.error);
    }
    var perLine := CheckTotals(chosen, unfulfilledOf);
    if perLine.Fail? {
      assert RaisedFirst(chosen, available, unfulfilledOf, perLine.error);
      return Err(perLine.error);
    }
    assert ConvertAccepts(chosen, available, unfulfilledOf);
    AcceptedRowsHaveSource(chosen, available, unfulfilledOf);
    var out := TransferLines(chosen, uomOf);
    return Ok(out);
  }

  /** The transfer wizard lines of the chosen rows, one per row, in order. */
  method TransferLines(chosen: seq<Row>, uomOf: nat -> Option<nat>) returns (out: seq<TransferLine>)
    requires forall k :: 0 <= k < |chosen| ==> chosen[k].location.Some? && chosen[k].transfer > 0.0
    ensures |out| == |chosen|
    ensures forall k :: 0 <= k < |out| ==>
      out[k] == ToTransferLine(chosen[k], uomOf) && out[k].source.Some? && out[k].qty > 0.0
  {
    out := [];
    for k := 0 to |chosen|
      invariant |out| == k
      invariant forall j :: 0 <= j < k ==>
        out[j] == ToTransferLine(chosen[j], uomOf) && out[j].source.Some? && out[j].qty > 0.0
    {
      out := out + [ToTransferLine(chosen[k], uomOf)];
    }
  }

  /** A line with no chosen row so far contributes nothing to the sums. */
  lemma {:induction false} SumForAbsent(rows: seq<Row>, line: nat)
    requires forall j :: 0 <= j < |rows| ==> rows[j].prLine != line
    ensures SumFor(rows, line) == 0.0
    decreases |rows|
  {
    if rows != [] {
      SumForAbsent(rows[..|rows| - 1], line);
    }
  }

  /** The quant loop of `_create_wizard_lines`: fills the dictionary of
      stocked locations. */
  method CollectStock(found: seq<Quant>, product: nat, dest: Option<Location>, available: Availability)
    returns (entries: seq<Entry>)
    ensures entries == StockEntries(found, product, dest, available)
  {
    entries := [];
    for j := 0 to |found|
      invariant entries == StockEntries(found[..j], product, dest, available)
    {
      StockEntriesStep(found, j, product, dest, available);
      var q := found[j];
      if dest.Some? && q.location == dest.value {
        continue;
      }
      if dest.Some? && q.location.parentPath != "" && dest.value.parentPath != "" {
        if StartsWith(q.location.parentPath, dest.value.parentPath) {
          continue;
        }
      }
      if q.location !in LocationsOf(entries) {
        var stock := available(product, q.location.id);
        if stock > 0.0 {
          entries := entries + [Entry(q.location, stock)];
        }
      }
    }
    assert found[..|found|] == found;
  }

  lemma StockEntriesStep(found: seq<Quant>, j: nat, product: nat, dest: Option<Location>, available: Availability)
    requires j < |found|
    ensures StockEntries(found[..j + 1], product, dest, available)
            == StockStep(StockEntries(found[..j], product, dest, available), found[j], product, dest, available)
  {
    assert found[..j + 1][..j] == found[..j];
  }

  /** The row loop of `_create_wizard_lines` for one qualifying line. */
  method MakeLineRows(l: Line, entries: seq<Entry>) returns (created: seq<Row>)
    requires l.product.Some?
    ensures created == LineRows(l, entries)
  {
    if entries == [] {
      return [Row(l.id, l.product.value, None, l.unfulfilledQty, 0.0)];
    }
    created := [];
    for k := 0 to |entries|
      invariant |created| == k
      invariant forall j :: 0 <= j < k ==> created[j] == Row(l.id, l.product.value, Some(entries[j].location), l.unfulfilledQty, 0.0)
    {
      created := created + [Row(l.id, l.product.value, Some(entries[k].location), l.unfulfilledQty, 0.0)];
    }
  }

  lemma WizardRowsStep(lines: seq<Line>, i: nat, quants: seq<Quant>, company: nat, dest: Option<Location>,
                       available: Availability)
    requires i < |lines|
    ensures WizardRows(lines[..i + 1], quants, company, dest, available)
            == WizardRows(lines[..i], quants, company, dest, available) + RowsForLine(lines[i], quants, company, dest, available)
  {
    assert lines[..i + 1][..i] == lines[..i];
  }

  lemma ConcatAssoc<T>(a: seq<T>, b: seq<T>, c: seq<T>)
    ensures a + (b + c) == (a + b) + c
  {
  }

  // ---------------------------------------------------------------------
  // The wizard record

  class Wizard {
    var rows: seq<Row>
    var dest: Option<Location>

    constructor (dest: Option<Location>)
      ensures rows == [] && this.dest == dest
    {
      rows := [];
      this.dest := dest;
    }

    /** `_create_wizard_lines`. */
    method CreateWizardLines(lines: seq<Line>, quants: seq<Quant>, company: nat, available: Availability)
      modifies this
      ensures rows == old(rows) + WizardRows(lines, quants, company, dest, available)
      ensures dest == old(dest)
    {
      for i := 0 to |lines|
        invariant dest == old(dest)
        invariant rows == old(rows) + WizardRows(lines[..i], quants, company, dest, available)
      {
        WizardRowsStep(lines, i, quants, company, dest, available);
        ConcatAssoc(old(rows), WizardRows(lines[..i], quants, company, dest, available),
                    RowsForLine(lines[i], quants, company, dest, available));
        var l := lines[i];
        if l.cancelled || !(l.unfulfilledQty > 0.0) || l.product.None? {
          assert RowsForLine(l, quants, company, dest, available) == [];
          continue;
        }
        var product := l.product.value;
        var found := SearchQuants(quants, product, company);
        var entries := CollectStock(found, product, dest, available);
        var created := MakeLineRows(l, entries);
        assert created == RowsForLine(l, quants, company, dest, available);
        rows := rows + created;
      }
      assert lines[..|lines|] == lines;
    }

    /** `_onchange_location_id`: the row takes the new location with its
        transfer reset to 0; choosing the destination itself warns. */
    method OnchangeLocation(k: nat, location: Option<Location>) returns (warn: bool)
      requires k < |rows|
      modifies this
      ensures rows == old(rows)[k := old(rows)[k].(location := location, transfer := 0.0)]
      ensures warn <==> location.Some? && dest.Some? && location == dest
      ensures dest == old(dest)
    {
      rows := rows[k := rows[k].(location := location, transfer := 0.0)];
      warn := location.Some? && dest.Some? && location == dest;
    }

    /** `_onchange_transfer_qty` on row `k`, after the user typed `t`. */
    method OnchangeTransferQty(k: nat, t: real, available: Availability)
      requires k < |rows|
      modifies this
      ensures rows == old(rows)[k := old(rows)[k].(transfer :=
                ClampTransfer(t, AvailableQty(old(rows)[k], available), RemainingForLine(old(rows), k)))]
      ensures dest == old(dest)
    {
      var row := rows[k];
      var qty := t;
      if qty < 0.0 {
        rows := rows[k := row.(transfer := 0.0)];
        return;
      }
      var avail := AvailableQty(row, available);
      if qty > avail {
        qty := avail;
      }
      var remaining := RemainingForLine(rows, k);
      if qty > remaining {
        qty := remaining;
      }
      rows := rows[k := row.(transfer := qty)];
    }
  }

  /** After the transfer onchange with a non-negative entry, the rows of the
      line together transfer no more than the larger of what was requested
      and what the other rows already hold. */
  lemma {:induction false} OnchangeKeepsLineTotal(rows: seq<Row>, k: nat, t: real, avail: real)
    requires k < |rows| && t >= 0.0
    ensures var updated := rows[k := rows[k].(transfer := ClampTransfer(t, avail, RemainingForLine(rows, k)))];
            SumFor(updated, rows[k].prLine) <= if rows[k].requested >= OthersSum(rows, k)
                                             then rows[k].requested else OthersSum(rows, k)
  {
    var updated := rows[k := rows[k].(transfer := ClampTransfer(t, avail, RemainingForLine(rows, k)))];
    assert updated[..k] == rows[..k] && updated[k + 1..] == rows[k + 1..];
    OthersPlusSelf(updated, k);
    assert OthersSum(updated, k) == OthersSum(rows, k);
  }
}
