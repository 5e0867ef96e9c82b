/** Work location history records and what is computed on them: whether a
    record is its employee's current location, and how long the employee
    stayed there.  Datetimes are whole seconds. */
module WorkLocationHistory {
  import opened Wrappers
  import opened Text

  /** `hr.work.location.history`.  The employee and the change date are
      required when stored; the computes still guard against their absence. */
  datatype HistoryRecord = HistoryRecord(
    id: nat,
    employee: Option<nat>,
    location: nat,
    previous: Option<nat>,
    changeDate: Option<int>,
    changedBy: nat,
    notes: string)

  /** A dated record of employee `emp`. */
  predicate DatedOf(x: HistoryRecord, emp: nat) {
    x.employee == Some(emp) && x.changeDate.Some?
  }

  /** `a` comes before `b` in the order `change_date desc, id desc`. */
  predicate Later(a: HistoryRecord, b: HistoryRecord)
    requires a.changeDate.Some? && b.changeDate.Some?
  {
    a.changeDate.value > b.changeDate.value || (a.changeDate.value == b.changeDate.value && a.id > b.id)
  }

  /** The first dated record of `emp` by change date, newest first. */
  function Latest(records: seq<HistoryRecord>, emp: nat): (r: Option<HistoryRecord>)
    ensures r.None? <==> forall k :: 0 <= k < |records| ==> !DatedOf(records[k], emp)
    ensures r.Some? ==> r.value in records && DatedOf(r.value, emp)
    ensures r.Some? ==> forall k :: 0 <= k < |records| && DatedOf(records[k], emp) ==> !Later(records[k], r.value)
  {
    if records == [] then None
    else
      var rest := Latest(records[1..], emp);
      assert forall k :: 1 <= k < |records| ==> records[k] == records[1..][k - 1];
      var x := records[0];
      if !DatedOf(x, emp) then rest
      else if rest.None? || Later(x, rest.value) then Some(x)
      else rest
  }

  /** `_compute_is_current`. */
  function IsCurrent(records: seq<HistoryRecord>, r: HistoryRecord): (b: bool)
    ensures r.employee.None? || r.changeDate.None? ==> !b
    ensures b ==> exists k :: 0 <= k < |records| && records[k].id == r.id && DatedOf(records[k], r.employee.value)
  {
    if r.employee.None? || r.changeDate.None? then false
    else
      var latest := Latest(records, r.employee.value);
      latest.Some? && latest.value.id == r.id
  }

  predicate DistinctIds(records: seq<HistoryRecord>) {
    forall i, j :: 0 <= i < j < |records| ==> records[i].id != records[j].id
  }

  /** An employee has at most one current record. */
  lemma OneCurrentPerEmployee(records: seq<HistoryRecord>, i: nat, j: nat)
    requires DistinctIds(records)
    requires i < |records| && j < |records|
    requires records[i].employee == records[j].employee
    requires IsCurrent(records, records[i]) && IsCurrent(records, records[j])
    ensures i == j
  {
  }

  /** The current record of an employee is at least as recent as every other
      record of theirs. */
  lemma CurrentIsNewest(records: seq<HistoryRecord>, i: nat, k: nat)
    requires DistinctIds(records)
    requires i < |records| && k < |records|
    requires IsCurrent(records, records[i])
    requires DatedOf(records[k], records[i].employee.value)
    ensures records[k].changeDate.value <= records[i].changeDate.value
  {
    var latest := Latest(records, records[i].employee.value);
    var m :| 0 <= m < |records| && records[m] == latest.value;
  }

  /** Conversely, a dated record that no record of its employee comes
      before in `change_date desc, id desc` is the current one. */
  lemma NewestIsCurrent(records: seq<HistoryRecord>, k: nat, emp: nat)
    requires k < |records| && DatedOf(records[k], emp)
    requires forall j :: 0 <= j < |records| && DatedOf(records[j], emp) ==> !Later(records[j], records[k])
    ensures IsCurrent(records, records[k])
  {
    var latest := Latest(records, emp);
    assert latest.Some?;
    assert !Later(records[k], latest.value);
    var m :| 0 <= m < |records| && records[m] == latest.value;
    assert !Later(records[m], records[k]);
  }

  /** When the next record of the employee begins: the earliest change date
      after this record's, if any. */
  function NextChange(records: seq<HistoryRecord>, emp: nat, start: int): (r: Option<int>)
    ensures r.None? <==> forall k :: 0 <= k < |records| && DatedOf(records[k], emp) ==> records[k].changeDate.value <= start
    ensures r.Some? ==> r.value > start
                        && (exists k :: 0 <= k < |records| && DatedOf(records[k], emp) && records[k].changeDate.value == r.value)
                        && forall k :: 0 <= k < |records| && DatedOf(records[k], emp) && records[k].changeDate.value > start
                                       ==> records[k].changeDate.value >= r.value
  {
    if records == [] then None
    else
      var rest := NextChange(records[1..], emp, start);
      assert forall k :: 1 <= k < |records| ==> records[k] == records[1..][k - 1];
      var x := records[0];
      if !DatedOf(x, emp) || x.changeDate.value <= start then rest
      else if rest.None? || x.changeDate.value < rest.value then Some(x.changeDate.value)
      else rest
  }

  /** `int(x)` on a float: truncation toward zero. */
  function TruncDiv(a: int, d: int): (q: int)
    requires d > 0
    ensures a >= 0 ==> q == a / d
    ensures a < 0 ==> q <= 0 && -q * d <= -a < (-q + 1) * d
  {
    if a >= 0 then a / d else -((-a) / d)
  }

  /** The day, hour and minute parts `_compute_duration` takes from a span
      of `total` seconds (Python's `%` is Dafny's for a positive divisor). */
  datatype Parts = Parts(days: int, hours: nat, minutes: nat)

  function SpanParts(total: int): (p: Parts)
    ensures 0 <= p.hours < 24 && 0 <= p.minutes < 60
    ensures total >= 0 ==> p.days >= 0
    ensures total < 86400 ==> p.days <= 0
  {
    Parts(TruncDiv(total, 86400), (total % 86400) / 3600, (total % 3600) / 60)
  }

  /** `duration_display`: `Dd Hh Mm`, else `Hh Mm`, else `Mm`. */
  function Display(total: int): (s: string)
    ensures var p := SpanParts(total);
            (p.days > 0 ==> s == NatToString(p.days) + "d " + NatToString(p.hours) + "h " + NatToString(p.minutes) + "m")
            && (p.days <= 0 && p.hours > 0 ==> s == NatToString(p.hours) + "h " + NatToString(p.minutes) + "m")
            && (p.days <= 0 && p.hours == 0 ==> s == NatToString(p.minutes) + "m")
  {
    var p := SpanParts(total);
    if p.days > 0 then NatToString(p.days) + ("d " + (NatToString(p.hours) + ("h " + (NatToString(p.minutes) + "m"))))
    else if p.hours > 0 then NatToString(p.hours) + ("h " + (NatToString(p.minutes) + "m"))
    else NatToString(p.minutes) + "m"
  }

  /** For a span that is not negative, the parts are the whole minutes. */
  lemma PartsAreMinutes(total: int)
    requires total >= 0
    ensures var p := SpanParts(total);
            total / 60 == p.days * 1440 + p.hours * 60 + p.minutes
  {
    var q, r := total / 86400, total % 86400;
    var h, r2 := r / 3600, r % 3600;
    var m, s := r2 / 60, r2 % 60;
    assert total == 86400 * q + 3600 * h + 60 * m + s;
    assert total == 3600 * (24 * q + h) + r2;
    assert total % 3600 == r2;
    assert total == 60 * (1440 * q + 60 * h + m) + s;
    assert total / 60 == 1440 * q + 60 * h + m;
  }

  lemma DropPrefix(p: string, u: string, v: string)
    requires p + u == p + v
    ensures u == v
  {
    assert u == (p + u)[|p|..];
  }

  /** The letter after the leading number of a display tells which of the
      three forms it has. */
  lemma DisplayForm(total: int)
    ensures var p := SpanParts(total);
            var s := Display(total);
            DigitRun(s) < |s|
            && s[DigitRun(s)] == (if p.days > 0 then 'd' else if p.hours > 0 then 'h' else 'm')
  {
    var p := SpanParts(total);
    if p.days > 0 {
      DigitRunOf(NatToString(p.days), "d " + (NatToString(p.hours) + ("h " + (NatToString(p.minutes) + "m"))));
    } else if p.hours > 0 {
      DigitRunOf(NatToString(p.hours), "h " + (NatToString(p.minutes) + "m"));
    } else {
      DigitRunOf(NatToString(p.minutes), "m");
    }
  }

  /** The display of a span that is not negative gives back its whole
      minutes: two spans with the same display agree to the minute. */
  lemma DisplayDeterminesMinutes(a: int, b: int)
    requires a >= 0 && b >= 0
    requires Display(a) == Display(b)
    ensures a / 60 == b / 60
  {
    var p, q := SpanParts(a), SpanParts(b);
    DisplayForm(a);
    DisplayForm(b);
    if p.days > 0 {
      SplitNumber(p.days, "d " + (NatToString(p.hours) + ("h " + (NatToString(p.minutes) + "m"))),
                  q.days, "d " + (NatToString(q.hours) + ("h " + (NatToString(q.minutes) + "m"))));
      DropPrefix("d ", NatToString(p.hours) + ("h " + (NatToString(p.minutes) + "m")),
                 NatToString(q.hours) + ("h " + (NatToString(q.minutes) + "m")));
      SplitNumber(p.hours, "h " + (NatToString(p.minutes) + "m"), q.hours, "h " + (NatToString(q.minutes) + "m"));
      DropPrefix("h ", NatToString(p.minutes) + "m", NatToString(q.minutes) + "m");
      SplitNumber(p.minutes, "m", q.minutes, "m");
    } else if p.hours > 0 {
      SplitNumber(p.hours, "h " + (NatToString(p.minutes) + "m"), q.hours, "h " + (NatToString(q.minutes) + "m"));
      DropPrefix("h ", NatToString(p.minutes) + "m", NatToString(q.minutes) + "m");
      SplitNumber(p.minutes, "m", q.minutes, "m");
    } else {
      SplitNumber(p.minutes, "m", q.minutes, "m");
    }
    PartsAreMinutes(a);
    PartsAreMinutes(b);
  }

  /** `duration` (days, unrounded) and `duration_display`. */
  datatype Duration = Duration(days: real, display: string)

  /** `_compute_duration` for `r`, with `now` the current time. */
  function ComputeDuration(records: seq<HistoryRecord>, r: HistoryRecord, now: int): (d: Duration)
    ensures r.employee.None? || r.changeDate.None? ==> d == Duration(0.0, "")
    ensures r.employee.Some? && r.changeDate.Some? ==>
      var next := NextChange(records, r.employee.value, r.changeDate.value);
      var end := if next.Some? then next.value else now;
      d.days == (end - r.changeDate.value) as real / 86400.0 && d.display == Display(end - r.changeDate.value)
  {
    if r.employee.None? || r.changeDate.None? then Duration(0.0, "")
    else
      var next := NextChange(records, r.employee.value, r.changeDate.value);
      var end := if next.Some? then next.value else now;
      var total := end - r.changeDate.value;
      Duration(total as real / 86400.0, Display(total))
  }

  /** A record followed by a later one of its employee lasts a positive
      time, and not beyond that later one. */
  lemma SupersededRecordEndsAtNext(records: seq<HistoryRecord>, r: HistoryRecord, k: nat, now: int)
    requires r.employee.Some? && r.changeDate.Some?
    requires k < |records| && DatedOf(records[k], r.employee.value)
    requires records[k].changeDate.value > r.changeDate.value
    ensures ComputeDuration(records, r, now).days > 0.0
    ensures ComputeDuration(records, r, now).days <= (records[k].changeDate.value - r.changeDate.value) as real / 86400.0
  {
  }

  /** `_compute_work_location_history_count`. */
  function HistoryCount(records: seq<HistoryRecord>, emp: nat): (n: nat)
    ensures n <= |records|
    ensures n == 0 <==> forall k :: 0 <= k < |records| ==> records[k].employee != Some(emp)
  {
    if records == [] then 0
    else
      assert forall k :: 1 <= k < |records| ==> records[k] == records[1..][k - 1];
      (if records[0].employee == Some(emp) then 1 else 0) + HistoryCount(records[1..], emp)
  }

  lemma HistoryCountAppend(records: seq<HistoryRecord>, more: seq<HistoryRecord>, emp: nat)
    ensures HistoryCount(records + more, emp) == HistoryCount(records, emp) + HistoryCount(more, emp)
  {
    if records != [] {
      assert (records + more)[0] == records[0];
      assert (records + more)[1..] == records[1..] + more;
      HistoryCountAppend(records[1..], more, emp);
    } else {
      assert records + more == more;
    }
  }
}
