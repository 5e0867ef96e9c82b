/** The installation hook of the history add-on: every employee that has a
    work location but no history yet gets one initial record. */
module WorkLocationHooks {
  import opened Wrappers
  import opened WorkLocationHistory
  import opened WorkLocationEmployee

  /** `SUPERUSER_ID`. */
  const SuperUser: nat := 1

  const InitialNote := "Initial work location (created by module installation)"

  /** An employee as the hook reads it; `active` is false for an archived
      employee. */
  datatype EmployeeRow = EmployeeRow(id: nat, location: Option<nat>, writeDate: Option<int>, createDate: Option<int>,
                                     active: bool)

  /** The hook's employee search: a work location is set, and the default
      search leaves archived employees out. */
  predicate Searched(row: EmployeeRow) {
    row.active && row.location.Some?
  }

  predicate HasHistory(history: seq<HistoryRecord>, emp: nat) {
    exists k :: 0 <= k < |history| && history[k].employee == Some(emp)
  }

  /** The initial record of a located employee, dated `write_date or
      create_date`. */
  function InitialRecord(id: nat, row: EmployeeRow): HistoryRecord
    requires row.location.Some?
  {
    HistoryRecord(id, Some(row.id), row.location.value, None,
                  if row.writeDate.Some? then row.writeDate else row.createDate,
                  SuperUser, InitialNote)
  }

  /** The records the hook creates for `rows`, numbered from `firstId`; an
      employee is skipped when it has no location or already has history,
      counting the records created earlier in the same run; archived
      employees are not searched. */
  function HookRecords(rows: seq<EmployeeRow>, history: seq<HistoryRecord>, firstId: nat): (r: seq<HistoryRecord>)
    ensures |r| <= |rows|
    decreases |rows|
  {
    if rows == [] then []
    else
      var n := |rows| - 1;
      var before := HookRecords(rows[..n], history, firstId);
      if !Searched(rows[n]) || HasHistory(history + before, rows[n].id) then before
      else before + [InitialRecord(firstId + |before|, rows[n])]
  }

  /** `post_init_hook`. */
  method PostInitHook(book: EmployeeBook, rows: seq<EmployeeRow>)
    modifies book
    ensures book.history == old(book.history) + HookRecords(rows, old(book.history), old(book.nextId))
    ensures book.nextId == old(book.nextId) + |HookRecords(rows, old(book.history), old(book.nextId))|
    ensures book.location == old(book.location)
  {
    ghost var start := book.history;
    var created: seq<HistoryRecord> := [];
    for k := 0 to |rows|
      invariant created == HookRecords(rows[..k], start, book.nextId)
      invariant book.history == start + created
      invariant start == old(book.history) && book.nextId == old(book.nextId) && book.location == old(book.location)
    {
      assert rows[..k + 1][..k] == rows[..k];
      var row := rows[k];
      if row.active && row.location.Some? {
        var existing := FindHistory(book.history, row.id);
        if !existing {
          var rec := InitialRecord(book.nextId + |created|, row);
          created := created + [rec];
          book.history := book.history + [rec];
        }
      }
    }
    assert rows[..|rows|] == rows;
    book.nextId := book.nextId + |created|;
  }

  /** `history_model.search([('employee_id', '=', emp)], limit=1)` found
      something. */
  method FindHistory(history: seq<HistoryRecord>, emp: nat) returns (found: bool)
    ensures found <==> HasHistory(history, emp)
  {
    for k := 0 to |history|
      invariant forall j :: 0 <= j < k ==> history[j].employee != Some(emp)
    {
      if history[k].employee == Some(emp) {
        return true;
      }
    }
    return false;
  }

  lemma HasHistoryAppend(history: seq<HistoryRecord>, more: seq<HistoryRecord>, emp: nat)
    ensures HasHistory(history, emp) ==> HasHistory(history + more, emp)
    ensures HasHistory(more, emp) ==> HasHistory(history + more, emp)
  {
    if HasHistory(history, emp) {
      var k :| 0 <= k < |history| && history[k].employee == Some(emp);
      assert (history + more)[k] == history[k];
    }
    if HasHistory(more, emp) {
      var k :| 0 <= k < |more| && more[k].employee == Some(emp);
      assert (history + more)[|history| + k] == more[k];
    }
  }

  /** Each record is an initial one: an employee of `rows` with no history
      in `history`, its location, no previous location, the superuser. */
  predicate AreInitial(rows: seq<EmployeeRow>, history: seq<HistoryRecord>, r: seq<HistoryRecord>) {
    forall k :: 0 <= k < |r| ==>
      r[k].previous.None? && r[k].changedBy == SuperUser && r[k].employee.Some?
      && !HasHistory(history, r[k].employee.value)
      && (exists j :: 0 <= j < |rows| && rows[j].id == r[k].employee.value && rows[j].active
                      && rows[j].location == Some(r[k].location))
  }

  /** The hook creates only initial records, for employees that had no
      history before it ran. */
  lemma {:induction false} HookRecordsAreInitial(rows: seq<EmployeeRow>, history: seq<HistoryRecord>, firstId: nat)
    ensures AreInitial(rows, history, HookRecords(rows, history, firstId))
    decreases |rows|
  {
    if rows != [] {
      var n := |rows| - 1;
      HookRecordsAreInitial(rows[..n], history, firstId);
      var before := HookRecords(rows[..n], history, firstId);
      var r := HookRecords(rows, history, firstId);
      forall k | 0 <= k < |r|
        ensures r[k].previous.None? && r[k].changedBy == SuperUser && r[k].employee.Some?
                && !HasHistory(history, r[k].employee.value)
                && (exists j :: 0 <= j < |rows| && rows[j].id == r[k].employee.value && rows[j].active
                                && rows[j].location == Some(r[k].location))
      {
        if k < |before| {
          assert r[k] == before[k];
          var j :| 0 <= j < |rows[..n]| && rows[..n][j].id == before[k].employee.value && rows[..n][j].active
                   && rows[..n][j].location == Some(before[k].location);
          assert rows[j] == rows[..n][j];
        } else {
          assert r == before + [InitialRecord(firstId + |before|, rows[n])];
          assert r[k] == InitialRecord(firstId + |before|, rows[n]);
          HasHistoryAppend(history, before, rows[n].id);
        }
      }
    }
  }

  /** Every active employee of `rows` that has a location has history. */
  predicate Covered(rows: seq<EmployeeRow>, history: seq<HistoryRecord>) {
    forall k :: 0 <= k < |rows| && Searched(rows[k]) ==> HasHistory(history, rows[k].id)
  }

  /** After the hook, every active located employee of `rows` has history. */
  lemma {:induction false} HookCovers(rows: seq<EmployeeRow>, history: seq<HistoryRecord>, firstId: nat)
    ensures Covered(rows, history + HookRecords(rows, history, firstId))
    decreases |rows|
  {
    if rows != [] {
      var n := |rows| - 1;
      HookCovers(rows[..n], history, firstId);
      var before := HookRecords(rows[..n], history, firstId);
      var r := HookRecords(rows, history, firstId);
      var more := if !Searched(rows[n]) || HasHistory(history + before, rows[n].id) then []
                  else [InitialRecord(firstId + |before|, rows[n])];
      assert r == before + more;
      assert history + r == (history + before) + more;
      forall k | 0 <= k < |rows| && Searched(rows[k])
        ensures HasHistory(history + r, rows[k].id)
      {
        if k < n {
          assert rows[k] == rows[..n][k];
          HasHistoryAppend(history + before, more, rows[k].id);
        } else if HasHistory(history + before, rows[n].id) {
          HasHistoryAppend(history + before, more, rows[n].id);
        } else {
          assert ((history + before) + more)[|history + before|] == more[0];
          HasHistoryAppend(history + before, more, rows[n].id);
        }
      }
    }
  }

  /** Nothing is created when every active located employee already has
      history. */
  lemma {:induction false} HookSkipsCovered(rows: seq<EmployeeRow>, history: seq<HistoryRecord>, firstId: nat)
    requires Covered(rows, history)
    ensures HookRecords(rows, history, firstId) == []
    decreases |rows|
  {
    if rows != [] {
      var n := |rows| - 1;
      assert forall k :: 0 <= k < n ==> rows[..n][k] == rows[k];
      HookSkipsCovered(rows[..n], history, firstId);
      assert history + [] == history;
    }
  }

  /** An archived employee gets no record, whatever its location. */
  lemma {:induction false} HookSkipsArchived(rows: seq<EmployeeRow>, history: seq<HistoryRecord>, firstId: nat, emp: nat)
    requires forall k :: 0 <= k < |rows| && rows[k].id == emp ==> !rows[k].active
    requires !HasHistory(history, emp)
    ensures !HasHistory(HookRecords(rows, history, firstId), emp)
    decreases |rows|
  {
    if rows != [] {
      var n := |rows| - 1;
      assert forall k :: 0 <= k < n ==> rows[..n][k] == rows[k];
      HookSkipsArchived(rows[..n], history, firstId, emp);
      var before := HookRecords(rows[..n], history, firstId);
      var r := HookRecords(rows, history, firstId);
      if r != before {
        assert r == before + [InitialRecord(firstId + |before|, rows[n])];
        forall k | 0 <= k < |r| ensures r[k].employee != Some(emp) {
          if k < |before| {
            assert r[k] == before[k];
          }
        }
      }
    }
  }

  /** Running the hook a second time creates nothing. */
  lemma HookIdempotent(rows: seq<EmployeeRow>, history: seq<HistoryRecord>, firstId: nat, secondId: nat)
    ensures HookRecords(rows, history + HookRecords(rows, history, firstId), secondId) == []
  {
    HookCovers(rows, history, firstId);
    HookSkipsCovered(rows, history + HookRecords(rows, history, firstId), secondId);
  }
}
