/** Employees and the history records their writes and creations append.
    A write that changes the work location of some employees logs one record
    for each of them, naming the location they leave. */
module WorkLocationEmployee {
  import opened Wrappers
  import opened WorkLocationHistory

  /** Why a write is refused: a history record cannot be stored without a
      location, so clearing the location of an employee who has one fails
      (and the whole write with it). */
  datatype Error = LocationRequired(employee: nat)

  /** The record `write` logs for employee `emp` moving from `previous` to
      `location`. */
  function MoveRecord(id: nat, emp: nat, location: nat, previous: Option<nat>, now: int, user: nat): HistoryRecord {
    HistoryRecord(id, Some(emp), location, previous, Some(now), user, "")
  }

  /** The records a write setting the location to `newLocation` logs for
      `ids`, numbered from `firstId`: one per employee whose location differs.
      Defined on a prefix of `ids`, as the loop visits them. */
  function WriteRecords(location: map<nat, Option<nat>>, ids: seq<nat>, newLocation: nat, firstId: nat, now: int, user: nat)
    : (r: seq<HistoryRecord>)
    requires forall k :: 0 <= k < |ids| ==> ids[k] in location
    ensures |r| <= |ids|
    decreases |ids|
  {
    if ids == [] then []
    else
      var before := WriteRecords(location, ids[..|ids| - 1], newLocation, firstId, now, user);
      var emp := ids[|ids| - 1];
      if location[emp] == Some(newLocation) then before
      else before + [MoveRecord(firstId + |before|, emp, newLocation, location[emp], now, user)]
  }

  /** Every record is for one of `ids` whose location differed from
      `newLocation`, names the location left, and is numbered in order. */
  predicate AreMoves(location: map<nat, Option<nat>>, ids: seq<nat>, newLocation: nat, firstId: nat, r: seq<HistoryRecord>) {
    forall k :: 0 <= k < |r| ==>
      r[k].employee.Some? && r[k].employee.value in ids && r[k].employee.value in location
      && r[k].location == newLocation
      && r[k].previous == location[r[k].employee.value]
      && r[k].previous != Some(newLocation)
      && r[k].id == firstId + k
  }

  /** Every logged record is for a written employee whose location differed,
      and names the location the employee leaves. */
  lemma {:induction false} WriteRecordsAreMoves(location: map<nat, Option<nat>>, ids: seq<nat>, newLocation: nat,
                                                firstId: nat, now: int, user: nat)
    requires forall k :: 0 <= k < |ids| ==> ids[k] in location
    ensures AreMoves(location, ids, newLocation, firstId, WriteRecords(location, ids, newLocation, firstId, now, user))
    decreases |ids|
  {
    if ids != [] {
      var prefix := ids[..|ids| - 1];
      var last := ids[|ids| - 1];
      WriteRecordsAreMoves(location, prefix, newLocation, firstId, now, user);
      var before := WriteRecords(location, prefix, newLocation, firstId, now, user);
      var r := WriteRecords(location, ids, newLocation, firstId, now, user);
      assert forall e :: e in prefix ==> e in ids;
      if location[last] != Some(newLocation) {
        assert r == before + [MoveRecord(firstId + |before|, last, newLocation, location[last], now, user)];
        assert r[|before|] == MoveRecord(firstId + |before|, last, newLocation, location[last], now, user);
        assert last in ids;
      }
    }
  }

  /** With distinct ids, a written employee whose location differed gets
      exactly one record, and everybody else none. */
  lemma {:induction false} WriteRecordsCount(location: map<nat, Option<nat>>, ids: seq<nat>, newLocation: nat,
                                             firstId: nat, now: int, user: nat, emp: nat)
    requires forall k :: 0 <= k < |ids| ==> ids[k] in location
    requires forall i, j :: 0 <= i < j < |ids| ==> ids[i] != ids[j]
    ensures HistoryCount(WriteRecords(location, ids, newLocation, firstId, now, user), emp)
            == (if emp in ids && location[emp] != Some(newLocation) then 1 else 0)
    decreases |ids|
  {
    if ids != [] {
      var prefix := ids[..|ids| - 1];
      var last := ids[|ids| - 1];
      WriteRecordsCount(location, prefix, newLocation, firstId, now, user, emp);
      var before := WriteRecords(location, prefix, newLocation, firstId, now, user);
      if location[last] != Some(newLocation) {
        HistoryCountAppend(before, [MoveRecord(firstId + |before|, last, newLocation, location[last], now, user)], emp);
        assert HistoryCount([MoveRecord(firstId + |before|, last, newLocation, location[last], now, user)], emp)
               == (if emp == last then 1 else 0);
      }
      assert ids == prefix + [last];
      assert emp in ids <==> emp in prefix || emp == last;
      assert last !in prefix;
    }
  }

  /** The employees and the history table. */
  class EmployeeBook {
    var location: map<nat, Option<nat>>
    var history: seq<HistoryRecord>
    var nextId: nat

    constructor ()
      ensures location == map[] && history == [] && nextId == 0
    {
      location := map[];
      history := [];
      nextId := 0;
    }

    /** `write(vals)`: `newLocation` is `None` when the vals do not set the
        work location, `Some(None)` when they clear it.  On a refusal nothing
        is written. */
    method Write(ids: seq<nat>, newLocation: Option<Option<nat>>, now: int, user: nat) returns (r: Outcome<Error>)
      requires forall k :: 0 <= k < |ids| ==> ids[k] in location
      modifies this
      ensures newLocation.None? ==> r == Pass && history == old(history) && location == old(location)
      ensures newLocation == Some(None) ==>
        (r.Fail? <==> exists k :: 0 <= k < |ids| && old(location)[ids[k]].Some?)
      ensures newLocation.Some? && newLocation.value.Some? ==> r == Pass
      ensures r.Fail? ==> history == old(history) && location == old(location) && nextId == old(nextId)
      ensures r.Pass? && newLocation.Some? && newLocation.value.Some? ==>
        history == old(history) + WriteRecords(old(location), ids, newLocation.value.value, old(nextId), now, user)
        && nextId == old(nextId) + |WriteRecords(old(location), ids, newLocation.value.value, old(nextId), now, user)|
      ensures r.Pass? && newLocation.Some? ==>
        location.Keys == old(location).Keys
        && (forall e :: e in location ==> location[e] == if e in ids then newLocation.value else old(location)[e])
      ensures newLocation.None? || newLocation == Some(None) ==> history == old(history) && nextId == old(nextId)
    {
      if newLocation.None? {
        return Pass;
      }
      var target := newLocation.value;
      if target.None? {
        for k := 0 to |ids|
          invariant forall j :: 0 <= j < k ==> location[ids[j]].None?
        {
          if location[ids[k]].Some? {
            return Fail(LocationRequired(ids[k]));
          }
        }
      } else {
        var logged: seq<HistoryRecord> := [];
        for k := 0 to |ids|
          invariant logged == WriteRecords(location, ids[..k], target.value, nextId, now, user)
        {
          assert ids[..k + 1][..k] == ids[..k];
          var emp := ids[k];
          if location[emp] != target {
            logged := logged + [MoveRecord(nextId + |logged|, emp, target.value, location[emp], now, user)];
          }
        }
        assert ids[..|ids|] == ids;
        history := history + logged;
        nextId := nextId + |logged|;
      }
      location := map e | e in location :: if e in ids then target else location[e];
      return Pass;
    }

    /** `create(vals_list)`: new employees `ids`, each logged with an empty
        previous location when created with one. */
    method Create(ids: seq<nat>, locations: seq<Option<nat>>, now: int, user: nat)
      requires |ids| == |locations|
      requires forall k :: 0 <= k < |ids| ==> ids[k] !in location
      requires forall i, j :: 0 <= i < j < |ids| ==> ids[i] != ids[j]
      modifies this
      ensures history == old(history) + CreateRecords(ids, locations, old(nextId), now, user)
      ensures nextId == old(nextId) + |CreateRecords(ids, locations, old(nextId), now, user)|
      ensures forall k :: 0 <= k < |ids| ==> ids[k] in location && location[ids[k]] == locations[k]
      ensures forall e :: e in old(location) ==> e in location && location[e] == old(location)[e]
      ensures forall e :: e in location ==> e in old(location) || e in ids
    {
      var logged := LogCreated(ids, locations, nextId, now, user);
      WithCreatedStores(location, ids, locations);
      forall e | e in location ensures e !in ids {
        forall k | 0 <= k < |ids| ensures ids[k] != e {
        }
      }
      location := WithCreated(location, ids, locations);
      history := history + logged;
      nextId := nextId + |logged|;
    }
  }

  /** The loop of `create` over the new employees: one history record per
      employee created with a location, numbered from `firstId`. */
  method LogCreated(ids: seq<nat>, locations: seq<Option<nat>>, firstId: nat, now: int, user: nat)
    returns (logged: seq<HistoryRecord>)
    requires |ids| == |locations|
    ensures logged == CreateRecords(ids, locations, firstId, now, user)
  {
    logged := [];
    for k := 0 to |ids|
      invariant logged == CreateRecords(ids[..k], locations[..k], firstId, now, user)
    {
      CreateRecordsStep(ids, locations, k, firstId, now, user);
      if locations[k].Some? {
        logged := logged + [MoveRecord(firstId + |logged|, ids[k], locations[k].value, None, now, user)];
      }
    }
    assert ids[..|ids|] == ids && locations[..|locations|] == locations;
  }

  /** The work locations after `super().create` has stored the new
      employees `ids` with `locations`. */
  function WithCreated(m: map<nat, Option<nat>>, ids: seq<nat>, locations: seq<Option<nat>>): map<nat, Option<nat>>
    requires |ids| == |locations|
    decreases |ids|
  {
    if ids == [] then m
    else WithCreated(m[ids[0] := locations[0]], ids[1..], locations[1..])
  }

  /** Storing new employees with distinct ids gives each its location,
      keeps every other employee's, and adds no other key. */
  lemma {:induction false} WithCreatedStores(m: map<nat, Option<nat>>, ids: seq<nat>, locations: seq<Option<nat>>)
    requires |ids| == |locations|
    requires forall i, j :: 0 <= i < j < |ids| ==> ids[i] != ids[j]
    ensures var r := WithCreated(m, ids, locations);
            (forall k :: 0 <= k < |ids| ==> ids[k] in r && r[ids[k]] == locations[k])
            && (forall e :: e in m && e !in ids ==> e in r && r[e] == m[e])
            && (forall e :: e in r ==> e in m || e in ids)
    decreases |ids|
  {
    if ids != [] {
      var m1 := m[ids[0] := locations[0]];
      var tail := ids[1..];
      assert forall i, j :: 0 <= i < j < |tail| ==> tail[i] != tail[j] by {
        forall i, j | 0 <= i < j < |tail| ensures tail[i] != tail[j] {
          assert tail[i] == ids[i + 1] && tail[j] == ids[j + 1];
        }
      }
      WithCreatedStores(m1, tail, locations[1..]);
      var r := WithCreated(m, ids, locations);
      assert r == WithCreated(m1, tail, locations[1..]);
      assert ids[0] !in tail by {
        forall k | 0 <= k < |tail| ensures tail[k] != ids[0] {
          assert tail[k] == ids[k + 1];
        }
      }
      forall k | 0 <= k < |ids| ensures ids[k] in r && r[ids[k]] == locations[k] {
        if k > 0 {
          assert ids[k] == tail[k - 1] && locations[k] == locations[1..][k - 1];
        }
      }
      forall e | e in m && e !in ids ensures e in r && r[e] == m[e] {
        assert e != ids[0];
        assert e !in tail by {
          forall k | 0 <= k < |tail| ensures tail[k] != e {
            assert tail[k] == ids[k + 1];
          }
        }
      }
      forall e | e in r ensures e in m || e in ids {
        if e in tail {
          var k :| 0 <= k < |tail| && tail[k] == e;
          assert ids[k + 1] == e;
        }
      }
    }
  }

  /** The records `create` logs: one per employee created with a location. */
  function CreateRecords(ids: seq<nat>, locations: seq<Option<nat>>, firstId: nat, now: int, user: nat): (r: seq<HistoryRecord>)
    requires |ids| == |locations|
    ensures |r| <= |ids|
    decreases |ids|
  {
    if ids == [] then []
    else
      var n := |ids| - 1;
      var before := CreateRecords(ids[..n], locations[..n], firstId, now, user);
      if locations[n].None? then before
      else before + [MoveRecord(firstId + |before|, ids[n], locations[n].value, None, now, user)]
  }

  lemma CreateRecordsStep(ids: seq<nat>, locations: seq<Option<nat>>, k: nat, firstId: nat, now: int, user: nat)
    requires |ids| == |locations| && k < |ids|
    ensures var before := CreateRecords(ids[..k], locations[..k], firstId, now, user);
            CreateRecords(ids[..k + 1], locations[..k + 1], firstId, now, user)
            == if locations[k].None? then before
               else before + [MoveRecord(firstId + |before|, ids[k], locations[k].value, None, now, user)]
  {
    assert ids[..k + 1][..k] == ids[..k];
    assert locations[..k + 1][..k] == locations[..k];
  }

  /** How many of `locations` are set. */
  function LocatedCount(locations: seq<Option<nat>>): nat
    decreases |locations|
  {
    if locations == [] then 0
    else LocatedCount(locations[..|locations| - 1]) + (if locations[|locations| - 1].Some? then 1 else 0)
  }

  /** A created employee's record holds the location it was created with
      and no previous one; employees created without a location get none. */
  lemma {:induction false} CreateRecordsAreFirst(ids: seq<nat>, locations: seq<Option<nat>>, firstId: nat, now: int, user: nat)
    requires |ids| == |locations|
    ensures var r := CreateRecords(ids, locations, firstId, now, user);
            forall k :: 0 <= k < |r| ==>
              r[k].previous.None? && r[k].employee.Some?
              && exists j :: 0 <= j < |ids| && ids[j] == r[k].employee.value && locations[j] == Some(r[k].location)
    ensures |CreateRecords(ids, locations, firstId, now, user)| == LocatedCount(locations)
    decreases |ids|
  {
    if ids != [] {
      CreateRecordsAreFirst(ids[..|ids| - 1], locations[..|ids| - 1], firstId, now, user);
    }
  }
}
