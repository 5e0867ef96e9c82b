/** The purchase request: its seven-state workflow, the gates on creating
    one (role and weekly quota), deletion, and the buttons that move it
    between states.  A request line is reduced to the values the request
    reads from it; the line's own computed quantities are given. */
module PurchaseRequest {
  import opened Wrappers
  import opened Dates

  datatype State = Draft | ToApprove | OnHold | Approved | InProgress | Done | Rejected

  /** What the request reads from one of its lines. */
  datatype Line = Line(
    id: nat,
    product: Option<nat>,
    productQty: real,
    cancelled: bool,
    unfulfilledQty: real,
    uom: Option<nat>)

  /** Membership of the current user in the request groups. */
  datatype Roles = Roles(administrator: bool, manager: bool, requester: bool)

  datatype Error =
    | ManagerCannotCreate
    | WeeklyLimitReached(limit: int, count: nat)
    | NotDraft
    | EmptyRequest(name: string)

  /** The three fields the hold and resume steps write. */
  datatype HoldFields = HoldFields(state: State, previousState: Option<State>, reason: Option<string>)

  /** One row of the "confirm close" wizard that `button_done` opens. */
  datatype ConfirmLine = ConfirmLine(
    lineId: nat,
    product: Option<nat>,
    requested: real,
    fulfilled: real,
    unfulfilled: real,
    uom: Option<nat>)

  /** The default name of a new request, and the name drawn from the
      request sequence; the sequence's format belongs to its data record. */
  datatype RequestName = Named(text: string) | Sequenced(number: nat)

  /** What the quota search sees of an existing request; `createDay` is the
      UTC calendar day of its `create_date`. */
  datatype Creation = Creation(name: RequestName, requestedBy: nat, createDay: Date)

  /** The values passed to `create` for one request. */
  datatype Vals = Vals(name: Option<string>, requestedBy: Option<nat>, assignedTo: Option<nat>)

  // ---------------------------------------------------------------------
  // Pure rules

  /** `_compute_is_editable`: every state but draft locks the request. */
  function IsEditable(s: State): (r: bool)
    ensures r <==> s == Draft
  {
    !(s == ToApprove || s == Approved || s == Rejected || s == InProgress || s == OnHold || s == Done)
  }

  /** `_can_be_deleted`. */
  predicate CanBeDeleted(s: State) {
    s == Draft
  }

  /** A line that counts towards "the request is not empty". */
  predicate Submittable(l: Line) {
    !l.cancelled && l.productQty != 0.0
  }

  /** `any(not line.cancelled and line.product_qty ...)`. */
  function AnySubmittable(lines: seq<Line>): (r: bool)
    ensures r <==> exists i :: 0 <= i < |lines| && Submittable(lines[i])
  {
    if lines == [] then false
    else Submittable(lines[0]) || AnySubmittable(lines[1..])
  }

  /** `_compute_to_approve_allowed`. */
  function ToApproveAllowed(s: State, lines: seq<Line>): (r: bool)
    ensures r <==> s == Draft && exists i :: 0 <= i < |lines| && Submittable(lines[i])
  {
    s == Draft && AnySubmittable(lines)
  }

  /** A line `button_done` asks about before closing. */
  predicate Unfulfilled(l: Line) {
    !l.cancelled && l.unfulfilledQty > 0.0
  }

  /** `line_ids.filtered(lambda l: not l.cancelled and l.unfulfilled_qty > 0)`:
      exactly the unfulfilled lines, in their order. */
  function UnfulfilledLines(lines: seq<Line>): (r: seq<Line>)
    ensures |r| <= |lines|
    ensures forall i :: 0 <= i < |r| ==> Unfulfilled(r[i]) && r[i] in lines
    ensures forall i :: 0 <= i < |lines| && Unfulfilled(lines[i]) ==> lines[i] in r
  {
    if lines == [] then []
    else if Unfulfilled(lines[0]) then [lines[0]] + UnfulfilledLines(lines[1..])
    else UnfulfilledLines(lines[1..])
  }

  /** `do_cancel` / `do_uncancel` on every line of the request. */
  function WithCancelled(lines: seq<Line>, flag: bool): seq<Line> {
    seq(|lines|, i requires 0 <= i < |lines| => lines[i].(cancelled := flag))
  }

  /** Cancelling or un-cancelling touches only the flag, line by line. */
  lemma WithCancelledKeepsLines(lines: seq<Line>, flag: bool)
    ensures |WithCancelled(lines, flag)| == |lines|
    ensures forall i :: 0 <= i < |lines| ==>
      WithCancelled(lines, flag)[i].cancelled == flag
      && WithCancelled(lines, flag)[i].(cancelled := lines[i].cancelled) == lines[i]
  {
  }

  /** The condition of `check_auto_reject`: no line is left uncancelled. */
  predicate AllCancelled(lines: seq<Line>) {
    forall i :: 0 <= i < |lines| ==> lines[i].cancelled
  }

  /** The condition of `check_auto_done`, lines part. */
  predicate AllFulfilled(lines: seq<Line>) {
    forall i :: 0 <= i < |lines| && !lines[i].cancelled ==> lines[i].unfulfilledQty <= 0.0
  }

  /** The condition under which `check_auto_done` closes a request. */
  predicate AutoDoneFires(s: State, lines: seq<Line>) {
    (s == Approved || s == InProgress) && AllFulfilled(lines) && lines != []
  }

  /** When every live line is fulfilled, `button_done` has nothing to ask. */
  lemma AllFulfilledHasNoUnfulfilled(lines: seq<Line>)
    requires AllFulfilled(lines)
    ensures UnfulfilledLines(lines) == []
  {
  }

  /** A rejected request's lines are all cancelled, so the auto-reject rule
      agrees with it; after reset to draft none are. */
  lemma RejectThenAutoReject(lines: seq<Line>)
    ensures AllCancelled(WithCancelled(lines, true))
    ensures forall i :: 0 <= i < |lines| ==> !WithCancelled(lines, false)[i].cancelled
    ensures !AnySubmittable(WithCancelled(lines, true))
  {
  }

  /** The write of `action_put_on_hold`. */
  function Hold(h: HoldFields, previous: Option<State>, reason: string): (r: HoldFields)
    ensures r.state == OnHold && r.previousState == previous && r.reason == Some(reason)
  {
    HoldFields(OnHold, previous, Some(reason))
  }

  /** `button_remove_on_hold` on one request. */
  function Resume(h: HoldFields): (r: HoldFields)
    ensures h.state == OnHold && h.previousState.Some? ==>
      r.state == h.previousState.value && r.previousState.None? && r.reason.None?
    ensures !(h.state == OnHold && h.previousState.Some?) ==> r == h
  {
    if h.state == OnHold && h.previousState.Some? then HoldFields(h.previousState.value, None, None)
    else h
  }

  /** Holding a request from state S, with S recorded as the wizard's
      previous state, and then lifting the hold returns it to S with the
      reason and the recorded state cleared. */
  lemma {:induction false} HoldResumeRoundTrip(h: HoldFields, reason: string)
    ensures Resume(Hold(h, Some(h.state), reason)) == HoldFields(h.state, None, None)
  {
    var held := Hold(h, Some(h.state), reason);
    assert held.state == OnHold && held.previousState == Some(h.state);
  }

  /** Lifting a hold a second time changes nothing. */
  lemma ResumeIdempotent(h: HoldFields)
    ensures Resume(Resume(h)) == Resume(h)
  {
  }

  // ---------------------------------------------------------------------
  // Creation gates

  /** `_check_pr_creation_permission`. */
  function CheckCreationPermission(roles: Roles): (r: Outcome<Error>)
    ensures r == Pass <==> roles.administrator || !roles.manager
    ensures r.Fail? ==> r.error == ManagerCannotCreate
  {
    if roles.administrator then Pass
    else if roles.manager then Fail(ManagerCannotCreate)
    else Pass
  }

  /** Requests by `user` created on or after `start`. */
  function CountSince(records: seq<Creation>, user: nat, start: Date): (n: nat)
    requires Valid(start) && forall i :: 0 <= i < |records| ==> Valid(records[i].createDay)
    ensures n <= |records|
  {
    if records == [] then 0
    else
      var rest := CountSince(records[1..], user, start);
      if records[0].requestedBy == user && Ordinal(start) <= Ordinal(records[0].createDay)
      then rest + 1 else rest
  }

  lemma CountSinceAppend(records: seq<Creation>, extra: seq<Creation>, user: nat, start: Date)
    requires Valid(start)
    requires forall i :: 0 <= i < |records| ==> Valid(records[i].createDay)
    requires forall i :: 0 <= i < |extra| ==> Valid(extra[i].createDay)
    ensures forall i :: 0 <= i < |records + extra| ==> Valid((records + extra)[i].createDay)
    ensures CountSince(records + extra, user, start)
         == CountSince(records, user, start) + CountSince(extra, user, start)
    decreases |records|
  {
    if records != [] {
      var all := records + extra;
      assert all[0] == records[0];
      assert all[1..] == records[1..] + extra;
      CountSinceAppend(records[1..], extra, user, start);
      assert CountSince(all, user, start)
          == CountSince(all[1..], user, start)
             + (if records[0].requestedBy == user && Ordinal(start) <= Ordinal(records[0].createDay) then 1 else 0);
    } else {
      assert records + extra == extra;
    }
  }

  predicate AllValidDays(records: seq<Creation>) {
    forall i :: 0 <= i < |records| ==> Valid(records[i].createDay)
  }

  /** The weekly quota is in force: a non-administrator requester with a
      positive limit. */
  predicate QuotaApplies(roles: Roles, limit: int) {
    !roles.administrator && roles.requester && limit > 0
  }

  /** `_check_pr_creation_limit`: requests by this user since Monday of the
      current week must stay below the configured limit.  `today` is the
      user's local date (`context_today`); the records are counted by their
      UTC creation day. */
  function CheckCreationLimit(user: nat, roles: Roles, limit: int, today: Date, records: seq<Creation>): (r: Outcome<Error>)
    requires Valid(today) && AllValidDays(records)
    ensures r.Fail? <==> QuotaApplies(roles, limit) && CountSince(records, user, WeekStart(today)) >= limit
    ensures r.Fail? ==> r.error == WeeklyLimitReached(limit, CountSince(records, user, WeekStart(today)))
  {
    WeekStartIsMonday(today);
    if roles.administrator then Pass
    else if !roles.requester then Pass
    else if limit <= 0 then Pass
    else
      var count := CountSince(records, user, WeekStart(today));
      if count >= limit then Fail(WeeklyLimitReached(limit, count)) else Pass
  }

  /** The count compares the stored UTC `create_date` with midnight UTC of
      the user's local Monday: a request made early on a local Monday while
      it is still Sunday in UTC is not in this week's count. */
  lemma LocalMondayBeforeUtcMidnight(today: Date, user: nat, name: RequestName)
    requires Valid(today) && Weekday(today) == 0 && today != Date(MinYear, 1, 1)
    ensures CountSince([Creation(name, user, PrevDay(today))], user, WeekStart(today)) == 0
  {
  }

  /** A request created today always falls in the current week's count. */
  lemma CreatedTodayCounts(today: Date, user: nat, c: Creation)
    requires Valid(today) && c.createDay == today && c.requestedBy == user
    ensures CountSince([c], user, WeekStart(today)) == 1
  {
    WeekStartIsMonday(today);
  }

  /** The record `create` stores for one `vals`: a missing name or the
      placeholder "New" draws the next sequence number.  `utcDay` is the
      UTC calendar day of the creation instant. */
  function NewCreation(v: Vals, user: nat, utcDay: Date, next: nat): (c: Creation)
    ensures (v.name.None? || v.name == Some("New")) <==> c.name == Sequenced(next)
    ensures c.requestedBy == (if v.requestedBy.Some? then v.requestedBy.value else user)
  {
    var name := if v.name.None? || v.name == Some("New") then Sequenced(next) else Named(v.name.value);
    var requester := if v.requestedBy.Some? then v.requestedBy.value else user;
    Creation(name, requester, utcDay)
  }

  /** The records of a batch, numbering placeholders from `next` on. */
  function NewCreations(vals: seq<Vals>, user: nat, utcDay: Date, next: nat): (r: seq<Creation>)
    ensures |r| == |vals|
    ensures forall i :: 0 <= i < |r| ==> r[i].createDay == utcDay
    decreases |vals|
  {
    if vals == [] then []
    else
      var c := NewCreation(vals[0], user, utcDay, next);
      [c] + NewCreations(vals[1..], user, utcDay, if c.name.Sequenced? then next + 1 else next)
  }

  /** How many placeholders a batch consumes from the sequence. */
  function SequencedCount(vals: seq<Vals>): nat {
    if vals == [] then 0
    else (if vals[0].name.None? || vals[0].name == Some("New") then 1 else 0) + SequencedCount(vals[1..])
  }

  /** `create` as the source has it: both gates are checked once for the
      whole batch, then every request of the batch is stored. */
  function CreateAsWritten(records: seq<Creation>, vals: seq<Vals>, user: nat, roles: Roles,
                           limit: int, today: Date, utcDay: Date): (r: Result<seq<Creation>, Error>)
    requires Valid(today) && Valid(utcDay) && AllValidDays(records)
    ensures r.Ok? <==> CheckCreationPermission(roles) == Pass
                       && CheckCreationLimit(user, roles, limit, today, records) == Pass
    ensures r.Ok? ==> |r.value| == |records| + |vals| && r.value[..|records|] == records
    ensures r.Ok? ==> r.value[|records|..] == NewCreations(vals, user, utcDay, 0)
  {
    var permission := CheckCreationPermission(roles);
    if permission.Fail? then Err(permission.error)
    else
      var quota := CheckCreationLimit(user, roles, limit, today, records);
      if quota.Fail? then Err(quota.error)
      else
        var created := NewCreations(vals, user, utcDay, 0);
        assert (records + created)[..|records|] == records;
        assert (records + created)[|records|..] == created;
        Ok(records + created)
  }

  /** A batch of two requests slips past a weekly limit of one. */
  lemma BatchExceedsQuota(today: Date)
    requires Valid(today)
    ensures var roles := Roles(false, false, true);
            var vals := [Vals(None, None, None), Vals(None, None, None)];
            var r := CreateAsWritten([], vals, 7, roles, 1, today, today);
            r.Ok? && CountSince(r.value, 7, WeekStart(today)) == 2
  {
    var roles := Roles(false, false, true);
    var vals := [Vals(None, None, None), Vals(None, None, None)];
    WeekStartIsMonday(today);
    var r := CreateAsWritten([], vals, 7, roles, 1, today, today);
    var created := NewCreations(vals, 7, today, 0);
    assert r.value == created;
    assert created[0].requestedBy == 7 && created[1].requestedBy == 7;
    assert created[1..] == [created[1]];
    assert CountSince(created[1..], 7, WeekStart(today)) == 1;
  }

  /** Appending a record with a valid day keeps every day valid. */
  lemma ValidAfterOne(records: seq<Creation>, c: Creation)
    requires AllValidDays(records) && Valid(c.createDay)
    ensures AllValidDays(records + [c])
  {
    assert forall i :: 0 <= i < |records| ==> (records + [c])[i] == records[i];
  }

  /** One step of `NewCreations`: the first record, then the rest numbered
      after it. */
  lemma NewCreationsCons(vals: seq<Vals>, user: nat, utcDay: Date, next: nat)
    requires vals != []
    ensures var c := NewCreation(vals[0], user, utcDay, next);
            NewCreations(vals, user, utcDay, next)
            == [c] + NewCreations(vals[1..], user, utcDay, if c.name.Sequenced? then next + 1 else next)
  {
  }

  /** `create` with the quota re-checked before every request of the batch,
      so that a batch cannot go beyond the weekly limit. */
  function CreateChecked(records: seq<Creation>, vals: seq<Vals>, user: nat, roles: Roles,
                         limit: int, today: Date, utcDay: Date, next: nat): (r: Result<seq<Creation>, Error>)
    requires Valid(today) && Valid(utcDay) && AllValidDays(records)
    ensures r.Ok? ==> AllValidDays(r.value) && |r.value| == |records| + |vals|
                      && r.value[..|records|] == records
    ensures r.Ok? && QuotaApplies(roles, limit)
            && CountSince(records, user, WeekStart(today)) <= limit
            ==> CountSince(r.value, user, WeekStart(today)) <= limit
    ensures r.Err? ==> QuotaApplies(roles, limit) && r.error.WeeklyLimitReached? && r.error.limit == limit
    decreases |vals|
  {
    if vals == [] then Ok(records)
    else
      var quota := CheckCreationLimit(user, roles, limit, today, records);
      if quota.Fail? then Err(quota.error)
      else
        var c := NewCreation(vals[0], user, utcDay, next);
        var grown := records + [c];
        CountSinceAppend(records, [c], user, WeekStart(today));
        var r := CreateChecked(grown, vals[1..], user, roles, limit, today, utcDay,
                               if c.name.Sequenced? then next + 1 else next);
        if r.Ok? then
          assert r.value[..|records|] == grown[..|records|];
          r
        else r
  }

  /** A batch the re-checked `create` accepts is stored after the old
      records, exactly as `NewCreations` numbers it. */
  lemma {:induction false} CreateCheckedStores(records: seq<Creation>, vals: seq<Vals>, user: nat, roles: Roles,
                                               limit: int, today: Date, utcDay: Date, next: nat)
    requires Valid(today) && Valid(utcDay) && AllValidDays(records)
    ensures var r := CreateChecked(records, vals, user, roles, limit, today, utcDay, next);
            r.Ok? ==> r.value == records + NewCreations(vals, user, utcDay, next)
    decreases |vals|
  {
    var r := CreateChecked(records, vals, user, roles, limit, today, utcDay, next);
    if vals == [] {
      assert records + NewCreations(vals, user, utcDay, next) == records;
    } else if r.Ok? {
      var c := NewCreation(vals[0], user, utcDay, next);
      var next' := if c.name.Sequenced? then next + 1 else next;
      var rest := NewCreations(vals[1..], user, utcDay, next');
      ValidAfterOne(records, c);
      CreateCheckedStores(records + [c], vals[1..], user, roles, limit, today, utcDay, next');
      NewCreationsCons(vals, user, utcDay, next);
      assert r.value == (records + [c]) + rest;
      assert (records + [c]) + rest == records + ([c] + rest);
    }
  }

  /** The re-checked batch is accepted whenever the quota does not apply or
      the whole batch fits within it. */
  lemma {:induction false} CreateCheckedAccepts(records: seq<Creation>, vals: seq<Vals>, user: nat, roles: Roles,
                                                limit: int, today: Date, utcDay: Date, next: nat)
    requires Valid(today) && Valid(utcDay) && AllValidDays(records)
    requires !QuotaApplies(roles, limit) || CountSince(records, user, WeekStart(today)) + |vals| <= limit
    ensures CreateChecked(records, vals, user, roles, limit, today, utcDay, next).Ok?
    decreases |vals|
  {
    if vals != [] {
      var c := NewCreation(vals[0], user, utcDay, next);
      var next' := if c.name.Sequenced? then next + 1 else next;
      CountSinceAppend(records, [c], user, WeekStart(today));
      CreateCheckedAccepts(records + [c], vals[1..], user, roles, limit, today, utcDay, next');
    }
  }

  /** The corrected `create`: the permission gate and the first quota check
      as in the source, then one quota check per request. */
  function Create(records: seq<Creation>, vals: seq<Vals>, user: nat, roles: Roles,
                  limit: int, today: Date, utcDay: Date): (r: Result<seq<Creation>, Error>)
    requires Valid(today) && Valid(utcDay) && AllValidDays(records)
    ensures r.Ok? ==> CheckCreationPermission(roles) == Pass && AllValidDays(r.value)
    ensures r.Ok? ==> |r.value| == |records| + |vals| && r.value[..|records|] == records
    ensures r.Ok? ==> r.value[|records|..] == NewCreations(vals, user, utcDay, 0)
    ensures r.Ok? && QuotaApplies(roles, limit) ==> CountSince(r.value, user, WeekStart(today)) <= limit
    ensures CheckCreationPermission(roles) == Pass
            && (!QuotaApplies(roles, limit)
                || (CountSince(records, user, WeekStart(today)) < limit
                    && CountSince(records, user, WeekStart(today)) + |vals| <= limit))
            ==> r.Ok?
  {
    var permission := CheckCreationPermission(roles);
    if permission.Fail? then Err(permission.error)
    else
      var quota := CheckCreationLimit(user, roles, limit, today, records);
      if quota.Fail? then Err(quota.error)
      else
        CreateCheckedStores(records, vals, user, roles, limit, today, utcDay, 0);
        if !QuotaApplies(roles, limit) || CountSince(records, user, WeekStart(today)) + |vals| <= limit then
          CreateCheckedAccepts(records, vals, user, roles, limit, today, utcDay, 0);
          CreateChecked(records, vals, user, roles, limit, today, utcDay, 0)
        else CreateChecked(records, vals, user, roles, limit, today, utcDay, 0)
  }

  /** Every request of the batch is filed for the user who creates it. */
  predicate OwnBatch(vals: seq<Vals>, user: nat) {
    forall i :: 0 <= i < |vals| ==> vals[i].requestedBy.None? || vals[i].requestedBy == Some(user)
  }

  /** A batch of the user's own requests that would take the weekly count
      above the limit is refused. */
  lemma {:induction false} CreateCheckedRefusesOverflow(records: seq<Creation>, vals: seq<Vals>, user: nat,
                                                        roles: Roles, limit: int, today: Date, utcDay: Date, next: nat)
    requires Valid(today) && Valid(utcDay) && AllValidDays(records)
    requires Ordinal(WeekStart(today)) <= Ordinal(utcDay)
    requires OwnBatch(vals, user) && QuotaApplies(roles, limit)
    requires vals != [] && CountSince(records, user, WeekStart(today)) + |vals| > limit
    ensures CreateChecked(records, vals, user, roles, limit, today, utcDay, next).Err?
    decreases |vals|
  {
    var start := WeekStart(today);
    if CountSince(records, user, start) < limit {
      var c := NewCreation(vals[0], user, utcDay, next);
      var next' := if c.name.Sequenced? then next + 1 else next;
      CountSinceAppend(records, [c], user, start);
      assert OwnBatch(vals[1..], user) by {
        forall i | 0 <= i < |vals[1..]|
          ensures vals[1..][i].requestedBy.None? || vals[1..][i].requestedBy == Some(user)
        {
          assert vals[1..][i] == vals[i + 1];
        }
      }
      CreateCheckedRefusesOverflow(records + [c], vals[1..], user, roles, limit, today, utcDay, next');
    }
  }

  /** For a batch of the user's own requests, created on a UTC day the
      week's count includes, the corrected `create` accepts exactly when the
      permission gate passes and the whole batch fits in what is left of the
      week's quota. */
  lemma CreateOwnBatch(records: seq<Creation>, vals: seq<Vals>, user: nat, roles: Roles, limit: int,
                       today: Date, utcDay: Date)
    requires Valid(today) && Valid(utcDay) && AllValidDays(records) && OwnBatch(vals, user)
    requires Ordinal(WeekStart(today)) <= Ordinal(utcDay)
    ensures Create(records, vals, user, roles, limit, today, utcDay).Ok?
            <==> CheckCreationPermission(roles) == Pass
                 && (!QuotaApplies(roles, limit)
                     || (CountSince(records, user, WeekStart(today)) < limit
                         && CountSince(records, user, WeekStart(today)) + |vals| <= limit))
  {
    var count := CountSince(records, user, WeekStart(today));
    if CheckCreationPermission(roles) == Pass && QuotaApplies(roles, limit) && count < limit
       && count + |vals| > limit {
      CreateCheckedRefusesOverflow(records, vals, user, roles, limit, today, utcDay, 0);
    }
  }

  // ---------------------------------------------------------------------
  // Deletion

  /** `unlink`: one request that is not draft makes the whole deletion fail. */
  method Unlink(requests: seq<Request>) returns (o: Outcome<Error>)
    ensures o == Pass <==> forall i :: 0 <= i < |requests| ==> CanBeDeleted(requests[i].state)
    ensures o.Fail? ==> o.error == NotDraft
  {
    var i := 0;
    while i < |requests|
      invariant 0 <= i <= |requests|
      invariant forall j :: 0 <= j < i ==> CanBeDeleted(requests[j].state)
    {
      if !CanBeDeleted(requests[i].state) {
        return Fail(NotDraft);
      }
      i := i + 1;
    }
    return Pass;
  }

  /** The confirmation row of one line: fulfilled is requested minus
      unfulfilled. */
  function ConfirmRow(l: Line): ConfirmLine {
    ConfirmLine(l.id, l.product, l.productQty, l.productQty - l.unfulfilledQty, l.unfulfilledQty, l.uom)
  }

  /** `rows` are the confirmation rows of the unfulfilled lines, in order. */
  predicate ConfirmRowsOf(lines: seq<Line>, rows: seq<ConfirmLine>) {
    |rows| == |UnfulfilledLines(lines)|
    && forall k :: 0 <= k < |rows| ==> rows[k] == ConfirmRow(UnfulfilledLines(lines)[k])
  }

  /** The rows of the confirmation wizard, one per unfulfilled line. */
  method BuildConfirmLines(lines: seq<Line>) returns (rows: seq<ConfirmLine>)
    ensures ConfirmRowsOf(lines, rows)
    ensures |rows| == |UnfulfilledLines(lines)|
    ensures forall k :: 0 <= k < |rows| ==>
      var l := UnfulfilledLines(lines)[k];
      rows[k].lineId == l.id && rows[k].product == l.product && rows[k].uom == l.uom
      && rows[k].requested == l.productQty && rows[k].unfulfilled == l.unfulfilledQty
    ensures forall k :: 0 <= k < |rows| ==>
      rows[k].requested == rows[k].fulfilled + rows[k].unfulfilled && rows[k].unfulfilled > 0.0
  {
    var pending := UnfulfilledLines(lines);
    rows := [];
    for k := 0 to |pending|
      invariant |rows| == k
      invariant forall j :: 0 <= j < k ==>
        rows[j].lineId == pending[j].id && rows[j].product == pending[j].product
        && rows[j].uom == pending[j].uom
        && rows[j].requested == pending[j].productQty
        && rows[j].unfulfilled == pending[j].unfulfilledQty
        && rows[j].requested == rows[j].fulfilled + rows[j].unfulfilled
        && rows[j].unfulfilled > 0.0
      invariant forall j :: 0 <= j < k ==> rows[j] == ConfirmRow(pending[j])
    {
      var l := pending[k];
      var fulfilled := l.productQty - l.unfulfilledQty;
      rows := rows + [ConfirmLine(l.id, l.product, l.productQty, fulfilled, l.unfulfilledQty, l.uom)];
    }
  }

  // ---------------------------------------------------------------------
  // The request record

  class Request {
    var name: string
    var requestedBy: nat
    var assignedTo: Option<nat>
    var state: State
    var previousState: Option<State>
    var onHoldReason: Option<string>
    var lines: seq<Line>

    constructor (name: string, requestedBy: nat, lines: seq<Line>)
      ensures this.name == name && this.requestedBy == requestedBy && this.lines == lines
      ensures assignedTo == None && state == Draft && previousState == None && onHoldReason == None
    {
      this.name := name;
      this.requestedBy := requestedBy;
      this.lines := lines;
      assignedTo := None;
      state := Draft;
      previousState := None;
      onHoldReason := None;
    }

    function HoldView(): HoldFields
      reads this
    {
      HoldFields(state, previousState, onHoldReason)
    }

    /** `button_draft`: un-cancel every line and return to draft. */
    method ButtonDraft()
      modifies this
      ensures state == Draft && lines == WithCancelled(old(lines), false)
      ensures name == old(name) && requestedBy == old(requestedBy) && assignedTo == old(assignedTo)
      ensures previousState == old(previousState) && onHoldReason == old(onHoldReason)
    {
      lines := WithCancelled(lines, false);
      state := Draft;
    }

    /** `button_to_approve`: refused, and nothing written, unless the request
        is a draft with a live line of non-zero quantity. */
    method ButtonToApprove() returns (o: Outcome<Error>)
      modifies this
      ensures o == Pass <==>
        (old(state) == Draft && exists i :: 0 <= i < |old(lines)| && Submittable(old(lines)[i]))
      ensures o == Pass ==> state == ToApprove
      ensures o.Fail? ==> o.error == EmptyRequest(name) && state == old(state)
      ensures name == old(name) && requestedBy == old(requestedBy) && assignedTo == old(assignedTo)
      ensures previousState == old(previousState) && onHoldReason == old(onHoldReason)
      ensures lines == old(lines)
    {
      if !ToApproveAllowed(state, lines) {
        return Fail(EmptyRequest(name));
      }
      state := ToApprove;
      return Pass;
    }

    /** `button_approved`: the approving user becomes the assignee. */
    method ButtonApproved(uid: nat)
      modifies this
      ensures state == Approved && assignedTo == Some(uid)
      ensures name == old(name) && requestedBy == old(requestedBy) && lines == old(lines)
      ensures previousState == old(previousState) && onHoldReason == old(onHoldReason)
    {
      state := Approved;
      assignedTo := Some(uid);
    }

    /** `button_rejected`: cancel every line and reject. */
    method ButtonRejected()
      modifies this
      ensures state == Rejected && lines == WithCancelled(old(lines), true)
      ensures AllCancelled(lines)
      ensures name == old(name) && requestedBy == old(requestedBy) && assignedTo == old(assignedTo)
      ensures previousState == old(previousState) && onHoldReason == old(onHoldReason)
    {
      lines := WithCancelled(lines, true);
      state := Rejected;
    }

    /** `button_in_progress`. */
    method ButtonInProgress()
      modifies this
      ensures state == InProgress
      ensures name == old(name) && requestedBy == old(requestedBy) && assignedTo == old(assignedTo)
      ensures previousState == old(previousState) && onHoldReason == old(onHoldReason)
      ensures lines == old(lines)
    {
      state := InProgress;
    }

    /** `button_done`: with unfulfilled lines it only builds the confirmation
        rows and leaves the state alone; otherwise the request is done. */
    method ButtonDone() returns (confirm: Option<seq<ConfirmLine>>)
      modifies this
      ensures UnfulfilledLines(old(lines)) != [] ==> state == old(state) && confirm.Some? && ConfirmRowsOf(old(lines), confirm.value)
      ensures UnfulfilledLines(old(lines)) == [] ==> state == Done && confirm.None?
      ensures confirm.Some? ==>
        (|confirm.value| == |UnfulfilledLines(lines)|
         && forall k :: 0 <= k < |confirm.value| ==>
              confirm.value[k].lineId == UnfulfilledLines(lines)[k].id
              && confirm.value[k].requested == confirm.value[k].fulfilled + confirm.value[k].unfulfilled)
      ensures name == old(name) && requestedBy == old(requestedBy) && assignedTo == old(assignedTo)
      ensures previousState == old(previousState) && onHoldReason == old(onHoldReason)
      ensures lines == old(lines)
    {
      if UnfulfilledLines(lines) != [] {
        var rows := BuildConfirmLines(lines);
        return Some(rows);
      }
      state := Done;
      return None;
    }

    /** `button_remove_on_hold`: restore the recorded state and forget the
        hold; without a hold and a recorded state nothing changes. */
    method ButtonRemoveOnHold()
      modifies this
      ensures HoldView() == Resume(old(HoldView()))
      ensures old(state) == OnHold && old(previousState).Some? ==>
        state == old(previousState).value && previousState == None && onHoldReason == None
      ensures !(old(state) == OnHold && old(previousState).Some?) ==>
        state == old(state) && previousState == old(previousState) && onHoldReason == old(onHoldReason)
      ensures name == old(name) && requestedBy == old(requestedBy) && assignedTo == old(assignedTo)
      ensures lines == old(lines)
    {
      if state == OnHold && previousState.Some? {
        state := previousState.value;
        previousState := None;
        onHoldReason := None;
      }
    }

    /** `check_auto_reject`: a request without a live line, including one
        without lines, is rejected. */
    method CheckAutoReject()
      modifies this
      ensures AllCancelled(old(lines)) ==> state == Rejected
      ensures !AllCancelled(old(lines)) ==> state == old(state)
      ensures name == old(name) && requestedBy == old(requestedBy) && assignedTo == old(assignedTo)
      ensures previousState == old(previousState) && onHoldReason == old(onHoldReason)
      ensures lines == old(lines)
    {
      var i := 0;
      var live := false;
      while i < |lines| && !live
        invariant 0 <= i <= |lines|
        invariant live <==> exists j :: 0 <= j < i && !lines[j].cancelled
      {
        live := !lines[i].cancelled;
        i := i + 1;
      }
      if !live {
        state := Rejected;
      }
    }

    /** `check_auto_done`: an approved or in-progress request with lines,
        whose live lines are all fulfilled, is closed. */
    method CheckAutoDone()
      modifies this
      ensures AutoDoneFires(old(state), old(lines)) ==> state == Done
      ensures !AutoDoneFires(old(state), old(lines)) ==> state == old(state)
      ensures name == old(name) && requestedBy == old(requestedBy) && assignedTo == old(assignedTo)
      ensures previousState == old(previousState) && onHoldReason == old(onHoldReason)
      ensures lines == old(lines)
    {
      if state != Approved && state != InProgress {
        return;
      }
      var allFulfilled := true;
      for i := 0 to |lines|
        invariant allFulfilled <==> forall j :: 0 <= j < i && !lines[j].cancelled ==> lines[j].unfulfilledQty <= 0.0
      {
        if !lines[i].cancelled && lines[i].unfulfilledQty > 0.0 {
          allFulfilled := false;
        }
      }
      if allFulfilled && lines != [] {
        AllFulfilledHasNoUnfulfilled(lines);
        var _ := ButtonDone();
      }
    }
  }
}
