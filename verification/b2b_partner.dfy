/** The partner side of B2B categorisation: the tier a partner's spend puts
    it in, its progress towards the tier's upper limit, the evaluation window
    and its key, and the nightly run that reassigns categories and logs
    threshold notifications once per (partner, category, window). */
module B2BPartner {
  import opened Wrappers
  import opened Text
  import opened Dates
  import opened B2BCategory

  // ---------------------------------------------------------------------
  // Tier and progress

  /** The tier `_compute_b2b_progress_pct` settles on: the first category,
      in ascending lower limit, among the partner's active categories whose
      range holds the spend.  `sorted` is stable, so of equal lower limits
      the earliest one wins. */
  function CurrentTier(tiers: seq<Category>, spend: real): (r: Option<nat>)
    ensures r.Some? ==> r.value < |tiers| && tiers[r.value].active && Contains(tiers[r.value], spend)
    ensures r.Some? ==>
      forall j :: 0 <= j < |tiers| && tiers[j].active && Contains(tiers[j], spend) ==>
        tiers[r.value].lower <= tiers[j].lower && (j < r.value ==> tiers[r.value].lower < tiers[j].lower)
    ensures r.None? <==> forall j :: 0 <= j < |tiers| ==> !(tiers[j].active && Contains(tiers[j], spend))
    decreases |tiers|
  {
    if tiers == [] then None
    else
      var n := |tiers| - 1;
      var best := CurrentTier(tiers[..n], spend);
      assert forall j :: 0 <= j < n ==> tiers[..n][j] == tiers[j];
      if tiers[n].active && Contains(tiers[n], spend) && (best.None? || tiers[n].lower < tiers[best.value].lower)
      then Some(n)
      else best
  }

  function Clamp100(x: real): (r: real)
    ensures 0.0 <= r <= 100.0
    ensures 0.0 <= x <= 100.0 ==> r == x
  {
    if x < 0.0 then 0.0 else if x > 100.0 then 100.0 else x
  }

  /** The tier itself. */
  function TierOf(tiers: seq<Category>, spend: real): (r: Option<Category>)
    ensures r.Some? ==> r.value in tiers && r.value.active && Contains(r.value, spend)
    ensures r.None? <==> forall j :: 0 <= j < |tiers| ==> !(tiers[j].active && Contains(tiers[j], spend))
  {
    var t := CurrentTier(tiers, spend);
    if t.Some? then Some(tiers[t.value]) else None
  }

  /** `part` as a percentage of `span`; inside the span it lies in [0, 100). */
  function Share(part: real, span: real): (q: real)
    requires span > 0.0
    ensures 0.0 <= part < span ==> 0.0 <= q < 100.0 && q * span == part * 100.0
  {
    var f := part / span;
    assert f * span == part;
    f * 100.0
  }

  /** `_compute_b2b_progress_pct`: how far the spend has come through the
      current tier, in percent. */
  function ProgressPct(tiers: seq<Category>, spend: real): (r: real)
    ensures 0.0 <= r <= 100.0
    ensures TierOf(tiers, spend).None? ==> r == 0.0
    ensures var c := TierOf(tiers, spend);
            c.Some? && c.value.upper == 0.0 ==> r == 100.0
    ensures var c := TierOf(tiers, spend);
            c.Some? && c.value.upper != 0.0 && c.value.upper - c.value.lower <= 0.0 ==> r == 0.0
    ensures var c := TierOf(tiers, spend);
            c.Some? && c.value.upper != 0.0 && c.value.upper - c.value.lower > 0.0 ==>
              r == Share(spend - c.value.lower, c.value.upper - c.value.lower) && r < 100.0
  {
    var t := TierOf(tiers, spend);
    if t.None? then 0.0
    else
      var c := t.value;
      if c.upper == 0.0 then 100.0
      else
        var span := c.upper - c.lower;
        if span <= 0.0 then 0.0
        else Clamp100(Share(spend - c.lower, span))
  }

  // ---------------------------------------------------------------------
  // The evaluation window

  datatype Window = Window(from: Date, to: Date, key: string)

  function LastKey(lastX: int, today: Date): string
    requires Valid(today)
  {
    "LAST-" + IntToString(lastX) + "-" + IsoFormat(today)
  }

  function YtdKey(year: nat): string {
    "YTD-" + NatToString(year)
  }

  function MtdKey(year: nat, month: nat): string {
    "MTD-" + NatToString(year) + "-" + Pad2(month)
  }

  /** `_b2b_window(mode, last_x)` on the given `today`; `None` where the
      start of a last-x-days window falls outside the calendar. */
  function B2BWindow(mode: string, lastX: int, today: Date): (r: Option<Window>)
    requires Valid(today)
    ensures r.None? ==> mode == "last_x_days"
    ensures r.Some? ==> r.value.to == today && Valid(r.value.from)
    ensures mode == "last_x_days" && r.Some? ==>
      Ordinal(today) - Ordinal(r.value.from) == lastX - 1 && r.value.key == LastKey(lastX, today)
    ensures mode == "last_x_days" && lastX >= 1 ==> (r.Some? <==> Ordinal(today) > lastX - 1)
    ensures mode == "ytd" ==> r == Some(Window(YearStart(today.year), today, YtdKey(today.year)))
    ensures mode != "last_x_days" && mode != "ytd" ==>
      r == Some(Window(MonthStart(today), today, MtdKey(today.year, today.month)))
  {
    if mode == "last_x_days" then
      var start := ShiftDays(today, -(lastX - 1));
      if start.Some? then Some(Window(start.value, today, LastKey(lastX, today))) else None
    else if mode == "ytd" then Some(Window(YearStart(today.year), today, YtdKey(today.year)))
    else Some(Window(MonthStart(today), today, MtdKey(today.year, today.month)))
  }

  /** Which of the three window kinds a mode selects. */
  function Kind(mode: string): nat {
    if mode == "last_x_days" then 0 else if mode == "ytd" then 1 else 2
  }

  /** A window key pins down the kind of window and its start: equal keys
      mean the same window, so a log keyed by it is one per window. */
  lemma KeyIdentifiesWindow(mode1: string, lastX1: int, today1: Date,
                            mode2: string, lastX2: int, today2: Date)
    requires Valid(today1) && Valid(today2)
    requires B2BWindow(mode1, lastX1, today1).Some? && B2BWindow(mode2, lastX2, today2).Some?
    requires B2BWindow(mode1, lastX1, today1).value.key == B2BWindow(mode2, lastX2, today2).value.key
    ensures Kind(mode1) == Kind(mode2)
    ensures B2BWindow(mode1, lastX1, today1).value.from == B2BWindow(mode2, lastX2, today2).value.from
  {
    KeyLetter(mode1, lastX1, today1);
    KeyLetter(mode2, lastX2, today2);
    if Kind(mode1) == 0 {
      LastKeyInjective(lastX1, today1, lastX2, today2);
    } else if Kind(mode1) == 1 {
      YtdKeyInjective(today1.year, today2.year);
    } else {
      MtdKeyInjective(today1.year, today1.month, today2.year, today2.month);
    }
  }

  /** The first letter of a key names the window kind. */
  lemma KeyLetter(mode: string, lastX: int, today: Date)
    requires Valid(today) && B2BWindow(mode, lastX, today).Some?
    ensures B2BWindow(mode, lastX, today).value.key[0]
            == (if Kind(mode) == 0 then 'L' else if Kind(mode) == 1 then 'Y' else 'M')
  {
  }

  lemma LastKeyInjective(x1: int, t1: Date, x2: int, t2: Date)
    requires Valid(t1) && Valid(t2) && LastKey(x1, t1) == LastKey(x2, t2)
    ensures x1 == x2 && t1 == t2
  {
    LastKeyParts(x1, t1);
    LastKeyParts(x2, t2);
    IsoFormatInjective(t1, t2);
    IntToStringInjective(x1, x2);
  }

  lemma YtdKeyInjective(y1: nat, y2: nat)
    requires YtdKey(y1) == YtdKey(y2)
    ensures y1 == y2
  {
    assert YtdKey(y1)[4..] == NatToString(y1) && YtdKey(y2)[4..] == NatToString(y2);
    NatToStringInjective(y1, y2);
  }

  lemma MtdKeyInjective(y1: nat, m1: nat, y2: nat, m2: nat)
    requires m1 < 100 && m2 < 100 && MtdKey(y1, m1) == MtdKey(y2, m2)
    ensures y1 == y2 && m1 == m2
  {
    MtdKeyParts(y1, m1);
    MtdKeyParts(y2, m2);
    NatToStringInjective(y1, y2);
    Pad2Injective(m1, m2);
  }

  lemma LastKeyParts(lastX: int, today: Date)
    requires Valid(today)
    ensures var k := LastKey(lastX, today);
            |k| == 16 + |IntToString(lastX)|
            && k[|k| - 10..] == IsoFormat(today)
            && k[5..|k| - 11] == IntToString(lastX)
  {
    var n := IntToString(lastX);
    var iso := IsoFormat(today);
    var k := "LAST-" + n + "-" + iso;
    assert k == LastKey(lastX, today);
    assert |k| == 16 + |n|;
    assert k[|k| - 10..] == iso by {
      forall i | 0 <= i < 10 ensures k[|k| - 10..][i] == iso[i] {
        assert k[|k| - 10 + i] == iso[i];
      }
    }
    assert k[5..|k| - 11] == n by {
      forall i | 0 <= i < |n| ensures k[5..|k| - 11][i] == n[i] {
        assert k[5 + i] == n[i];
      }
    }
  }

  lemma MtdKeyParts(year: nat, month: nat)
    requires month < 100
    ensures var k := MtdKey(year, month);
            |k| == 7 + |NatToString(year)|
            && k[|k| - 2..] == Pad2(month)
            && k[4..|k| - 3] == NatToString(year)
  {
  }

  // ---------------------------------------------------------------------
  // The nightly categorisation

  /** A `b2b.notification.log` record. */
  datatype LogEntry = LogEntry(partner: nat, category: nat, windowKey: string)

  /** A threshold mail: sent to a contact, about a partner and a category. */
  datatype Mail = Mail(recipient: nat, partner: nat, category: nat)

  /** `totals.get(p.id, 0.0)`. */
  function Spend(totals: map<nat, real>, p: nat): real {
    if p in totals then totals[p] else 0.0
  }

  /** `new_cats`: nothing for a non-positive spend, else the categories
      (active, in ascending lower limit) whose range holds the spend. */
  function NewCategories(spend: real, categories: seq<Category>): (r: seq<Category>)
    ensures spend <= 0.0 ==> r == []
    ensures forall k :: 0 <= k < |r| ==> r[k] in categories && Contains(r[k], spend)
    ensures spend > 0.0 ==> forall k :: 0 <= k < |categories| && Contains(categories[k], spend) ==> categories[k] in r
  {
    if spend <= 0.0 || categories == [] then []
    else if Contains(categories[0], spend) then [categories[0]] + NewCategories(spend, categories[1..])
    else NewCategories(spend, categories[1..])
  }

  /** `new_cats[0]` is the first category, in search order, holding the
      spend. */
  lemma {:induction false} NewCategoriesFirst(spend: real, categories: seq<Category>)
    requires NewCategories(spend, categories) != []
    ensures exists k :: 0 <= k < |categories| && categories[k] == NewCategories(spend, categories)[0]
              && forall j :: 0 <= j < k ==> !Contains(categories[j], spend)
  {
    assert spend > 0.0 && categories != [];
    if !Contains(categories[0], spend) {
      NewCategoriesFirst(spend, categories[1..]);
      var k :| 0 <= k < |categories[1..]| && categories[1..][k] == NewCategories(spend, categories[1..])[0]
               && forall j :: 0 <= j < k ==> !Contains(categories[1..][j], spend);
      assert categories[k + 1] == categories[1..][k];
      forall j | 0 <= j < k + 1
        ensures !Contains(categories[j], spend)
      {
        if j > 0 {
          assert categories[j] == categories[1..][j - 1];
        }
      }
    }
  }

  function Ids(cats: seq<Category>): (r: seq<nat>)
    ensures |r| == |cats| && forall k :: 0 <= k < |r| ==> r[k] == cats[k].id
  {
    seq(|cats|, k requires 0 <= k < |cats| => cats[k].id)
  }

  /** The progress the run compares with the threshold (not clamped). */
  function RunProgress(spend: real, c: Category): real {
    var span := c.upper - c.lower;
    if span <= 0.0 then 0.0 else ((spend - c.lower) / span) * 100.0
  }

  /** The category a partner may be notified about: the first new one, if it
      has an upper limit and the progress reached the threshold. */
  function Candidate(spend: real, categories: seq<Category>, thresholdPct: int): (r: Option<Category>)
    ensures r.Some? ==> var cats := NewCategories(spend, categories);
            cats != [] && r.value == cats[0] && r.value.upper != 0.0
            && RunProgress(spend, r.value) >= thresholdPct as real
    ensures r.None? ==> var cats := NewCategories(spend, categories);
            cats == [] || cats[0].upper == 0.0 || RunProgress(spend, cats[0]) < thresholdPct as real
  {
    var cats := NewCategories(spend, categories);
    if cats != [] && cats[0].upper != 0.0 && RunProgress(spend, cats[0]) >= thresholdPct as real
    then Some(cats[0]) else None
  }

  /** The contact lines mailed: active ones whose partner has an email. */
  function Recipients(contacts: seq<Contact>): (r: seq<Contact>)
    ensures forall k :: 0 <= k < |r| ==> r[k] in contacts && r[k].notifyActive && r[k].email != ""
    ensures forall k :: 0 <= k < |contacts| && contacts[k].notifyActive && contacts[k].email != "" ==> contacts[k] in r
  {
    if contacts == [] then []
    else if contacts[0].notifyActive && contacts[0].email != "" then [contacts[0]] + Recipients(contacts[1..])
    else Recipients(contacts[1..])
  }

  function MailsFor(rcpts: seq<Contact>, p: nat, c: nat): (r: seq<Mail>)
    ensures |r| == |rcpts| && forall k :: 0 <= k < |r| ==> r[k] == Mail(rcpts[k].partner, p, c)
  {
    seq(|rcpts|, k requires 0 <= k < |rcpts| => Mail(rcpts[k].partner, p, c))
  }

  /** The run's settings for one night. */
  datatype Run = Run(
    totals: map<nat, real>,
    categories: seq<Category>,
    thresholdPct: int,
    windowKey: string,
    templateFound: bool)

  function EntryFor(run: Run, p: nat, c: Category): LogEntry {
    LogEntry(p, c.id, run.windowKey)
  }

  /** The log after handling partner `p`. */
  function StepLogs(run: Run, logs: seq<LogEntry>, p: nat): (r: seq<LogEntry>)
    ensures var c := Candidate(Spend(run.totals, p), run.categories, run.thresholdPct);
            (c.Some? && EntryFor(run, p, c.value) !in logs ==> r == logs + [EntryFor(run, p, c.value)])
            && (c.None? || EntryFor(run, p, c.value) in logs ==> r == logs)
  {
    var c := Candidate(Spend(run.totals, p), run.categories, run.thresholdPct);
    if c.Some? && EntryFor(run, p, c.value) !in logs then logs + [EntryFor(run, p, c.value)] else logs
  }

  /** The mails sent while handling partner `p`: exactly one per recipient
      when the log entry is fresh and the template exists, none otherwise. */
  function StepMails(run: Run, logs: seq<LogEntry>, p: nat): (r: seq<Mail>)
    ensures r != [] ==> run.templateFound
    ensures var c := Candidate(Spend(run.totals, p), run.categories, run.thresholdPct);
            r != [] ==> c.Some? && EntryFor(run, p, c.value) !in logs
                        && r == MailsFor(Recipients(c.value.contacts), p, c.value.id)
    ensures var c := Candidate(Spend(run.totals, p), run.categories, run.thresholdPct);
            c.Some? && EntryFor(run, p, c.value) !in logs && run.templateFound
            ==> r == MailsFor(Recipients(c.value.contacts), p, c.value.id)
  {
    var c := Candidate(Spend(run.totals, p), run.categories, run.thresholdPct);
    if c.Some? && EntryFor(run, p, c.value) !in logs && run.templateFound && Recipients(c.value.contacts) != []
    then MailsFor(Recipients(c.value.contacts), p, c.value.id)
    else []
  }

  /** The log after the run has handled `partners`. */
  function RunLogs(run: Run, partners: seq<nat>, logs: seq<LogEntry>): seq<LogEntry>
    decreases |partners|
  {
    if partners == [] then logs
    else StepLogs(run, RunLogs(run, partners[..|partners| - 1], logs), partners[|partners| - 1])
  }

  function RunMails(run: Run, partners: seq<nat>, logs: seq<LogEntry>): seq<Mail>
    decreases |partners|
  {
    if partners == [] then []
    else
      var n := |partners| - 1;
      RunMails(run, partners[..n], logs) + StepMails(run, RunLogs(run, partners[..n], logs), partners[n])
  }

  /** The category ids after the run has handled `partners`. */
  function RunCategories(run: Run, partners: seq<nat>, categoryIds: map<nat, seq<nat>>): map<nat, seq<nat>>
    decreases |partners|
  {
    if partners == [] then categoryIds
    else
      var n := |partners| - 1;
      var p := partners[n];
      RunCategories(run, partners[..n], categoryIds)[p := Ids(NewCategories(Spend(run.totals, p), run.categories))]
  }

  predicate UniqueLogs(logs: seq<LogEntry>) {
    forall i, j :: 0 <= i < j < |logs| ==> logs[i] != logs[j]
  }

  /** The run keeps the old logs, adds only fresh entries of this window, and
      never duplicates an entry. */
  lemma {:induction false} RunLogsGrowsUniquely(run: Run, partners: seq<nat>, logs: seq<LogEntry>)
    requires UniqueLogs(logs)
    ensures var r := RunLogs(run, partners, logs);
            UniqueLogs(r) && |r| >= |logs| && r[..|logs|] == logs
            && forall k :: |logs| <= k < |r| ==> r[k].windowKey == run.windowKey && r[k] !in logs
    decreases |partners|
  {
    if partners != [] {
      var n := |partners| - 1;
      RunLogsGrowsUniquely(run, partners[..n], logs);
      var prev := RunLogs(run, partners[..n], logs);
      var r := RunLogs(run, partners, logs);
      assert r == StepLogs(run, prev, partners[n]);
      if r != prev {
        assert r[..|prev|] == prev;
        assert r[..|logs|] == prev[..|logs|];
        forall k | |logs| <= k < |r|
          ensures r[k].windowKey == run.windowKey && r[k] !in logs
        {
          if k == |prev| {
            assert r[k] !in prev;
            forall j | 0 <= j < |logs|
              ensures logs[j] != r[k]
            {
              assert prev[j] == logs[j];
            }
          } else {
            assert r[k] == prev[k];
          }
        }
      }
    }
  }

  /** After the run, every partner due a notification has its log entry. */
  lemma {:induction false} RunLogsCover(run: Run, partners: seq<nat>, logs: seq<LogEntry>, i: nat)
    requires i < |partners|
    requires Candidate(Spend(run.totals, partners[i]), run.categories, run.thresholdPct).Some?
    ensures EntryFor(run, partners[i], Candidate(Spend(run.totals, partners[i]), run.categories, run.thresholdPct).value)
            in RunLogs(run, partners, logs)
    decreases |partners|
  {
    var n := |partners| - 1;
    var prev := RunLogs(run, partners[..n], logs);
    assert RunLogs(run, partners, logs) == StepLogs(run, prev, partners[n]);
    if i < n {
      assert partners[..n][i] == partners[i];
      RunLogsCover(run, partners[..n], logs, i);
    }
  }

  /** A run over a log that already holds every due entry adds nothing. */
  lemma {:induction false} RunLogsStable(run: Run, partners: seq<nat>, logs: seq<LogEntry>)
    requires forall i :: 0 <= i < |partners| && Candidate(Spend(run.totals, partners[i]), run.categories, run.thresholdPct).Some?
               ==> EntryFor(run, partners[i], Candidate(Spend(run.totals, partners[i]), run.categories, run.thresholdPct).value) in logs
    ensures RunLogs(run, partners, logs) == logs
    decreases |partners|
  {
    if partners != [] {
      var n := |partners| - 1;
      forall i | 0 <= i < n && Candidate(Spend(run.totals, partners[..n][i]), run.categories, run.thresholdPct).Some?
        ensures EntryFor(run, partners[..n][i], Candidate(Spend(run.totals, partners[..n][i]), run.categories, run.thresholdPct).value) in logs
      {
        assert partners[..n][i] == partners[i];
      }
      RunLogsStable(run, partners[..n], logs);
    }
  }

  /** Running the categorisation twice in the same window logs nothing new
      the second time. */
  lemma SecondRunLogsNothing(run: Run, partners: seq<nat>, logs: seq<LogEntry>)
    ensures var once := RunLogs(run, partners, logs);
            RunLogs(run, partners, once) == once
  {
    var once := RunLogs(run, partners, logs);
    forall i | 0 <= i < |partners| && Candidate(Spend(run.totals, partners[i]), run.categories, run.thresholdPct).Some?
      ensures EntryFor(run, partners[i], Candidate(Spend(run.totals, partners[i]), run.categories, run.thresholdPct).value) in once
    {
      RunLogsCover(run, partners, logs, i);
    }
    RunLogsStable(run, partners, once);
  }

  /** Every handled partner ends with exactly the categories holding its
      spend, and nobody else's categories change. */
  lemma {:induction false} RunCategoriesAssigns(run: Run, partners: seq<nat>, categoryIds: map<nat, seq<nat>>, q: nat)
    ensures var r := RunCategories(run, partners, categoryIds);
            (q in partners ==> q in r && r[q] == Ids(NewCategories(Spend(run.totals, q), run.categories)))
            && (q !in partners ==> (q in r <==> q in categoryIds) && (q in categoryIds ==> r[q] == categoryIds[q]))
    decreases |partners|
  {
    if partners != [] {
      var n := |partners| - 1;
      RunCategoriesAssigns(run, partners[..n], categoryIds, q);
      assert partners == partners[..n] + [partners[n]];
      if q in partners && q != partners[n] {
        assert q in partners[..n];
      }
    }
  }

  lemma RunStep(run: Run, partners: seq<nat>, i: nat, categoryIds: map<nat, seq<nat>>, logs: seq<LogEntry>)
    requires i < |partners|
    ensures var p := partners[i];
            RunCategories(run, partners[..i + 1], categoryIds)
              == RunCategories(run, partners[..i], categoryIds)[p := Ids(NewCategories(Spend(run.totals, p), run.categories))]
            && RunLogs(run, partners[..i + 1], logs) == StepLogs(run, RunLogs(run, partners[..i], logs), p)
            && RunMails(run, partners[..i + 1], logs)
               == RunMails(run, partners[..i], logs) + StepMails(run, RunLogs(run, partners[..i], logs), p)
  {
    assert partners[..i + 1][..i] == partners[..i];
  }

  /** The partner records the run rewrites, and the notification log. */
  class Book {
    var categoryIds: map<nat, seq<nat>>
    var logs: seq<LogEntry>

    constructor (categoryIds: map<nat, seq<nat>>, logs: seq<LogEntry>)
      ensures this.categoryIds == categoryIds && this.logs == logs
    {
      this.categoryIds := categoryIds;
      this.logs := logs;
    }

    /** One pass of the partner loop of `b2b_run_categorization`. */
    method HandlePartner(run: Run, p: nat) returns (sent: seq<Mail>)
      modifies this
      ensures categoryIds == old(categoryIds)[p := Ids(NewCategories(Spend(run.totals, p), run.categories))]
      ensures logs == StepLogs(run, old(logs), p)
      ensures sent == StepMails(run, old(logs), p)
    {
      sent := [];
      var spend := Spend(run.totals, p);
      var newCats := NewCategories(spend, run.categories);
      categoryIds := categoryIds[p := Ids(newCats)];
      if newCats != [] && newCats[0].upper != 0.0 {
        var c := newCats[0];
        var span := c.upper - c.lower;
        var progress := if span <= 0.0 then 0.0 else ((spend - c.lower) / span) * 100.0;
        if progress >= run.thresholdPct as real {
          var entry := LogEntry(p, c.id, run.windowKey);
          if entry !in logs {
            var rcpts := Recipients(c.contacts);
            if run.templateFound && rcpts != [] {
              for k := 0 to |rcpts|
                invariant sent == MailsFor(rcpts[..k], p, c.id)
              {
                sent := sent + [Mail(rcpts[k].partner, p, c.id)];
              }
              assert rcpts[..|rcpts|] == rcpts;
            }
            logs := logs + [entry];
          }
        }
      }
    }

    /** `b2b_run_categorization` over `partners`, the ids the cron's
        customer search returns: `customer_rank > 0`, archived partners left
        out by the default search, in search order. */
    method RunCategorization(run: Run, partners: seq<nat>) returns (mails: seq<Mail>)
      modifies this
      ensures categoryIds == RunCategories(run, partners, old(categoryIds))
      ensures logs == RunLogs(run, partners, old(logs))
      ensures mails == RunMails(run, partners, old(logs))
    {
      mails := [];
      for i := 0 to |partners|
        invariant categoryIds == RunCategories(run, partners[..i], old(categoryIds))
        invariant logs == RunLogs(run, partners[..i], old(logs))
        invariant mails == RunMails(run, partners[..i], old(logs))
      {
        RunStep(run, partners, i, old(categoryIds), old(logs));
        var sent := HandlePartner(run, partners[i]);
        mails := mails + sent;
      }
      assert partners[..|partners|] == partners;
    }
  }
}
