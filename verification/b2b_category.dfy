/** B2B spend categories: half-open spend ranges `[lower, upper)` where an
    upper limit of 0 (Odoo's empty monetary value) means no cap, with the
    two constraints that keep the active ranges well formed and disjoint. */
module B2BCategory {
  import opened Wrappers

  /** A contact line of a category: whom to mail when a partner nears the
      category's upper limit. */
  datatype Contact = Contact(partner: nat, notifyActive: bool, email: string)

  datatype Category = Category(
    id: nat,
    name: string,
    active: bool,
    lower: real,
    upper: real,
    contacts: seq<Contact>)

  /** An upper bound: a number, or +infinity for an empty upper limit. */
  datatype Bound = Finite(v: real) | Infinite

  /** `upper_limit or float("inf")`. */
  function High(c: Category): (b: Bound)
    ensures b == Infinite <==> c.upper == 0.0
  {
    if c.upper == 0.0 then Infinite else Finite(c.upper)
  }

  predicate Below(x: real, b: Bound) {
    b.Infinite? || x < b.v
  }

  function MinBound(a: Bound, b: Bound): (m: Bound)
    ensures forall x :: Below(x, m) <==> Below(x, a) && Below(x, b)
  {
    if a.Infinite? then b
    else if b.Infinite? then a
    else if a.v <= b.v then a else b
  }

  function Max(a: real, b: real): (m: real)
    ensures m >= a && m >= b && (m == a || m == b)
  {
    if a >= b then a else b
  }

  /** A spend falls in the category's range. */
  predicate Contains(c: Category, spend: real) {
    c.lower <= spend && Below(spend, High(c))
  }

  /** The overlap test of `_check_overlap`: max of the lows below min of the
      highs. */
  predicate Overlaps(a: Category, b: Category) {
    Below(Max(a.lower, b.lower), MinBound(High(a), High(b)))
  }

  /** Two ranges overlap exactly when some spend lies in both. */
  lemma OverlapsMeansSharedSpend(a: Category, b: Category)
    ensures Overlaps(a, b) <==> exists x :: Contains(a, x) && Contains(b, x)
  {
    if Overlaps(a, b) {
      assert Contains(a, Max(a.lower, b.lower)) && Contains(b, Max(a.lower, b.lower));
    }
  }

  lemma OverlapsSymmetric(a: Category, b: Category)
    ensures Overlaps(a, b) <==> Overlaps(b, a)
  {
    OverlapsMeansSharedSpend(a, b);
    OverlapsMeansSharedSpend(b, a);
  }

  /** Adjacent ranges `[a, b)` and `[b, c)` are accepted: the comparison is
      strict. */
  lemma AdjacentRangesDoNotOverlap(a: Category, b: Category)
    requires a.upper != 0.0 && a.upper <= b.lower
    ensures !Overlaps(a, b)
  {
  }

  datatype Error = BadRange(category: nat) | RangesOverlap(first: string, second: string)

  /** `_check_range` for one record. */
  predicate RangeOk(c: Category) {
    c.upper == 0.0 || c.upper > c.lower
  }

  /** `_check_range` over the records being saved: the first bad one raises. */
  function CheckRange(recs: seq<Category>): (r: Outcome<Error>)
    ensures r == Pass <==> forall k :: 0 <= k < |recs| ==> RangeOk(recs[k])
    ensures r.Fail? ==> exists k :: 0 <= k < |recs| && !RangeOk(recs[k]) && r.error == BadRange(recs[k].id)
  {
    if recs == [] then Pass
    else if !RangeOk(recs[0]) then Fail(BadRange(recs[0].id))
    else CheckRange(recs[1..])
  }

  /** The categories `rec` is compared with: the other active ones. */
  predicate Compared(rec: Category, other: Category) {
    other.id != rec.id && other.active
  }

  /** The first active category of `others`, other than `rec`, whose range
      overlaps with it. */
  function FirstOverlap(rec: Category, others: seq<Category>): (r: Option<Category>)
    ensures r.Some? ==> r.value in others && Compared(rec, r.value) && Overlaps(rec, r.value)
    ensures r.None? <==> forall j :: 0 <= j < |others| && Compared(rec, others[j]) ==> !Overlaps(rec, others[j])
    ensures r.Some? ==>
      exists k :: 0 <= k < |others| && others[k] == r.value
        && forall j :: 0 <= j < k && Compared(rec, others[j]) ==> !Overlaps(rec, others[j])
  {
    if others == [] then None
    else if Compared(rec, others[0]) && Overlaps(rec, others[0]) then Some(others[0])
    else
      var r := FirstOverlap(rec, others[1..]);
      assert others == [others[0]] + others[1..];
      r
  }

  /** `recs[k]` is the first active record being saved that overlaps with
      another active category of `all`. */
  predicate FirstOverlapping(recs: seq<Category>, all: seq<Category>, k: int) {
    0 <= k < |recs| && recs[k].active && FirstOverlap(recs[k], all).Some?
    && forall i :: 0 <= i < k && recs[i].active ==> FirstOverlap(recs[i], all).None?
  }

  /** `_check_overlap`: each active record being saved is compared with
      every other active category of the database `all`. */
  function CheckOverlap(recs: seq<Category>, all: seq<Category>): (r: Outcome<Error>)
    ensures r == Pass <==>
      forall k, j :: 0 <= k < |recs| && 0 <= j < |all| && recs[k].active && Compared(recs[k], all[j])
                     ==> !Overlaps(recs[k], all[j])
    ensures r.Fail? ==>
      exists k :: FirstOverlapping(recs, all, k)
        && r.error == RangesOverlap(recs[k].name, FirstOverlap(recs[k], all).value.name)
  {
    if recs == [] then Pass
    else if !recs[0].active then
      var rest := CheckOverlap(recs[1..], all);
      assert forall k :: 1 <= k < |recs| ==> recs[k] == recs[1..][k - 1];
      FirstOverlappingShift(recs, all, rest);
      rest
    else
      var hit := FirstOverlap(recs[0], all);
      if hit.Some? then
        assert FirstOverlapping(recs, all, 0);
        Fail(RangesOverlap(recs[0].name, hit.value.name))
      else
        var rest := CheckOverlap(recs[1..], all);
        assert forall k :: 1 <= k < |recs| ==> recs[k] == recs[1..][k - 1];
        FirstOverlappingShift(recs, all, rest);
        rest
  }

  /** A failure on the records after the first, when the first passes, is
      the failure of the whole batch. */
  lemma FirstOverlappingShift(recs: seq<Category>, all: seq<Category>, rest: Outcome<Error>)
    requires recs != [] && (!recs[0].active || FirstOverlap(recs[0], all).None?)
    requires rest.Fail? ==>
      exists k :: FirstOverlapping(recs[1..], all, k)
        && rest.error == RangesOverlap(recs[1..][k].name, FirstOverlap(recs[1..][k], all).value.name)
    ensures rest.Fail? ==>
      exists k :: FirstOverlapping(recs, all, k)
        && rest.error == RangesOverlap(recs[k].name, FirstOverlap(recs[k], all).value.name)
  {
    if rest.Fail? {
      var k :| FirstOverlapping(recs[1..], all, k)
        && rest.error == RangesOverlap(recs[1..][k].name, FirstOverlap(recs[1..][k], all).value.name);
      assert recs[1..][k] == recs[k + 1];
      forall i | 0 <= i < k + 1 && recs[i].active
        ensures FirstOverlap(recs[i], all).None?
      {
        if i > 0 {
          assert recs[i] == recs[1..][i - 1];
        }
      }
      assert FirstOverlapping(recs, all, k + 1);
    }
  }

  /** An inactive record is never checked and never an obstacle. */
  lemma InactiveIgnored(recs: seq<Category>, all: seq<Category>, c: Category)
    requires !c.active
    ensures CheckOverlap(recs + [c], all) == Pass <==> CheckOverlap(recs, all) == Pass
    ensures CheckOverlap(recs, all + [c]) == Pass <==> CheckOverlap(recs, all) == Pass
  {
    var r1 := recs + [c];
    if CheckOverlap(recs, all) == Pass {
      forall k, j | 0 <= k < |r1| && 0 <= j < |all| && r1[k].active && Compared(r1[k], all[j])
        ensures !Overlaps(r1[k], all[j])
      {
        assert k < |recs|;
        assert r1[k] == recs[k];
      }
    }
    if CheckOverlap(r1, all) == Pass {
      forall k, j | 0 <= k < |recs| && 0 <= j < |all| && recs[k].active && Compared(recs[k], all[j])
        ensures !Overlaps(recs[k], all[j])
      {
        assert r1[k] == recs[k];
      }
    }
    var a1 := all + [c];
    if CheckOverlap(recs, all) == Pass {
      forall k, j | 0 <= k < |recs| && 0 <= j < |a1| && recs[k].active && Compared(recs[k], a1[j])
        ensures !Overlaps(recs[k], a1[j])
      {
        assert j < |all|;
        assert a1[j] == all[j];
      }
    }
    if CheckOverlap(recs, a1) == Pass {
      forall k, j | 0 <= k < |recs| && 0 <= j < |all| && recs[k].active && Compared(recs[k], all[j])
        ensures !Overlaps(recs[k], all[j])
      {
        assert a1[j] == all[j];
      }
    }
  }

  /** A category is never compared with itself: a lone active category,
      whatever its range, passes. */
  lemma NeverComparedWithItself(c: Category)
    ensures CheckOverlap([c], [c]) == Pass
  {
  }

  /** Once every active category of the database has passed both checks,
      every spend lies in at most one active category. */
  lemma {:induction false} AtMostOneTier(all: seq<Category>, spend: real, i: nat, j: nat)
    requires CheckOverlap(all, all) == Pass
    requires forall a, b :: 0 <= a < b < |all| ==> all[a].id != all[b].id
    requires i < |all| && j < |all| && i != j
    requires all[i].active && all[j].active
    ensures !(Contains(all[i], spend) && Contains(all[j], spend))
  {
    assert Compared(all[i], all[j]);
    assert !Overlaps(all[i], all[j]);
    OverlapsMeansSharedSpend(all[i], all[j]);
  }
}
