/** Customer discount categories and the pricelist an order is steered to:
    the active pricelist of the order's company and branch that carries the
    partner's discount category. */
module DiscountPricelist {
  import opened Wrappers

  /** `sale.discount`. */
  datatype Discount = Discount(id: nat, name: string, code: string, sequence: int, rate: real, active: bool, company: nat)

  /** `unique(code, company_id)`. */
  predicate CodesUnique(ds: seq<Discount>) {
    forall i, j :: 0 <= i < |ds| && 0 <= j < |ds| && i != j ==> !(ds[i].code == ds[j].code && ds[i].company == ds[j].company)
  }

  datatype Error = DuplicateCode(code: string, company: nat)

  /** Inserting a discount: refused when its code is already used in its
      company. */
  function InsertDiscount(ds: seq<Discount>, d: Discount): (r: Result<seq<Discount>, Error>)
    ensures r.Err? <==> exists k :: 0 <= k < |ds| && ds[k].code == d.code && ds[k].company == d.company
    ensures r.Ok? ==> r.value == ds + [d]
    ensures r.Ok? && CodesUnique(ds) ==> CodesUnique(r.value)
  {
    if exists k :: 0 <= k < |ds| && ds[k].code == d.code && ds[k].company == d.company then Err(DuplicateCode(d.code, d.company))
    else
      var r := ds + [d];
      assert forall k :: 0 <= k < |ds| ==> r[k] == ds[k];
      Ok(r)
  }

  /** A code names at most one discount per company. */
  lemma CodeIdentifiesDiscount(ds: seq<Discount>, i: nat, j: nat)
    requires CodesUnique(ds)
    requires i < |ds| && j < |ds|
    requires ds[i].code == ds[j].code && ds[i].company == ds[j].company
    ensures i == j
  {
  }

  const RegCode := "REG"

  /** An active `REG` discount, of `company` when one is given. */
  predicate IsReg(d: Discount, company: Option<nat>) {
    d.active && d.code == RegCode && (company.None? || d.company == company.value)
  }

  /** The first `REG` discount in search order (`sequence, id`), archived
      ones excluded as the search does by default; `company` filters it. */
  function FirstReg(discounts: seq<Discount>, company: Option<nat>): (r: Option<Discount>)
    ensures r.None? <==> forall k :: 0 <= k < |discounts| ==> !IsReg(discounts[k], company)
    ensures r.Some? ==> exists k :: 0 <= k < |discounts| && discounts[k] == r.value && IsReg(r.value, company)
                                    && forall j :: 0 <= j < k ==> !IsReg(discounts[j], company)
  {
    if discounts == [] then None
    else if IsReg(discounts[0], company) then Some(discounts[0])
    else
      var rest := FirstReg(discounts[1..], company);
      assert forall k :: 1 <= k < |discounts| ==> discounts[k] == discounts[1..][k - 1];
      if rest.Some? then
        var k :| 0 <= k < |discounts[1..]| && discounts[1..][k] == rest.value && IsReg(rest.value, company)
                 && forall j :: 0 <= j < k ==> !IsReg(discounts[1..][j], company);
        assert discounts[k + 1] == rest.value;
        rest
      else rest
  }

  /** `_default_discount`: a new partner's discount category is the
      company's `REG` discount, when it has one. */
  function DefaultDiscount(discounts: seq<Discount>, company: nat): (r: Option<nat>)
    ensures r.None? <==> forall k :: 0 <= k < |discounts| ==> !IsReg(discounts[k], Some(company))
    ensures r.Some? ==> exists k :: 0 <= k < |discounts| && discounts[k].id == r.value
                                    && discounts[k].company == company && discounts[k].code == RegCode
  {
    var d := FirstReg(discounts, Some(company));
    if d.Some? then Some(d.value.id) else None
  }

  datatype Pricelist = Pricelist(id: nat, company: nat, branch: Option<nat>, discount: Option<nat>, active: bool)

  /** What `_get_matching_pricelist` reads from an order. */
  datatype OrderKey = OrderKey(partner: Option<nat>, branch: Option<nat>, company: nat)

  /** A pricelist the order may use for discount `discount`. */
  predicate Matches(p: Pricelist, o: OrderKey, discount: nat)
    requires o.branch.Some?
  {
    p.active && p.company == o.company && p.branch == o.branch && p.discount == Some(discount)
  }

  /** `p` is the first pricelist, in search order, matching `discount`: what
      a search with `limit=1` returns. */
  predicate FirstMatchIs(pricelists: seq<Pricelist>, o: OrderKey, discount: nat, p: Pricelist)
    requires o.branch.Some?
  {
    exists k :: 0 <= k < |pricelists| && pricelists[k] == p
      && forall j :: 0 <= j < k ==> !Matches(pricelists[j], o, discount)
  }

  /** The first pricelist, in search order, matching `discount`. */
  function FirstMatch(pricelists: seq<Pricelist>, o: OrderKey, discount: nat): (r: Option<Pricelist>)
    requires o.branch.Some?
    ensures r.None? <==> forall k :: 0 <= k < |pricelists| ==> !Matches(pricelists[k], o, discount)
    ensures r.Some? ==> r.value in pricelists && Matches(r.value, o, discount)
    ensures r.Some? ==> FirstMatchIs(pricelists, o, discount, r.value)
  {
    if pricelists == [] then None
    else if Matches(pricelists[0], o, discount) then Some(pricelists[0])
    else
      assert forall k :: 1 <= k < |pricelists| ==> pricelists[k] == pricelists[1..][k - 1];
      FirstMatch(pricelists[1..], o, discount)
  }

  /** `_get_matching_pricelist`; `discountOf(partner, company)` is the
      partner's discount category in that company. */
  function MatchingPricelist(o: OrderKey, pricelists: seq<Pricelist>, discountOf: (nat, nat) -> Option<nat>): (r: Option<Pricelist>)
    ensures o.partner.None? || o.branch.None? ==> r.None?
    ensures o.partner.Some? && discountOf(o.partner.value, o.company).None? ==> r.None?
    ensures r.Some? ==>
      o.partner.Some? && o.branch.Some? && discountOf(o.partner.value, o.company).Some?
      && r.value in pricelists && Matches(r.value, o, discountOf(o.partner.value, o.company).value)
    ensures r.Some? ==> FirstMatchIs(pricelists, o, discountOf(o.partner.value, o.company).value, r.value)
    ensures r.None? && o.partner.Some? && o.branch.Some? && discountOf(o.partner.value, o.company).Some? ==>
      forall k :: 0 <= k < |pricelists| ==> !Matches(pricelists[k], o, discountOf(o.partner.value, o.company).value)
  {
    if o.partner.None? || o.branch.None? then None
    else
      var discount := discountOf(o.partner.value, o.company);
      if discount.None? then None
      else FirstMatch(pricelists, o, discount.value)
  }

  /** The order fields a write may set. */
  datatype OrderVals = OrderVals(partner: Option<Option<nat>>, branch: Option<Option<nat>>, pricelist: Option<Option<nat>>)

  class SaleOrder {
    var partner: Option<nat>
    var branch: Option<nat>
    const company: nat
    var pricelist: Option<nat>

    constructor (partner: Option<nat>, branch: Option<nat>, company: nat, pricelist: Option<nat>)
      ensures this.partner == partner && this.branch == branch && this.company == company && this.pricelist == pricelist
    {
      this.partner := partner;
      this.branch := branch;
      this.company := company;
      this.pricelist := pricelist;
    }

    function Key(): OrderKey
      reads this
    {
      OrderKey(partner, branch, company)
    }

    /** `_onchange_partner_branch_pricelist`: the matching pricelist, when
        there is one; otherwise the pricelist stays. */
    method OnchangePartnerBranch(pricelists: seq<Pricelist>, discountOf: (nat, nat) -> Option<nat>)
      modifies this
      ensures var m := MatchingPricelist(Key(), pricelists, discountOf);
              (m.Some? ==> pricelist == Some(m.value.id)) && (m.None? ==> pricelist == old(pricelist))
      ensures partner == old(partner) && branch == old(branch)
    {
      var m := MatchingPricelist(Key(), pricelists, discountOf);
      if m.Some? {
        pricelist := Some(m.value.id);
      }
    }
  }

  /** The pricelist an order ends with after a write: its match if any,
      else the one it has. */
  function Realigned(o: OrderKey, current: Option<nat>, pricelists: seq<Pricelist>, discountOf: (nat, nat) -> Option<nat>)
    : (r: Option<nat>)
    ensures var m := MatchingPricelist(o, pricelists, discountOf);
            (m.Some? ==> r == Some(m.value.id)) && (m.None? ==> r == current)
  {
    var m := MatchingPricelist(o, pricelists, discountOf);
    if m.Some? && current != Some(m.value.id) then Some(m.value.id) else current
  }

  function Apply<T>(v: Option<T>, current: T): T {
    if v.Some? then v.value else current
  }

  /** `SaleOrder.write`: the values are written, then each order whose
      match differs from its pricelist is moved to the match. */
  method Write(orders: seq<SaleOrder>, vals: OrderVals, pricelists: seq<Pricelist>, discountOf: (nat, nat) -> Option<nat>)
    requires forall i, j :: 0 <= i < j < |orders| ==> orders[i] != orders[j]
    modifies set o | o in orders
    ensures forall k :: 0 <= k < |orders| ==>
      orders[k].partner == Apply(vals.partner, old(orders[k].partner))
      && orders[k].branch == Apply(vals.branch, old(orders[k].branch))
      && orders[k].pricelist == Realigned(orders[k].Key(), Apply(vals.pricelist, old(orders[k].pricelist)), pricelists, discountOf)
  {
    for k := 0 to |orders|
      invariant forall j :: 0 <= j < k ==>
        orders[j].partner == Apply(vals.partner, old(orders[j].partner))
        && orders[j].branch == Apply(vals.branch, old(orders[j].branch))
        && orders[j].pricelist == Apply(vals.pricelist, old(orders[j].pricelist))
      invariant forall j :: k <= j < |orders| ==>
        orders[j].partner == old(orders[j].partner) && orders[j].branch == old(orders[j].branch)
        && orders[j].pricelist == old(orders[j].pricelist)
    {
      var o := orders[k];
      o.partner := Apply(vals.partner, o.partner);
      o.branch := Apply(vals.branch, o.branch);
      o.pricelist := Apply(vals.pricelist, o.pricelist);
    }
    for k := 0 to |orders|
      invariant forall j :: 0 <= j < |orders| ==>
        orders[j].partner == Apply(vals.partner, old(orders[j].partner))
        && orders[j].branch == Apply(vals.branch, old(orders[j].branch))
      invariant forall j :: 0 <= j < k ==>
        orders[j].pricelist == Realigned(orders[j].Key(), Apply(vals.pricelist, old(orders[j].pricelist)), pricelists, discountOf)
      invariant forall j :: k <= j < |orders| ==>
        orders[j].pricelist == Apply(vals.pricelist, old(orders[j].pricelist))
    {
      var o := orders[k];
      ghost var target := Realigned(o.Key(), o.pricelist, pricelists, discountOf);
      var m := MatchingPricelist(o.Key(), pricelists, discountOf);
      if m.Some? && o.pricelist != Some(m.value.id) {
        o.pricelist := Some(m.value.id);
      }
      assert o.pricelist == target;
    }
  }

  /** After a write, an order's pricelist carries the partner's discount
      whenever a matching pricelist exists. */
  lemma RealignedCarriesDiscount(o: OrderKey, current: Option<nat>, pricelists: seq<Pricelist>,
                                 discountOf: (nat, nat) -> Option<nat>)
    requires forall i, j :: 0 <= i < |pricelists| && 0 <= j < |pricelists| && pricelists[i].id == pricelists[j].id ==> i == j
    requires MatchingPricelist(o, pricelists, discountOf).Some?
    ensures exists k :: 0 <= k < |pricelists| && Realigned(o, current, pricelists, discountOf) == Some(pricelists[k].id)
                        && pricelists[k].discount == discountOf(o.partner.value, o.company)
                        && pricelists[k].branch == o.branch && pricelists[k].active
  {
    var m := MatchingPricelist(o, pricelists, discountOf);
    var k :| 0 <= k < |pricelists| && pricelists[k] == m.value;
  }

  /** Writing twice with the same values changes nothing the second time. */
  lemma RealignedStable(o: OrderKey, current: Option<nat>, pricelists: seq<Pricelist>, discountOf: (nat, nat) -> Option<nat>)
    ensures Realigned(o, Realigned(o, current, pricelists, discountOf), pricelists, discountOf)
            == Realigned(o, current, pricelists, discountOf)
  {
  }
}
