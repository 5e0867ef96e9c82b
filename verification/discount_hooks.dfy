/** The installation hook of the discount add-on: every customer without a
    discount category is given the `REG` category. */
module DiscountHooks {
  import opened Wrappers
  import opened DiscountPricelist

  /** A partner as the hook reads it, in the company the hook runs in:
      `discount_id` is company dependent. */
  datatype Partner = Partner(id: nat, discount: Option<nat>, customerRank: int, active: bool)

  /** The partners the hook's search finds: customers with no category,
      archived partners excluded as the search does by default. */
  predicate Target(p: Partner) {
    p.active && p.discount.None? && p.customerRank > 0
  }

  function Assign(p: Partner, reg: nat): (r: Partner)
    ensures r.id == p.id && r.customerRank == p.customerRank && r.active == p.active
    ensures Target(p) ==> r.discount == Some(reg)
    ensures !Target(p) ==> r == p
  {
    if Target(p) then p.(discount := Some(reg)) else p
  }

  /** Writes `reg` on every target partner, leaving the others alone. */
  function AssignAll(partners: seq<Partner>, reg: nat): (r: seq<Partner>)
    ensures |r| == |partners|
    ensures forall k :: 0 <= k < |partners| ==> r[k] == Assign(partners[k], reg)
  {
    seq(|partners|, k requires 0 <= k < |partners| => Assign(partners[k], reg))
  }

  /** `set_default_partner_discount` as written: the first `REG` category
      of any company is taken. */
  function HookAsWritten(discounts: seq<Discount>, partners: seq<Partner>): (r: seq<Partner>)
    ensures FirstReg(discounts, None).None? ==> r == partners
    ensures FirstReg(discounts, None).Some? ==> r == AssignAll(partners, FirstReg(discounts, None).value.id)
  {
    var reg := FirstReg(discounts, None);
    if reg.None? then partners else AssignAll(partners, reg.value.id)
  }

  /** The hook as written can give a partner the `REG` category of another
      company than the one it runs in, where `_default_discount` finds
      none. */
  lemma HookAsWrittenCrossesCompanies()
    ensures var discounts := [Discount(1, "Regular", RegCode, 10, 0.0, true, 2)];
            var r := HookAsWritten(discounts, [Partner(5, None, 1, true)]);
            r[0].discount == Some(1) && discounts[0].company != 1 && DefaultDiscount(discounts, 1).None?
  {
    var discounts := [Discount(1, "Regular", RegCode, 10, 0.0, true, 2)];
    assert IsReg(discounts[0], None);
    assert !IsReg(discounts[0], Some(1));
  }

  /** The hook run in `company`: its `REG` category is taken, as
      `_default_discount` takes it for new partners. */
  function SetDefaultPartnerDiscount(discounts: seq<Discount>, company: nat, partners: seq<Partner>): (r: seq<Partner>)
    ensures |r| == |partners|
    ensures DefaultDiscount(discounts, company).None? ==> r == partners
    ensures forall k :: 0 <= k < |partners| ==>
      r[k].id == partners[k].id && r[k].customerRank == partners[k].customerRank && r[k].active == partners[k].active
      && (!Target(partners[k]) ==> r[k] == partners[k])
      && (Target(partners[k]) && DefaultDiscount(discounts, company).Some? ==> r[k].discount == DefaultDiscount(discounts, company))
  {
    var reg := DefaultDiscount(discounts, company);
    if reg.None? then partners else AssignAll(partners, reg.value)
  }

  /** The partners of the database, as seen in the company the hook runs
      in. */
  class PartnerDirectory {
    var partners: seq<Partner>

    constructor (partners: seq<Partner>)
      ensures this.partners == partners
    {
      this.partners := partners;
    }

    /** `set_default_partner_discount`: one bulk write of the company's
        `REG` category on the customers that have none. */
    method RunHook(discounts: seq<Discount>, company: nat)
      modifies this
      ensures partners == SetDefaultPartnerDiscount(discounts, company, old(partners))
    {
      var reg := DefaultDiscount(discounts, company);
      if reg.None? {
        return;
      }
      partners := AssignAll(partners, reg.value);
    }
  }

  /** Every category the hook writes is a `REG` category of the company it
      runs in. */
  lemma HookStaysInCompany(discounts: seq<Discount>, company: nat, partners: seq<Partner>, k: nat)
    requires k < |partners| && Target(partners[k])
    requires SetDefaultPartnerDiscount(discounts, company, partners)[k].discount.Some?
    ensures exists j :: 0 <= j < |discounts|
                        && Some(discounts[j].id) == SetDefaultPartnerDiscount(discounts, company, partners)[k].discount
                        && discounts[j].company == company && discounts[j].code == RegCode
  {
  }

  /** After the hook, no active customer is left without a category when
      the company has a `REG` one. */
  lemma HookLeavesNoTarget(discounts: seq<Discount>, company: nat, partners: seq<Partner>)
    requires DefaultDiscount(discounts, company).Some?
    ensures forall k :: 0 <= k < |partners| ==> !Target(SetDefaultPartnerDiscount(discounts, company, partners)[k])
  {
  }

  /** Archived partners, suppliers and partners that already have a
      category are left exactly as they were. */
  lemma HookSkipsNonTargets(discounts: seq<Discount>, company: nat, partners: seq<Partner>, k: nat)
    requires k < |partners|
    requires !partners[k].active || partners[k].customerRank <= 0 || partners[k].discount.Some?
    ensures SetDefaultPartnerDiscount(discounts, company, partners)[k] == partners[k]
  {
  }

  /** Running the hook twice is the same as running it once. */
  lemma HookIdempotent(discounts: seq<Discount>, company: nat, partners: seq<Partner>)
    ensures var once := SetDefaultPartnerDiscount(discounts, company, partners);
            SetDefaultPartnerDiscount(discounts, company, once) == once
  {
    var once := SetDefaultPartnerDiscount(discounts, company, partners);
    if DefaultDiscount(discounts, company).Some? {
      HookLeavesNoTarget(discounts, company, partners);
    }
  }
}
