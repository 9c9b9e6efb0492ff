/** backend/loyalty/models.py: the per-(customer, business) point ledger with
    its VIP tier and single-use elite gift, and the purchase transaction that
    is priced from the business's package and credits points on approval.
    Amounts are exact reals: the source's Decimal-to-float conversions and
    the column quantisation on save are not modelled. */
module LoyaltyModels {
  import opened Common
  import opened PackageModels

  /** `vip_status`: 'none', 'vip' or 'vip_plus'. */
  datatype VipStatus = NoVip | Vip | VipPlus

  const VipPoints := 3000
  const VipPlusPoints := 7000

  /** The tier that update_vip_status derives from a balance. */
  function VipFor(points: int): (s: VipStatus)
    ensures s == VipPlus <==> points >= VipPlusPoints
    ensures s == Vip <==> VipPoints <= points < VipPlusPoints
    ensures s == NoVip <==> points < VipPoints
  {
    if points >= 7000 then VipPlus else if points >= 3000 then Vip else NoVip
  }

  function Rank(s: VipStatus): nat
  {
    match s
    case NoVip => 0
    case Vip => 1
    case VipPlus => 2
  }

  /** More points never give a lower tier. */
  lemma VipMonotone(a: int, b: int)
    requires a <= b
    ensures Rank(VipFor(a)) <= Rank(VipFor(b))
  {
  }

  /** Outcome of use_elite_gift: done, or the ValueError it raises. */
  datatype GiftUse = GiftUsed | TargetNotReached | AlreadyUsed

  /** CustomerLoyalty: one row per (customer, business). */
  class CustomerLoyalty {
    const customer: int
    const business: int
    var points: int
    var eliteGiftTargetReached: bool
    var eliteGiftUsed: bool
    var eliteGiftUsedDate: Option<int>
    var vipStatus: VipStatus

    /** The tier always matches the balance, and a used gift was reached
        and carries its date. */
    ghost predicate Valid()
      reads this
    {
      vipStatus == VipFor(points)
      && (eliteGiftUsed ==> eliteGiftTargetReached)
      && (eliteGiftUsed <==> eliteGiftUsedDate.Some?)
    }

    /** A new row with the column defaults. */
    constructor (customer: int, business: int)
      ensures Valid()
      ensures this.customer == customer && this.business == business
      ensures points == 0 && vipStatus == NoVip
      ensures !eliteGiftTargetReached && !eliteGiftUsed && eliteGiftUsedDate == None
    {
      this.customer := customer;
      this.business := business;
      points := 0;
      eliteGiftTargetReached := false;
      eliteGiftUsed := false;
      eliteGiftUsedDate := None;
      vipStatus := NoVip;
    }

    /** update_vip_status: recompute the tier from the balance. */
    method UpdateVipStatus()
      modifies this`vipStatus
      ensures vipStatus == VipFor(points)
    {
      if points >= 7000 {
        vipStatus := VipPlus;
      } else if points >= 3000 {
        vipStatus := Vip;
      } else {
        vipStatus := NoVip;
      }
    }

    /** add_points(n): the balance grows by exactly n and the tier follows it. */
    method AddPoints(n: int)
      requires Valid()
      modifies this`points, this`vipStatus
      ensures Valid()
      ensures points == old(points) + n
      ensures vipStatus == VipFor(points)
    {
      points := points + n;
      UpdateVipStatus();
    }

    /** use_elite_gift(): refused, with nothing changed, when the target is
        not reached or the gift was already used; otherwise marks it used at
        `now` (the clock is a parameter). */
    method UseEliteGift(now: int) returns (r: GiftUse)
      requires Valid()
      modifies this`eliteGiftUsed, this`eliteGiftUsedDate
      ensures Valid()
      ensures r == TargetNotReached <==> !old(eliteGiftTargetReached)
      ensures r == AlreadyUsed <==> old(eliteGiftTargetReached) && old(eliteGiftUsed)
      ensures r != GiftUsed ==> eliteGiftUsed == old(eliteGiftUsed) && eliteGiftUsedDate == old(eliteGiftUsedDate)
      ensures r == GiftUsed ==> eliteGiftUsed && eliteGiftUsedDate == Some(now)
    {
      if !eliteGiftTargetReached {
        return TargetNotReached;
      }
      if eliteGiftUsed {
        return AlreadyUsed;
      }
      eliteGiftUsed := true;
      eliteGiftUsedDate := Some(now);
      return GiftUsed;
    }
  }

  /** The CustomerLoyalty table, keyed by the unique (customer, business)
      pair; each row is the object stored under its own key. */
  class LoyaltyTable {
    var rows: map<(int, int), CustomerLoyalty>

    ghost predicate Valid()
      reads this, rows.Values
    {
      forall k :: k in rows ==> rows[k].customer == k.0 && rows[k].business == k.1 && rows[k].Valid()
    }

    constructor ()
      ensures Valid() && rows == map[]
    {
      rows := map[];
    }

    /** get_or_create(customer=..., business=...): the existing row of the
        pair, or a fresh row with the column defaults added under it; no
        other row changes. */
    method GetOrCreate(customer: int, business: int) returns (l: CustomerLoyalty, created: bool)
      requires Valid()
      modifies this`rows
      ensures Valid()
      ensures (customer, business) in rows && rows[(customer, business)] == l
      ensures created <==> (customer, business) !in old(rows)
      ensures !created ==> rows == old(rows)
      ensures created ==>
                fresh(l) && rows == old(rows)[(customer, business) := l]
                && l.points == 0 && l.vipStatus == NoVip && !l.eliteGiftTargetReached && !l.eliteGiftUsed
    {
      if (customer, business) in rows {
        return rows[(customer, business)], false;
      }
      l := new CustomerLoyalty(customer, business);
      rows := rows[(customer, business) := l];
      created := true;
    }
  }

  /** Two get-or-creates of the same pair return the same row and add at
      most one row to the table. */
  method GetOrCreateTwice(t: LoyaltyTable, customer: int, business: int)
    returns (first: CustomerLoyalty, second: CustomerLoyalty, secondCreated: bool)
    requires t.Valid()
    modifies t
    ensures t.Valid()
    ensures first == second && !secondCreated
    ensures t.rows.Keys == old(t.rows.Keys) + {(customer, business)}
  {
    var c;
    first, c := t.GetOrCreate(customer, business);
    second, secondCreated := t.GetOrCreate(customer, business);
  }

  /** Whatever the first call returned, a second use_elite_gift always fails. */
  method UseEliteGiftTwice(l: CustomerLoyalty, now: int, later: int) returns (first: GiftUse, second: GiftUse)
    requires l.Valid()
    modifies l
    ensures second != GiftUsed
    ensures first == GiftUsed <==> old(l.eliteGiftTargetReached) && !old(l.eliteGiftUsed)
  {
    first := l.UseEliteGift(now);
    second := l.UseEliteGift(later);
  }

  /** calculate_discount: the blanket discount amount and the special
      discount amount of a purchase. Both are zero without a package or
      without its blanket discount; the special amount needs the flag and a
      specific discount on the package. */
  function CalculateDiscount(pkg: Option<Package>, original: real, hasSpecial: bool, specialOriginal: real)
    : (r: (real, real))
    ensures pkg.None? || pkg.value.discountAll.None? ==> r == (0.0, 0.0)
    ensures pkg.Some? && pkg.value.discountAll.Some? ==>
              r.0 * 100.0 == original * pkg.value.discountAll.value.percentage
    ensures r.1 != 0.0 ==>
              hasSpecial && pkg.Some? && pkg.value.discountAll.Some? && pkg.value.specificDiscount.Some?
              && r.1 * 100.0 == specialOriginal * pkg.value.specificDiscount.value.percentage
    ensures hasSpecial && pkg.Some? && pkg.value.discountAll.Some? && pkg.value.specificDiscount.Some? ==>
              r.1 * 100.0 == specialOriginal * pkg.value.specificDiscount.value.percentage
  {
    if pkg.None? || pkg.value.discountAll.None? then (0.0, 0.0)
    else
      var blanket := original * pkg.value.discountAll.value.percentage / 100.0;
      var special :=
        if hasSpecial && pkg.value.specificDiscount.Some? then
          specialOriginal * pkg.value.specificDiscount.value.percentage / 100.0
        else 0.0;
      (blanket, special)
  }

  function Max0(x: real): real
  {
    if x < 0.0 then 0.0 else x
  }

  /** calculate_final_amount: what is paid, never negative. */
  function CalculateFinalAmount(pkg: Option<Package>, original: real, hasSpecial: bool, specialOriginal: real)
    : (f: real)
    ensures f >= 0.0
    ensures var (d, s) := CalculateDiscount(pkg, original, hasSpecial, specialOriginal);
      f == Max0((original - d) + (if hasSpecial then specialOriginal - s else 0.0))
  {
    var (d, s) := CalculateDiscount(pkg, original, hasSpecial, specialOriginal);
    var net := original - d;
    var final := if hasSpecial then net + (specialOriginal - s) else net;
    Max0(final)
  }

  /** Python's int() of a real: truncation toward zero. */
  function Trunc(x: real): (n: int)
    ensures x >= 0.0 ==> n as real <= x < n as real + 1.0
    ensures x < 0.0 ==> n as real - 1.0 < x <= n as real
  {
    if x >= 0.0 then x.Floor else -((-x).Floor)
  }

  /** calculate_points: one point per whole 10,000 of the final amount. */
  function CalculatePoints(finalAmount: real): (p: int)
    ensures finalAmount >= 0.0 ==> p >= 0 && p as real * 10000.0 <= finalAmount < (p + 1) as real * 10000.0
  {
    Trunc(finalAmount / 10000.0)
  }

  /** With validated inputs (non-negative amounts, percentages in [1, 100])
      each discount is at most its base amount, so the floor at zero never
      applies and the final amount is the plain sum of what remains. */
  lemma FinalAmountWithinGross(pkg: Option<Package>, original: real, hasSpecial: bool, specialOriginal: real)
    requires original >= 0.0 && specialOriginal >= 0.0
    requires pkg.Some? ==> ValidFields(pkg.value)
    ensures var (d, s) := CalculateDiscount(pkg, original, hasSpecial, specialOriginal);
      0.0 <= d <= original && 0.0 <= s <= specialOriginal
      && CalculateFinalAmount(pkg, original, hasSpecial, specialOriginal)
         == (original - d) + (if hasSpecial then specialOriginal - s else 0.0)
    ensures CalculateFinalAmount(pkg, original, hasSpecial, specialOriginal)
            <= original + (if hasSpecial then specialOriginal else 0.0)
  {
    var (d, s) := CalculateDiscount(pkg, original, hasSpecial, specialOriginal);
    if pkg.Some? && pkg.value.discountAll.Some? {
      ShareWithin(original, pkg.value.discountAll.value.percentage, d);
    }
    if s != 0.0 {
      ShareWithin(specialOriginal, pkg.value.specificDiscount.value.percentage, s);
    }
  }

  /** A percentage share of a non-negative base lies between 0 and the base. */
  lemma ShareWithin(base: real, pct: real, x: real)
    requires base >= 0.0 && 0.0 <= pct <= 100.0
    requires x * 100.0 == base * pct
    ensures 0.0 <= x <= base
  {
    ProductNonNegative(pct, base);
    ProductNonNegative(100.0 - pct, base);
    SubProduct(100.0, pct, base);
  }

  datatype TxStatus = TxPending | TxApproved | TxRejected

  /** Transaction: one purchase by a customer at a business. */
  class Transaction {
    /** The primary key is set: the row has been saved once. */
    var saved: bool
    const customer: int
    const business: int
    const package: Option<Package>
    const loyalty: CustomerLoyalty
    const originalAmount: real
    const hasSpecialDiscount: bool
    const specialDiscountTitle: Option<string>
    const specialDiscountOriginalAmount: real
    var discountAllAmount: real
    var specialDiscountAmount: real
    var finalAmount: real
    var pointsEarned: int
    var status: TxStatus

    /** An unsaved transaction built from the client's fields; the computed
        columns hold their defaults until the first save. */
    constructor (customer: int, business: int, package: Option<Package>, loyalty: CustomerLoyalty,
                 originalAmount: real, hasSpecialDiscount: bool, specialDiscountTitle: Option<string>,
                 specialDiscountOriginalAmount: real)
      ensures !saved && status == TxPending && pointsEarned == 0
      ensures discountAllAmount == 0.0 && specialDiscountAmount == 0.0 && finalAmount == 0.0
      ensures this.customer == customer && this.business == business && this.package == package
      ensures this.loyalty == loyalty && this.originalAmount == originalAmount
      ensures this.hasSpecialDiscount == hasSpecialDiscount && this.specialDiscountTitle == specialDiscountTitle
      ensures this.specialDiscountOriginalAmount == specialDiscountOriginalAmount
    {
      saved := false;
      this.customer := customer;
      this.business := business;
      this.package := package;
      this.loyalty := loyalty;
      this.originalAmount := originalAmount;
      this.hasSpecialDiscount := hasSpecialDiscount;
      this.specialDiscountTitle := specialDiscountTitle;
      this.specialDiscountOriginalAmount := specialDiscountOriginalAmount;
      discountAllAmount := 0.0;
      specialDiscountAmount := 0.0;
      finalAmount := 0.0;
      pointsEarned := 0;
      status := TxPending;
    }

    /** save(): the amounts are computed on the first save only; later saves
        leave them as they are. */
    method Save()
      modifies this`saved, this`discountAllAmount, this`specialDiscountAmount, this`finalAmount
      ensures saved
      ensures !old(saved) ==>
                (discountAllAmount, specialDiscountAmount)
                  == CalculateDiscount(package, originalAmount, hasSpecialDiscount, specialDiscountOriginalAmount)
                && finalAmount
                  == CalculateFinalAmount(package, originalAmount, hasSpecialDiscount, specialDiscountOriginalAmount)
      ensures old(saved) ==>
                discountAllAmount == old(discountAllAmount) && specialDiscountAmount == old(specialDiscountAmount)
                && finalAmount == old(finalAmount)
    {
      if !saved {
        var (d, s) := CalculateDiscount(package, originalAmount, hasSpecialDiscount, specialDiscountOriginalAmount);
        discountAllAmount := d;
        specialDiscountAmount := s;
        finalAmount := CalculateFinalAmount(package, originalAmount, hasSpecialDiscount, specialDiscountOriginalAmount);
      }
      saved := true;
    }

    /** approve(): a no-op on an approved transaction, so points are credited
        at most once; otherwise approves it, records the points of the final
        amount and adds exactly those points to the loyalty row. */
    method Approve()
      requires loyalty.Valid()
      modifies this, loyalty
      ensures loyalty.Valid()
      ensures old(status) == TxApproved ==>
                status == TxApproved && pointsEarned == old(pointsEarned) && saved == old(saved)
                && loyalty.points == old(loyalty.points) && finalAmount == old(finalAmount)
      ensures old(status) != TxApproved ==>
                status == TxApproved && pointsEarned == CalculatePoints(old(finalAmount))
                && loyalty.points == old(loyalty.points) + pointsEarned && saved
      ensures old(saved) ==> finalAmount == old(finalAmount) && discountAllAmount == old(discountAllAmount)
                             && specialDiscountAmount == old(specialDiscountAmount)
      ensures loyalty.eliteGiftUsed == old(loyalty.eliteGiftUsed)
      ensures loyalty.eliteGiftTargetReached == old(loyalty.eliteGiftTargetReached)
    {
      if status == TxApproved {
        return;
      }
      status := TxApproved;
      pointsEarned := CalculatePoints(finalAmount);
      loyalty.AddPoints(pointsEarned);
      Save();
    }

    /** reject(): sets the status and never touches points, even after an
        approval. */
    method Reject()
      modifies this`status, this`saved, this`discountAllAmount, this`specialDiscountAmount, this`finalAmount
      ensures status == TxRejected && saved
      ensures pointsEarned == old(pointsEarned)
      ensures old(saved) ==> finalAmount == old(finalAmount)
      ensures old(saved) ==> discountAllAmount == old(discountAllAmount)
      ensures old(saved) ==> specialDiscountAmount == old(specialDiscountAmount)
    {
      status := TxRejected;
      Save();
    }
  }

  /** Approving twice credits the loyalty row once. */
  method ApproveTwice(t: Transaction)
    requires t.loyalty.Valid() && t.status == TxPending && t.saved
    modifies t, t.loyalty
    ensures t.status == TxApproved
    ensures t.pointsEarned == CalculatePoints(old(t.finalAmount))
    ensures t.loyalty.points == old(t.loyalty.points) + t.pointsEarned
  {
    t.Approve();
    t.Approve();
  }
}
