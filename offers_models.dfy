/** backend/offers/models.py: a percentage discount and a gift offered by a
    business, with their model validation. Gift.clean clears the quantity
    or the amount in place, so a gift is an object here. Dates are integer
    timestamps; a gift date not yet set is None. */
module OffersModels {
  import opened Common

  datatype OfferDiscount = OfferDiscount(
    business: int,
    title: string,
    percentage: int,
    startDate: int,
    endDate: int,
    isActive: bool)

  /** The percentage validators: 1 to 100. */
  predicate ValidPercentage(p: int)
  {
    1 <= p <= 100
  }

  /** A new offer discount starts active. */
  const DefaultIsActive := true

  /** Discount.clean: an end before the start is refused; equal dates pass. */
  function CleanDiscount(d: OfferDiscount): (accepted: bool)
    ensures accepted <==> d.startDate <= d.endDate
  {
    !(d.endDate < d.startDate)
  }

  /** `gift_type`: 'quantity' or 'amount'; any other string is `OtherType`
      (the choices are checked by the field validation, not by clean). */
  datatype GiftType = Quantity | Amount | OtherType

  /** The refusals of Gift.clean, in the order it checks them. */
  datatype GiftError = EndBeforeStart | AmountRequired | QuantityRequired

  /** What Gift.clean does with the three fields it reads: the first refusal,
      or the quantity and amount it leaves on the instance. */
  datatype GiftCleaning = Refused(err: GiftError) | Cleaned(quantity: Option<int>, amount: Option<real>)

  /** The effect of Gift.clean on (type, dates, quantity, amount). A refusal
      raised after the date check leaves the fields as they were. */
  function GiftClean(t: GiftType, startDate: Option<int>, endDate: Option<int>,
                     quantity: Option<int>, amount: Option<real>): (r: GiftCleaning)
    ensures r == Refused(EndBeforeStart) <==> startDate.Some? && endDate.Some? && endDate.value < startDate.value
    ensures r == Refused(AmountRequired) <==>
              !(startDate.Some? && endDate.Some? && endDate.value < startDate.value) && t == Amount && !TruthyReal(amount)
    ensures r == Refused(QuantityRequired) <==>
              !(startDate.Some? && endDate.Some? && endDate.value < startDate.value) && t == Quantity && !TruthyInt(quantity)
    ensures r.Cleaned? && t == Amount ==> r.quantity.None? && r.amount == amount && TruthyReal(amount)
    ensures r.Cleaned? && t == Quantity ==> r.amount.None? && r.quantity == quantity && TruthyInt(quantity)
    ensures r.Cleaned? && t == OtherType ==> r.quantity == quantity && r.amount == amount
  {
    if endDate.Some? && startDate.Some? && endDate.value < startDate.value then Refused(EndBeforeStart)
    else if t == Amount then
      if !TruthyReal(amount) then Refused(AmountRequired) else Cleaned(None, amount)
    else if t == Quantity then
      if !TruthyInt(quantity) then Refused(QuantityRequired) else Cleaned(quantity, None)
    else Cleaned(quantity, amount)
  }

  /** Cleaning is idempotent: a cleaned gift cleans to itself. */
  lemma GiftCleanIdempotent(t: GiftType, startDate: Option<int>, endDate: Option<int>,
                            quantity: Option<int>, amount: Option<real>)
    requires GiftClean(t, startDate, endDate, quantity, amount).Cleaned?
    ensures var c := GiftClean(t, startDate, endDate, quantity, amount);
            GiftClean(t, startDate, endDate, c.quantity, c.amount) == c
  {
  }

  /** The gift as written: `gift_quantity` is a NOT NULL column holding a
      non-negative integer. */
  predicate StorableAsWritten(quantity: Option<int>, amount: Option<real>)
  {
    quantity.Some? && quantity.value >= 0
  }

  /** With `gift_quantity` nullable, as clean evidently expects. */
  predicate Storable(quantity: Option<int>, amount: Option<real>)
  {
    quantity.None? || quantity.value >= 0
  }

  /** Every amount gift that clean accepts has its quantity cleared, and the
      NOT NULL column then refuses it: no amount gift can be saved. */
  lemma AmountGiftNeverStored(startDate: Option<int>, endDate: Option<int>,
                              quantity: Option<int>, amount: Option<real>)
    requires GiftClean(Amount, startDate, endDate, quantity, amount).Cleaned?
    ensures var c := GiftClean(Amount, startDate, endDate, quantity, amount);
            !StorableAsWritten(c.quantity, c.amount)
  {
  }

  /** With the nullable column every gift that clean accepts can be saved,
      provided the quantity it had is not negative. */
  lemma CleanedGiftStorable(t: GiftType, startDate: Option<int>, endDate: Option<int>,
                            quantity: Option<int>, amount: Option<real>)
    requires GiftClean(t, startDate, endDate, quantity, amount).Cleaned?
    requires quantity.Some? ==> quantity.value >= 0
    ensures var c := GiftClean(t, startDate, endDate, quantity, amount);
            Storable(c.quantity, c.amount)
    ensures t == Amount ==>
              var c := GiftClean(t, startDate, endDate, quantity, amount);
              Storable(c.quantity, c.amount) && !StorableAsWritten(c.quantity, c.amount)
  {
  }

  /** A gift instance; clean updates its quantity and amount in place. */
  class Gift {
    var giftType: GiftType
    var startDate: Option<int>
    var endDate: Option<int>
    var giftQuantity: Option<int>
    var giftAmount: Option<real>

    constructor(t: GiftType, s: Option<int>, e: Option<int>, q: Option<int>, a: Option<real>)
      ensures giftType == t && startDate == s && endDate == e && giftQuantity == q && giftAmount == a
    {
      giftType := t;
      startDate := s;
      endDate := e;
      giftQuantity := q;
      giftAmount := a;
    }

    /** Gift.clean: raises (err is Some) or clears the field the type does
        not use. */
    method Clean() returns (err: Option<GiftError>)
      modifies this`giftQuantity, this`giftAmount
      ensures var c := GiftClean(giftType, startDate, endDate, old(giftQuantity), old(giftAmount));
              (c.Refused? ==> err == Some(c.err) && giftQuantity == old(giftQuantity) && giftAmount == old(giftAmount))
              && (c.Cleaned? ==> err.None? && giftQuantity == c.quantity && giftAmount == c.amount)
    {
      if endDate.Some? && startDate.Some? && endDate.value < startDate.value {
        return Some(EndBeforeStart);
      }
      if giftType == Amount {
        if !TruthyReal(giftAmount) {
          return Some(AmountRequired);
        }
        giftQuantity := None;
      } else if giftType == Quantity {
        if !TruthyInt(giftQuantity) {
          return Some(QuantityRequired);
        }
        giftAmount := None;
      }
      return None;
    }
  }
}
