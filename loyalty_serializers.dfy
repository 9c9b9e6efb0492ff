/** TransactionCreateSerializer (backend/loyalty/serializers.py): the fields a
    customer may send when recording a purchase, their validation, and the
    creation of the transaction against the business's active package and
    the customer's loyalty row. */
module LoyaltySerializers {
  import opened Common
  import opened PackageModels
  import opened LoyaltyModels

  /** The accepted fields. A key the client did not send is `None`; a
      nullable field sent as null is `Some(None)`. The computed amounts,
      the points and the status are not accepted, so a client cannot set
      them. */
  datatype TxInput = TxInput(
    business: int,
    originalAmount: real,
    hasSpecialDiscount: Option<bool>,
    specialDiscountTitle: Option<Option<string>>,
    specialDiscountOriginalAmount: Option<real>,
    note: Option<Option<string>>)

  /** Why a creation is refused. */
  datatype TxError =
    | UnknownBusiness        // the business key names no profile
    | AmountFormat           // not a whole number of at most 12 digits
    | NegativeAmount         // an amount column's MinValueValidator(0)
    | TitleTooLong           // the title's max_length of 255
    | TitleRequired
    | SpecialAmountRequired
    | NoCustomerProfile      // `request.user.customerprofile` raises
    | NoActivePackage
    | DuplicateKeyword       // the TypeError of a keyword passed twice

  /** `data.get('has_special_discount')` is truthy. */
  predicate SpecialFlag(d: TxInput)
  {
    d.hasSpecialDiscount == Some(true)
  }

  /** The title as the serializer's `CharField` cleans it: surrounding
      whitespace is trimmed, and null stays null. */
  function CleanedTitle(d: TxInput): (t: Option<string>)
    ensures t.Some? <==> d.specialDiscountTitle.Some? && d.specialDiscountTitle.value.Some?
    ensures t.Some? ==> forall c :: c in t.value ==> c in d.specialDiscountTitle.value.value
  {
    match d.specialDiscountTitle
    case Some(Some(s)) => Some(Strip(s))
    case _ => None
  }

  /** `data.get('special_discount_title')` is truthy: sent, not null, and
      not empty once trimmed. */
  predicate TitleGiven(d: TxInput)
  {
    CleanedTitle(d).Some? && CleanedTitle(d).value != ""
  }

  /** `data.get('special_discount_original_amount')` is truthy: sent and not zero. */
  predicate SpecialAmountGiven(d: TxInput)
  {
    d.specialDiscountOriginalAmount.Some? && d.specialDiscountOriginalAmount.value != 0.0
  }

  /** What a `DecimalField(max_digits=12, decimal_places=0)` accepts: no
      fractional digits and at most twelve whole ones. */
  predicate WholeAmount(x: real)
  {
    x.Floor as real == x && -1_000_000_000_000.0 < x < 1_000_000_000_000.0
  }

  /** The amounts the client sent, each in the format of its column. */
  predicate AmountsWhole(d: TxInput)
  {
    WholeAmount(d.originalAmount)
    && (d.specialDiscountOriginalAmount.Some? ==> WholeAmount(d.specialDiscountOriginalAmount.value))
  }

  /** The amounts the client sent are at least zero. */
  predicate AmountsNonNegative(d: TxInput)
  {
    d.originalAmount >= 0.0
    && (d.specialDiscountOriginalAmount.Some? ==> d.specialDiscountOriginalAmount.value >= 0.0)
  }

  /** The trimmed title fits the column's 255 characters. */
  predicate TitleFits(d: TxInput)
  {
    CleanedTitle(d).Some? ==> |CleanedTitle(d).value| <= 255
  }

  /** The field-level checks that run before `validate`: the business key
      must name a profile, the amounts are whole numbers of at most twelve
      digits and at least zero, and the trimmed title fits its column. */
  predicate FieldsValid(d: TxInput, businesses: set<int>)
  {
    d.business in businesses && AmountsWhole(d) && AmountsNonNegative(d) && TitleFits(d)
  }

  /** is_valid(): the field checks, then `validate`, which with the special
      discount flag set demands a title and a non-zero special amount.
      None means the data is accepted. */
  function Validate(d: TxInput, businesses: set<int>): (r: Option<TxError>)
    ensures r.None? <==> FieldsValid(d, businesses) && (SpecialFlag(d) ==> TitleGiven(d) && SpecialAmountGiven(d))
    ensures r == Some(UnknownBusiness) <==> d.business !in businesses
    ensures r == Some(AmountFormat) <==> d.business in businesses && !AmountsWhole(d)
    ensures r == Some(TitleTooLong) ==> !TitleFits(d)
    ensures r == Some(TitleRequired) <==> FieldsValid(d, businesses) && SpecialFlag(d) && !TitleGiven(d)
    ensures r == Some(SpecialAmountRequired) <==>
              FieldsValid(d, businesses) && SpecialFlag(d) && TitleGiven(d) && !SpecialAmountGiven(d)
    ensures r.Some? ==> r.value in {UnknownBusiness, AmountFormat, NegativeAmount, TitleTooLong, TitleRequired, SpecialAmountRequired}
  {
    if d.business !in businesses then Some(UnknownBusiness)
    else if !AmountsWhole(d) then Some(AmountFormat)
    else if !AmountsNonNegative(d) then Some(NegativeAmount)
    else if !TitleFits(d) then Some(TitleTooLong)
    else if d.hasSpecialDiscount == Some(true) then
      if !TitleGiven(d) then Some(TitleRequired)
      else if d.specialDiscountOriginalAmount.None? || d.specialDiscountOriginalAmount.value == 0.0 then
        Some(SpecialAmountRequired)
      else None
    else None
  }

  /** A title of blanks alone is trimmed to the empty string, so with the
      special flag it is refused as missing. */
  lemma BlankTitleRefused(d: TxInput, businesses: set<int>)
    requires FieldsValid(d, businesses) && SpecialFlag(d)
    requires d.specialDiscountTitle.Some? && d.specialDiscountTitle.value.Some?
    requires forall i :: 0 <= i < |d.specialDiscountTitle.value.value| ==> IsSpace(d.specialDiscountTitle.value.value[i])
    ensures Validate(d, businesses) == Some(TitleRequired)
  {
    StripBlank(d.specialDiscountTitle.value.value);
  }

  /** An amount with a fractional part is refused before anything else
      about the payload but its business. */
  lemma FractionalAmountRefused(d: TxInput, businesses: set<int>)
    requires d.business in businesses && d.originalAmount.Floor as real != d.originalAmount
    ensures Validate(d, businesses) == Some(AmountFormat)
  {
  }

  /** A package the `is_active=True, status='approved'` filter keeps for `business`. */
  predicate ActiveApprovedOf(p: Package, business: int)
  {
    p.business == business && p.isActive && p.status == Approved
  }

  /** `business.packages.filter(is_active=True, status='approved').first()`:
      the model declares no ordering, so `first()` orders by primary key. */
  function ActivePackageOf(t: seq<Package>, business: int): (r: Option<Package>)
    ensures r.Some? ==>
              r.value in t && ActiveApprovedOf(r.value, business)
              && forall p :: p in t && ActiveApprovedOf(p, business) ==> r.value.id <= p.id
    ensures r.None? <==> forall p :: p in t ==> !ActiveApprovedOf(p, business)
  {
    if t == [] then None
    else
      var rest := ActivePackageOf(t[1..], business);
      if !ActiveApprovedOf(t[0], business) then rest
      else if rest.Some? && rest.value.id < t[0].id then rest
      else Some(t[0])
  }

  /** The Transaction fields that can be passed to its constructor as keywords. */
  datatype Field =
    | CustomerField | BusinessField | PackageField | LoyaltyField | OriginalAmountField
    | HasSpecialDiscountField | SpecialDiscountTitleField | SpecialDiscountOriginalAmountField | NoteField

  /** Binding a call's keyword arguments: the explicit names, then the
      names unpacked from a `**` dictionary, one by one. A name bound twice
      raises TypeError (None). */
  function CallKeywords(explicit: seq<Field>, spread: seq<Field>): (r: Option<seq<Field>>)
    ensures r.Some? ==> r.value == explicit + spread
    decreases |spread|
  {
    if spread == [] then Some(explicit)
    else if spread[0] in explicit then None
    else CallKeywords(explicit + [spread[0]], spread[1..])
  }

  /** Binding succeeds exactly when no name is bound twice. */
  lemma {:induction false} CallKeywordsDistinct(explicit: seq<Field>, spread: seq<Field>)
    requires Distinct(explicit)
    ensures CallKeywords(explicit, spread).Some? <==> Distinct(explicit + spread)
    decreases |spread|
  {
    if spread == [] {
      assert explicit + spread == explicit;
    } else if spread[0] in explicit {
      var i :| 0 <= i < |explicit| && explicit[i] == spread[0];
      assert (explicit + spread)[i] == (explicit + spread)[|explicit|];
    } else {
      var e := explicit + [spread[0]];
      assert e + spread[1..] == explicit + spread;
      CallKeywordsDistinct(e, spread[1..]);
    }
  }

  /** The keywords `create` passes explicitly to `Transaction.objects.create`. */
  const CreateKeywords: seq<Field> := [CustomerField, BusinessField, PackageField, LoyaltyField]

  /** The serializer's fields after `business`, in declaration order. */
  const OptionalFields: seq<Field> :=
    [OriginalAmountField, HasSpecialDiscountField, SpecialDiscountTitleField, SpecialDiscountOriginalAmountField, NoteField]

  /** Whether the client sent a field: `original_amount` is required. */
  predicate Sent(d: TxInput, f: Field)
  {
    match f
    case OriginalAmountField => true
    case HasSpecialDiscountField => d.hasSpecialDiscount.Some?
    case SpecialDiscountTitleField => d.specialDiscountTitle.Some?
    case SpecialDiscountOriginalAmountField => d.specialDiscountOriginalAmount.Some?
    case NoteField => d.note.Some?
    case _ => false
  }

  /** The keys of `validated_data` other than the required `business`: the
      required amount and the optional fields the client sent. */
  function OtherKeys(d: TxInput): (ks: seq<Field>)
    ensures OriginalAmountField in ks && BusinessField !in ks
    ensures forall f :: f in ks <==> f in OptionalFields && Sent(d, f)
  {
    Filter(OptionalFields, f => Sent(d, f))
  }

  /** The keys of `validated_data`: `business` is a required field of the
      serializer, so it is always there. */
  function ValidatedKeys(d: TxInput): (ks: seq<Field>)
    ensures |ks| > 0 && ks[0] == BusinessField
  {
    [BusinessField] + OtherKeys(d)
  }

  /** The call at serializers.py:95-101 passes `business=` and also
      `**validated_data`, which always holds `business`: it raises
      TypeError for every input. */
  lemma CreateCallAlwaysClashes(d: TxInput)
    ensures CallKeywords(CreateKeywords, ValidatedKeys(d)).None?
    ensures !Distinct(CreateKeywords + ValidatedKeys(d))
  {
    var all := CreateKeywords + ValidatedKeys(d);
    assert all[1] == all[4];
  }

  /** Without `business` in the unpacked dictionary every name is bound
      once, and the call goes through. */
  lemma CorrectedCallBinds(d: TxInput)
    ensures CallKeywords(CreateKeywords, OtherKeys(d)) == Some(CreateKeywords + OtherKeys(d))
  {
    assert Distinct(OptionalFields);
    FilterDistinct(OptionalFields, f => Sent(d, f));
    DistinctAppend(CreateKeywords, OtherKeys(d));
    CallKeywordsDistinct(CreateKeywords, OtherKeys(d));
  }

  /** What `create` hands back: the new transaction, or the reason it is refused. */
  datatype CreateOutcome = Made(t: Transaction) | Refused(e: TxError)

  /** `Transaction.objects.create(...)`: a new row from the accepted fields
      (absent optional fields take the column defaults), saved once, so its
      amounts are priced from `pkg`; it is pending and has earned nothing. */
  method NewTransaction(customer: int, d: TxInput, pkg: Package, loyalty: CustomerLoyalty) returns (t: Transaction)
    ensures fresh(t) && t.saved && t.status == TxPending && t.pointsEarned == 0
    ensures t.customer == customer && t.business == d.business && t.package == Some(pkg) && t.loyalty == loyalty
    ensures t.originalAmount == d.originalAmount && t.hasSpecialDiscount == SpecialFlag(d)
    ensures t.specialDiscountTitle == CleanedTitle(d)
    ensures t.specialDiscountOriginalAmount == GetOr(d.specialDiscountOriginalAmount, 0.0)
    ensures (t.discountAllAmount, t.specialDiscountAmount)
            == CalculateDiscount(Some(pkg), t.originalAmount, t.hasSpecialDiscount, t.specialDiscountOriginalAmount)
    ensures t.finalAmount
            == CalculateFinalAmount(Some(pkg), t.originalAmount, t.hasSpecialDiscount, t.specialDiscountOriginalAmount)
  {
    t := new Transaction(customer, d.business, Some(pkg), loyalty, d.originalAmount, GetOr(d.hasSpecialDiscount, false),
                         CleanedTitle(d), GetOr(d.specialDiscountOriginalAmount, 0.0));
    t.Save();
  }

  /** `create` as written: the customer profile, then the active package
      (refused without one, before the loyalty table is touched), then
      get-or-create of the loyalty row, then the keyword binding of the
      insert, which refuses whenever a name is bound twice. */
  method CreateAsWritten(customer: Option<int>, d: TxInput, packages: seq<Package>, table: LoyaltyTable)
    returns (r: CreateOutcome)
    requires table.Valid()
    modifies table
    ensures table.Valid()
    ensures customer.None? ==> r == Refused(NoCustomerProfile) && table.rows == old(table.rows)
    ensures customer.Some? && ActivePackageOf(packages, d.business).None? ==>
              r == Refused(NoActivePackage) && table.rows == old(table.rows)
    ensures customer.Some? && ActivePackageOf(packages, d.business).Some? ==>
              (customer.value, d.business) in table.rows
              && table.rows.Keys == old(table.rows.Keys) + {(customer.value, d.business)}
              && (r == Refused(DuplicateKeyword) <==> CallKeywords(CreateKeywords, ValidatedKeys(d)).None?)
  {
    if customer.None? {
      return Refused(NoCustomerProfile);
    }
    var pkg := ActivePackageOf(packages, d.business);
    if pkg.None? {
      return Refused(NoActivePackage);
    }
    var loyalty, _ := table.GetOrCreate(customer.value, d.business);
    var bound := CallKeywords(CreateKeywords, ValidatedKeys(d));
    if bound.None? {
      return Refused(DuplicateKeyword);
    }
    var t := NewTransaction(customer.value, d, pkg.value, loyalty);
    r := Made(t);
  }

  /** `create` as intended: the same checks in the same order, and a new
      pending transaction that references the business's active approved
      package and the (customer, business) loyalty row, which now exists
      exactly once. */
  method Create(customer: Option<int>, d: TxInput, packages: seq<Package>, table: LoyaltyTable)
    returns (r: CreateOutcome)
    requires table.Valid()
    modifies table
    ensures table.Valid()
    ensures customer.None? ==> r == Refused(NoCustomerProfile) && table.rows == old(table.rows)
    ensures customer.Some? && ActivePackageOf(packages, d.business).None? ==>
              r == Refused(NoActivePackage) && table.rows == old(table.rows)
    ensures customer.Some? && ActivePackageOf(packages, d.business).Some? ==>
              r.Made? && fresh(r.t)
              && table.rows.Keys == old(table.rows.Keys) + {(customer.value, d.business)}
              && ((customer.value, d.business) in old(table.rows) ==> table.rows == old(table.rows))
              && r.t.loyalty == table.rows[(customer.value, d.business)]
              && r.t.package == ActivePackageOf(packages, d.business)
              && r.t.customer == customer.value && r.t.business == d.business
              && r.t.saved && r.t.status == TxPending && r.t.pointsEarned == 0
              && r.t.finalAmount == CalculateFinalAmount(r.t.package, d.originalAmount, SpecialFlag(d),
                                                         GetOr(d.specialDiscountOriginalAmount, 0.0))
  {
    if customer.None? {
      return Refused(NoCustomerProfile);
    }
    var pkg := ActivePackageOf(packages, d.business);
    if pkg.None? {
      return Refused(NoActivePackage);
    }
    var loyalty, _ := table.GetOrCreate(customer.value, d.business);
    var t := NewTransaction(customer.value, d, pkg.value, loyalty);
    r := Made(t);
  }
}
