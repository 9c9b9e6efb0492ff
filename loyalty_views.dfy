/** backend/loyalty/views.py: the role-scoped querysets of the loyalty and
    transaction viewsets, transaction creation and its approve/reject
    actions, and `get_business_by_code`, the projection a customer sees
    after scanning a business's code. */
module LoyaltyViews {
  import opened Common
  import opened PackageModels
  import opened LoyaltyModels
  import opened LoyaltySerializers

  /** `get_queryset` of both viewsets, over rows owned by a customer and a
      business: a customer sees its own rows, a business its own, the three
      staff roles all rows, everyone else none. None is the exception
      raised when a customer or business account has no profile. */
  function RoleScope<T(!new)>(u: User, rows: seq<T>, customerOf: T -> int, businessOf: T -> int): (r: Option<seq<T>>)
    ensures u.role == Customer ==>
              (r.None? <==> u.customerProfile.None?)
              && (r.Some? ==> forall x :: x in r.value <==> x in rows && customerOf(x) == u.customerProfile.value)
    ensures u.role == Business ==>
              (r.None? <==> u.businessProfile.None?)
              && (r.Some? ==> forall x :: x in r.value <==> x in rows && businessOf(x) == u.businessProfile.value)
    ensures IsStaff(u.role) ==> r == Some(rows)
    ensures u.role != Customer && u.role != Business && !IsStaff(u.role) ==> r == Some([])
  {
    if u.role == Customer then
      if u.customerProfile.None? then None
      else Some(Filter(rows, (x: T) => customerOf(x) == u.customerProfile.value))
    else if u.role == Business then
      if u.businessProfile.None? then None
      else Some(Filter(rows, (x: T) => businessOf(x) == u.businessProfile.value))
    else if IsStaff(u.role) then Some(rows)
    else Some([])
  }

  /** The ownership columns of a transaction row, as the queryset sees them. */
  datatype TxRow = TxRow(id: int, customer: int, business: int)

  /** `get_object` of TransactionViewSet: the row with primary key `pk`
      among those the user may see; None is a 404. */
  function GetTransaction(u: User, rows: seq<TxRow>, pk: int): (r: Option<TxRow>)
    requires RoleScope(u, rows, (x: TxRow) => x.customer, (x: TxRow) => x.business).Some?
    ensures r.Some? ==> r.value.id == pk && r.value in rows
    ensures r.None? <==>
              forall x :: x in RoleScope(u, rows, (x: TxRow) => x.customer, (x: TxRow) => x.business).value ==> x.id != pk
  {
    FindById(RoleScope(u, rows, (x: TxRow) => x.customer, (x: TxRow) => x.business).value, (x: TxRow) => x.id, pk)
  }

  /** A business user never reaches another business's transaction: it is
      a 404 before the ownership check of `approve` or `reject` runs. */
  lemma ForeignTransactionNotFound(u: User, rows: seq<TxRow>, pk: int)
    requires u.role == Business && u.businessProfile.Some?
    requires forall x :: x in rows && x.id == pk ==> x.business != u.businessProfile.value
    ensures GetTransaction(u, rows, pk).None?
  {
  }

  /** `create` as written: only customers (403 otherwise); invalid data
      is a 400, as is the refusal of a business without an active package;
      a customer account without a profile raises (500). Past those checks
      the serializer get-or-creates the loyalty row and then passes
      `business` twice to the create call, which raises: the request ends
      in 500 with the row left created, and no transaction is ever made. */
  method CreateTransaction(u: User, d: TxInput, businesses: set<int>, packages: seq<Package>, table: LoyaltyTable)
    returns (st: Status, t: Option<Transaction>)
    requires table.Valid()
    modifies table
    ensures table.Valid()
    ensures st != Created && t.None?
    ensures u.role != Customer ==> st == Forbidden && table.rows == old(table.rows)
    ensures u.role == Customer && Validate(d, businesses).Some? ==> st == BadRequest && table.rows == old(table.rows)
    ensures u.role == Customer && Validate(d, businesses).None? && u.customerProfile.None? ==>
              st == ServerError && table.rows == old(table.rows)
    ensures (u.role == Customer && Validate(d, businesses).None? && u.customerProfile.Some?
             && ActivePackageOf(packages, d.business).None?) ==> st == BadRequest && table.rows == old(table.rows)
    ensures (u.role == Customer && Validate(d, businesses).None? && u.customerProfile.Some?
             && ActivePackageOf(packages, d.business).Some?) ==>
              st == ServerError
              && (u.customerProfile.value, d.business) in table.rows
              && table.rows.Keys == old(table.rows.Keys) + {(u.customerProfile.value, d.business)}
  {
    if u.role != Customer {
      return Forbidden, None;
    }
    if Validate(d, businesses).Some? {
      return BadRequest, None;
    }
    CreateCallAlwaysClashes(d);
    var r := CreateAsWritten(u.customerProfile, d, packages, table);
    st, t := if r == Refused(NoActivePackage) then BadRequest else ServerError, None;
  }

  /** `create` on the corrected serializer: the same guards, and otherwise
      the transaction is created (201). */
  method CreateTransactionCorrected(u: User, d: TxInput, businesses: set<int>, packages: seq<Package>, table: LoyaltyTable)
    returns (st: Status, t: Option<Transaction>)
    requires table.Valid()
    modifies table
    ensures table.Valid()
    ensures st != Created ==> t.None? && table.rows == old(table.rows)
    ensures u.role != Customer ==> st == Forbidden
    ensures u.role == Customer && Validate(d, businesses).Some? ==> st == BadRequest
    ensures u.role == Customer && Validate(d, businesses).None? && u.customerProfile.None? ==> st == ServerError
    ensures (u.role == Customer && Validate(d, businesses).None? && u.customerProfile.Some?
             && ActivePackageOf(packages, d.business).None?) ==> st == BadRequest
    ensures (u.role == Customer && Validate(d, businesses).None? && u.customerProfile.Some?
             && ActivePackageOf(packages, d.business).Some?) ==>
              st == Created && t.Some? && fresh(t.value)
              && t.value.status == TxPending && t.value.pointsEarned == 0
              && t.value.package == ActivePackageOf(packages, d.business)
              && table.rows.Keys == old(table.rows.Keys) + {(u.customerProfile.value, d.business)}
              && t.value.loyalty == table.rows[(u.customerProfile.value, d.business)]
  {
    if u.role != Customer {
      return Forbidden, None;
    }
    if Validate(d, businesses).Some? {
      return BadRequest, None;
    }
    var r := Create(u.customerProfile, d, packages, table);
    match r
    case Made(tx) => st, t := Created, Some(tx);
    case Refused(e) => st, t := if e == NoCustomerProfile then ServerError else BadRequest, None;
  }

  /** `t` is the transaction whose row in `rows` has primary key `pk`,
      should there be one. */
  ghost predicate IsRowOf(t: Transaction, rows: seq<TxRow>, pk: int)
  {
    forall x :: x in rows && x.id == pk ==> x.customer == t.customer && x.business == t.business
  }

  /** `approve`: only a business user (403 otherwise); the queryset of one
      without a profile raises (500); `get_object` answers 404 for a key
      outside the business's own transactions; none of these changes
      anything. The transaction found is the business's own, so the
      ownership check after `get_object` (403) never fires: the owner
      approves it. */
  method ApproveTransaction(u: User, rows: seq<TxRow>, pk: int, t: Transaction) returns (st: Status)
    requires IsRowOf(t, rows, pk)
    requires t.loyalty.Valid()
    modifies t, t.loyalty
    ensures t.loyalty.Valid()
    ensures u.role == Business ==> st != Forbidden
    ensures u.role != Business ==> st == Forbidden && unchanged(t, t.loyalty)
    ensures u.role == Business && u.businessProfile.None? ==> st == ServerError && unchanged(t, t.loyalty)
    ensures u.role == Business && u.businessProfile.Some? && GetTransaction(u, rows, pk).None? ==>
              st == NotFound && unchanged(t, t.loyalty)
    ensures u.role == Business && u.businessProfile.Some? && GetTransaction(u, rows, pk).Some? ==>
              st == Ok && t.business == u.businessProfile.value && t.status == TxApproved
              && (old(t.status) == TxApproved ==> t.loyalty.points == old(t.loyalty.points))
              && (old(t.status) != TxApproved ==>
                    t.pointsEarned == CalculatePoints(old(t.finalAmount))
                    && t.loyalty.points == old(t.loyalty.points) + t.pointsEarned)
  {
    if u.role != Business {
      return Forbidden;
    }
    if u.businessProfile.None? {
      return ServerError;
    }
    var found := GetTransaction(u, rows, pk);
    if found.None? {
      return NotFound;
    }
    OwnRowFound(u, rows, pk);
    t.Approve();
    return Ok;
  }

  /** The row `get_object` finds for a business user is the business's own. */
  lemma OwnRowFound(u: User, rows: seq<TxRow>, pk: int)
    requires u.role == Business && u.businessProfile.Some?
    requires GetTransaction(u, rows, pk).Some?
    ensures GetTransaction(u, rows, pk).value.business == u.businessProfile.value
  {
    var r := GetTransaction(u, rows, pk).value;
    assert r in RoleScope(u, rows, (x: TxRow) => x.customer, (x: TxRow) => x.business).value;
  }

  /** `reject`: the same guards as `approve`, and the same dead ownership
      check; the owner rejects the transaction, and no points move. */
  method RejectTransaction(u: User, rows: seq<TxRow>, pk: int, t: Transaction) returns (st: Status)
    requires IsRowOf(t, rows, pk)
    modifies t
    ensures unchanged(t.loyalty)
    ensures u.role == Business ==> st != Forbidden
    ensures u.role != Business ==> st == Forbidden && unchanged(t)
    ensures u.role == Business && u.businessProfile.None? ==> st == ServerError && unchanged(t)
    ensures u.role == Business && u.businessProfile.Some? && GetTransaction(u, rows, pk).None? ==>
              st == NotFound && unchanged(t)
    ensures u.role == Business && u.businessProfile.Some? && GetTransaction(u, rows, pk).Some? ==>
              st == Ok && t.business == u.businessProfile.value
              && t.status == TxRejected && t.pointsEarned == old(t.pointsEarned)
  {
    if u.role != Business {
      return Forbidden;
    }
    if u.businessProfile.None? {
      return ServerError;
    }
    var found := GetTransaction(u, rows, pk);
    if found.None? {
      return NotFound;
    }
    OwnRowFound(u, rows, pk);
    t.Reject();
    return Ok;
  }

  // ---- Python's int() of the `code` query parameter ----

  /** Digits, with single underscores allowed between two digits. */
  predicate Numeral(s: string)
  {
    |s| > 0 && IsDigit(s[0]) && IsDigit(s[|s| - 1])
    && (forall i :: 0 <= i < |s| ==> IsDigit(s[i]) || s[i] == '_')
    && (forall i :: 0 <= i < |s| - 1 ==> SingleUnderscoreAt(s, i))
  }

  /** An underscore at `i` is not followed by another. */
  predicate SingleUnderscoreAt(s: string, i: int)
    requires 0 <= i < |s| - 1
  {
    s[i] == '_' ==> s[i + 1] != '_'
  }

  /** The number a numeral denotes, its underscores skipped. */
  function NumeralValue(s: string): nat
  {
    if s == [] then 0
    else if IsDigit(s[|s| - 1]) then NumeralValue(s[..|s| - 1]) * 10 + (s[|s| - 1] as int - '0' as int)
    else NumeralValue(s[..|s| - 1])
  }

  /** `int(s)` for a string: surrounding whitespace stripped, an optional
      sign, then a numeral; None is the ValueError. */
  function ParseInt(s: string): (r: Option<int>)
    ensures r.Some? ==> exists i :: 0 <= i < |s| && IsDigit(s[i])
  {
    var t := StripRight(StripLeft(s));
    var sign := |t| > 0 && (t[0] == '+' || t[0] == '-');
    var body := if sign then t[1..] else t;
    if !Numeral(body) then None
    else
      assert body[0] in t;
      StrippedIsInfix(s);
      var v: int := NumeralValue(body);
      if sign && t[0] == '-' then Some(-v) else Some(v)
  }

  /** `str(n)`: the decimal spelling of an integer, with a minus sign when negative. */
  function Decimal(n: int): string
  {
    if n < 0 then "-" + NatDecimal(-n) else NatDecimal(n)
  }

  lemma {:induction false} NatDecimalValue(n: nat)
    ensures Numeral(NatDecimal(n)) && NumeralValue(NatDecimal(n)) == n
  {
    if n >= 10 {
      NatDecimalValue(n / 10);
      var s := NatDecimal(n);
      assert s[..|s| - 1] == NatDecimal(n / 10);
    }
  }

  /** Every integer's decimal spelling parses back to that integer. */
  lemma ParseDecimal(n: int)
    ensures ParseInt(Decimal(n)) == Some(n)
  {
    if n < 0 {
      var m: nat := -n;
      var d := NatDecimal(m);
      assert Decimal(n) == "-" + d;
      NatDecimalValue(m);
      assert NumeralValue(d) == m;
      ParseNegativeNumeral(d);
    } else {
      var d := NatDecimal(n);
      assert Decimal(n) == d;
      NatDecimalValue(n);
      ParseNumeral(d);
    }
  }

  /** A bare numeral parses to its value. */
  lemma ParseNumeral(d: string)
    requires Numeral(d)
    ensures ParseInt(d) == Some(NumeralValue(d) as int)
  {
    assert StripLeft(d) == d;
    assert StripRight(d) == d;
  }

  /** A minus sign and a numeral parse to the negated value. */
  lemma ParseNegativeNumeral(d: string)
    requires Numeral(d)
    ensures ParseInt("-" + d) == Some(-(NumeralValue(d) as int))
  {
    var s := "-" + d;
    assert s[1..] == d && s[|s| - 1] == d[|d| - 1];
    assert StripLeft(s) == s;
    assert StripRight(s) == s;
  }

  // ---- get_business_by_code ----

  /** The columns of a business profile the projection reads. */
  datatype BusinessProfile = BusinessProfile(id: int, uniqueCode: int, name: Option<string>, description: Option<string>)

  /** `elite_gift_description`: a value-of-gift line for a non-zero amount,
      else a count line for a non-zero count, else the gift text itself. */
  datatype GiftDescription = AmountLine(amount: real) | CountLine(count: int) | GiftLine(gift: string)

  function DescribeGift(g: EliteGift): (r: GiftDescription)
    ensures r.AmountLine? <==> TruthyReal(g.amount)
    ensures r.CountLine? <==> !TruthyReal(g.amount) && TruthyInt(g.count)
    ensures r.GiftLine? <==> !TruthyReal(g.amount) && !TruthyInt(g.count)
    ensures r.AmountLine? ==> Some(r.amount) == g.amount
    ensures r.CountLine? ==> Some(r.count) == g.count
    ensures r.GiftLine? ==> r.gift == g.gift
  {
    if g.amount.Some? && g.amount.value != 0.0 then AmountLine(g.amount.value)
    else if g.count.Some? && g.count.value != 0 then CountLine(g.count.value)
    else GiftLine(g.gift)
  }

  /** An accepted gift (one EliteGift.clean lets through) is never described
      by its text alone. */
  lemma CleanGiftHasFigure(g: EliteGift)
    requires CleanEliteGift(g)
    ensures !DescribeGift(g).GiftLine?
  {
  }

  /** The loyalty columns the projection reads. */
  datatype Ledger = Ledger(points: int, vipStatus: VipStatus, targetReached: bool, used: bool)

  function LedgerOf(l: CustomerLoyalty): Ledger
    reads l
  {
    Ledger(l.points, l.vipStatus, l.eliteGiftTargetReached, l.eliteGiftUsed)
  }

  /** The response body (the logo is not modelled). */
  datatype BusinessInfo = BusinessInfo(
    businessId: int,
    businessName: Option<string>,
    businessDescription: string,
    hasActivePackage: bool,
    discountAllPercentage: Option<real>,
    hasSpecificDiscount: bool,
    specificDiscountTitle: Option<string>,
    specificDiscountPercentage: Option<real>,
    hasEliteGift: bool,
    eliteGiftTitle: Option<string>,
    eliteGiftDescription: Option<GiftDescription>,
    customerPoints: int,
    customerVipStatus: VipStatus,
    eliteGiftTargetReached: bool,
    eliteGiftUsed: bool,
    canUseEliteGift: bool,
    canUseVip: bool,
    canUseVipPlus: bool)

  /** The `data` dictionary: business and ledger columns, the derived
      `can_use_*` flags, and each package field filled only when there is an
      active package and it has that sub-entity. */
  function Project(b: BusinessProfile, pkg: Option<Package>, l: Ledger): (i: BusinessInfo)
    ensures i.businessId == b.id && i.businessName == b.name
    ensures i.businessDescription == (if b.description.Some? then b.description.value else "")
    ensures i.hasActivePackage <==> pkg.Some?
    ensures i.customerPoints == l.points && i.customerVipStatus == l.vipStatus
    ensures i.eliteGiftTargetReached == l.targetReached && i.eliteGiftUsed == l.used
    ensures i.canUseEliteGift <==> l.targetReached && !l.used
    ensures i.canUseVip <==> l.vipStatus == Vip || l.vipStatus == VipPlus
    ensures i.canUseVipPlus <==> l.vipStatus == VipPlus
    ensures i.discountAllPercentage.Some? <==> pkg.Some? && pkg.value.discountAll.Some?
    ensures i.discountAllPercentage.Some? ==> i.discountAllPercentage.value == pkg.value.discountAll.value.percentage
    ensures i.hasSpecificDiscount <==> pkg.Some? && pkg.value.specificDiscount.Some?
    ensures !i.hasSpecificDiscount ==> i.specificDiscountTitle.None? && i.specificDiscountPercentage.None?
    ensures i.hasSpecificDiscount ==>
              i.specificDiscountTitle == pkg.value.specificDiscount.value.title
              && i.specificDiscountPercentage == Some(pkg.value.specificDiscount.value.percentage)
    ensures i.hasEliteGift <==> pkg.Some? && pkg.value.eliteGift.Some?
    ensures !i.hasEliteGift ==> i.eliteGiftTitle.None? && i.eliteGiftDescription.None?
    ensures i.hasEliteGift ==>
              i.eliteGiftTitle == Some(pkg.value.eliteGift.value.gift)
              && i.eliteGiftDescription == Some(DescribeGift(pkg.value.eliteGift.value))
  {
    var all := if pkg.Some? then pkg.value.discountAll else None;
    var specific := if pkg.Some? then pkg.value.specificDiscount else None;
    var gift := if pkg.Some? then pkg.value.eliteGift else None;
    BusinessInfo(
      b.id, b.name, GetOr(b.description, ""),
      pkg.Some?,
      if all.Some? then Some(all.value.percentage) else None,
      specific.Some?,
      if specific.Some? then specific.value.title else None,
      if specific.Some? then Some(specific.value.percentage) else None,
      gift.Some?,
      if gift.Some? then Some(gift.value.gift) else None,
      if gift.Some? then Some(DescribeGift(gift.value)) else None,
      l.points, l.vipStatus, l.targetReached, l.used,
      l.targetReached && !l.used,
      l.vipStatus == Vip || l.vipStatus == VipPlus,
      l.vipStatus == VipPlus)
  }

  /** For a consistent loyalty row the VIP flags follow the balance alone:
      VIP access from 3000 points, VIP+ from 7000, VIP+ implying VIP. */
  lemma FlagsFollowBalance(b: BusinessProfile, pkg: Option<Package>, l: Ledger)
    requires l.vipStatus == VipFor(l.points)
    ensures Project(b, pkg, l).canUseVip <==> l.points >= VipPoints
    ensures Project(b, pkg, l).canUseVipPlus <==> l.points >= VipPlusPoints
    ensures Project(b, pkg, l).canUseVipPlus ==> Project(b, pkg, l).canUseVip
  {
  }

  /** The profiles whose `unique_code` equals `code`. */
  function WithCode(businesses: seq<BusinessProfile>, code: int): (r: seq<BusinessProfile>)
    ensures forall b :: b in r <==> b in businesses && b.uniqueCode == code
  {
    Filter(businesses, (b: BusinessProfile) => b.uniqueCode == code)
  }

  /** `get_business_by_code`. Only customers (403); a missing or empty
      code, or one `int()` refuses, is a 400; no profile with the code is a
      404 (more than one makes `get` raise); a customer account without a
      profile raises. Otherwise the caller's loyalty row with the business
      is fetched or created and the projection is returned. Every refusal
      leaves the loyalty table as it was. */
  method GetBusinessByCode(u: User, code: Option<string>, businesses: seq<BusinessProfile>,
                           packages: seq<Package>, table: LoyaltyTable)
    returns (st: Status, info: Option<BusinessInfo>)
    requires table.Valid()
    modifies table
    ensures table.Valid()
    ensures st != Ok ==> info.None? && table.rows == old(table.rows)
    ensures u.role != Customer ==> st == Forbidden
    ensures u.role == Customer && (code.None? || code.value == "") ==> st == BadRequest
    ensures u.role == Customer && code.Some? && code.value != "" && ParseInt(code.value).None? ==> st == BadRequest
    ensures u.role == Customer && code.Some? && code.value != "" && ParseInt(code.value).Some? ==>
              var found := WithCode(businesses, ParseInt(code.value).value);
              (|found| == 0 ==> st == NotFound)
              && (|found| > 1 ==> st == ServerError)
              && (|found| == 1 && u.customerProfile.None? ==> st == ServerError)
              && (|found| == 1 && u.customerProfile.Some? ==>
                    var key := (u.customerProfile.value, found[0].id);
                    st == Ok && key in table.rows
                    && table.rows.Keys == old(table.rows.Keys) + {key}
                    && (key in old(table.rows) ==> table.rows == old(table.rows))
                    && info == Some(Project(found[0], ActivePackageOf(packages, found[0].id), LedgerOf(table.rows[key]))))
  {
    if u.role != Customer {
      return Forbidden, None;
    }
    if code.None? || code.value == "" {
      return BadRequest, None;
    }
    var n := ParseInt(code.value);
    if n.None? {
      return BadRequest, None;
    }
    var found := WithCode(businesses, n.value);
    if |found| == 0 {
      return NotFound, None;
    }
    if |found| > 1 {
      return ServerError, None;
    }
    var business := found[0];
    var pkg := ActivePackageOf(packages, business.id);
    if u.customerProfile.None? {
      return ServerError, None;
    }
    var loyalty, _ := table.GetOrCreate(u.customerProfile.value, business.id);
    st, info := Ok, Some(Project(business, pkg, LedgerOf(loyalty)));
  }
}
