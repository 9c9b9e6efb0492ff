/** frontend/src/components/scanner/InvoicePaymentModal.tsx: the invoice
    form a customer fills in after scanning a business code. The amount
    fields keep formatted text; `parseNumber` reads it back; effects derive
    the after-discount amounts; submit refuses empty amounts before any
    request. */
module InvoicePaymentModal {
  import opened Common

  /** `str.replace(/,/g, '')`. */
  function StripCommas(s: string): (r: string)
    ensures ',' !in r
    ensures forall c :: c in r ==> c in s
    ensures ',' !in s ==> r == s
  {
    if s == [] then []
    else
      var init := s[..|s| - 1];
      assert s == init + [s[|s| - 1]];
      StripCommas(init) + (if s[|s| - 1] == ',' then [] else [s[|s| - 1]])
  }

  lemma {:induction false} StripCommasAppend(a: string, b: string)
    ensures StripCommas(a + b) == StripCommas(a) + StripCommas(b)
  {
    if b == [] {
      assert a + b == a;
    } else {
      assert (a + b)[..|a + b| - 1] == a + b[..|b| - 1];
      assert (a + b)[|a + b| - 1] == b[|b| - 1];
      StripCommasAppend(a, b[..|b| - 1]);
    }
  }

  /** The white space `parseInt` skips (ASCII only here). */
  predicate JsSpace(c: char)
  {
    c == ' ' || '\t' <= c <= '\r'
  }

  predicate AllDigits(s: string)
  {
    forall i :: 0 <= i < |s| ==> IsDigit(s[i])
  }

  /** The longest prefix of ASCII digits. */
  function LeadingDigits(s: string): (r: string)
    ensures |r| <= |s| && r == s[..|r|]
    ensures AllDigits(r)
    ensures |r| < |s| ==> !IsDigit(s[|r|])
  {
    if s == [] || !IsDigit(s[0]) then []
    else [s[0]] + LeadingDigits(s[1..])
  }

  /** The number an all-digit string spells. */
  function DigitsValue(s: string): nat
    requires AllDigits(s)
  {
    if s == [] then 0 else DigitsValue(s[..|s| - 1]) * 10 + (s[|s| - 1] as int - '0' as int)
  }

  lemma {:induction false} DecimalDigitsValue(n: nat)
    ensures AllDigits(NatDecimal(n)) && DigitsValue(NatDecimal(n)) == n
  {
    if n >= 10 {
      DecimalDigitsValue(n / 10);
      var s := NatDecimal(n);
      assert s[..|s| - 1] == NatDecimal(n / 10);
    }
  }

  function SkipSpace(s: string): (t: string)
    ensures |t| <= |s| && t == s[|s| - |t|..]
    ensures t == [] || !JsSpace(t[0])
  {
    if s != [] && JsSpace(s[0]) then SkipSpace(s[1..]) else s
  }

  /** JavaScript `parseInt(s)` in base ten: leading white space skipped, an
      optional sign, then as many digits as follow; None is NaN. */
  function JsParseInt(s: string): (r: Option<int>)
    ensures r.None? <==>
              var t := SkipSpace(s);
              var body := if |t| > 0 && (t[0] == '+' || t[0] == '-') then t[1..] else t;
              body == [] || !IsDigit(body[0])
  {
    var t := SkipSpace(s);
    var negative := |t| > 0 && t[0] == '-';
    var body := if |t| > 0 && (t[0] == '+' || t[0] == '-') then t[1..] else t;
    var digits := LeadingDigits(body);
    var v: int := if digits == [] then 0 else DigitsValue(digits);
    if digits == [] then None
    else if negative then Some(-v)
    else Some(v)
  }

  /** `parseNumber`: commas removed, then `parseInt(...) || 0`, so NaN (and
      zero) give 0. */
  function ParseNumber(s: string): (n: int)
    ensures n != 0 ==> JsParseInt(StripCommas(s)) == Some(n)
    ensures JsParseInt(StripCommas(s)).Some? ==> n == JsParseInt(StripCommas(s)).value
  {
    var t := StripCommas(s);
    var p := JsParseInt(t);
    if p.Some? && p.value != 0 then p.value else 0
  }

  /** A string without digits, or one `parseInt` refuses once the commas
      are dropped, reads as 0. */
  lemma ParseNumberZero(s: string)
    ensures (forall c :: c in s ==> !IsDigit(c)) ==> ParseNumber(s) == 0
    ensures JsParseInt(StripCommas(s)).None? ==> ParseNumber(s) == 0
  {
    var t := StripCommas(s);
    var p := JsParseInt(t);
    if p.Some? && p.value != 0 {
      var u := SkipSpace(t);
      var body := if |u| > 0 && (u[0] == '+' || u[0] == '-') then u[1..] else u;
      assert LeadingDigits(body)[0] in t;
    }
  }

  lemma NoCommaAmongDigits(s: string)
    requires AllDigits(s)
    ensures ',' !in s
  {
    assert forall i :: 0 <= i < |s| ==> s[i] != ',';
  }

  lemma {:induction false} LeadingDigitsOfDigits(s: string)
    requires AllDigits(s)
    ensures LeadingDigits(s) == s
  {
    if s != [] {
      LeadingDigitsOfDigits(s[1..]);
    }
  }

  /** A non-empty string of digits parses to the number it spells. */
  lemma DigitsParse(s: string)
    requires s != [] && AllDigits(s)
    ensures JsParseInt(s) == Some(DigitsValue(s))
  {
    assert IsDigit(s[0]) && !JsSpace(s[0]) && s[0] != '+' && s[0] != '-';
    assert SkipSpace(s) == s;
    LeadingDigitsOfDigits(s);
  }

  /** A plain decimal spelling reads back as its number. */
  lemma ParseNumberDecimal(n: nat)
    ensures ParseNumber(NatDecimal(n)) == n
  {
    var s := NatDecimal(n);
    DecimalDigitsValue(n);
    NoCommaAmongDigits(s);
    assert StripCommas(s) == s;
    DigitsParse(s);
  }

  // ---- what the amount fields hold ----

  /** A Persian digit (U+06F0 to U+06F9) for an ASCII digit. */
  function PersianDigit(c: char): (p: char)
    requires IsDigit(c)
    ensures 0x06F0 <= p as int <= 0x06F9
  {
    (c as int - '0' as int + 0x06F0) as char
  }

  /** `formatNumber` as written: `parseInt` of the digits, then
      `toLocaleString('fa-IR')`, which spells the number in Persian digits
      (the grouping marks are not modelled). */
  function FormatFa(digits: string): (r: string)
    requires digits != [] && AllDigits(digits)
    ensures r != [] && forall i :: 0 <= i < |r| ==> 0x06F0 <= r[i] as int <= 0x06F9
  {
    var d := NatDecimal(DigitsValue(digits));
    seq(|d|, i requires 0 <= i < |d| => PersianDigit(d[i]))
  }

  /** Digits grouped by threes with commas, as an 'en-US' formatting of the
      same number would spell them. */
  function Grouped(d: string): (r: string)
    ensures StripCommas(r) == StripCommas(d)
    decreases |d|
  {
    if |d| <= 3 then d
    else
      var head := d[..|d| - 3];
      var tail := d[|d| - 3..];
      assert d == head + tail;
      StripCommasAppend(head, tail);
      StripCommasAppend(Grouped(head) + [','], tail);
      StripCommasAppend(Grouped(head), [',']);
      Grouped(head) + [','] + tail
  }

  /** The corrected `formatNumber`: the number's decimal spelling grouped
      with commas, which `parseNumber` strips. */
  function FormatGrouped(digits: string): (r: string)
    requires digits != [] && AllDigits(digits)
    ensures ParseNumber(r) == DigitsValue(digits)
  {
    var d := NatDecimal(DigitsValue(digits));
    ParseNumberDecimal(DigitsValue(digits));
    NoCommaAmongDigits(d);
    Grouped(d)
  }

  /** The Persian spelling never parses: whatever amount is typed, the field
      reads back as 0. */
  lemma FormatFaReadsZero(digits: string)
    requires digits != [] && AllDigits(digits)
    ensures ParseNumber(FormatFa(digits)) == 0
  {
    var r := FormatFa(digits);
    assert forall c :: c in r ==> !IsDigit(c) by {
      forall c | c in r
        ensures !IsDigit(c)
      {
        var i :| 0 <= i < |r| && r[i] == c;
      }
    }
    ParseNumberZero(r);
  }

  /** `handleMainAmountChange`/`handleSpecialAmountChange`: the typed text
      without commas is taken only when it is all digits; empty clears the
      field, anything else is formatted. */
  function AcceptTyped(current: string, typed: string, fa: bool): (r: string)
    ensures !AllDigits(StripCommas(typed)) ==> r == current
    ensures StripCommas(typed) == [] ==> r == []
    ensures AllDigits(StripCommas(typed)) && StripCommas(typed) != [] ==>
              r == (if fa then FormatFa(StripCommas(typed)) else FormatGrouped(StripCommas(typed)))
  {
    var v := StripCommas(typed);
    if !AllDigits(v) then current
    else if v == [] then []
    else if fa then FormatFa(v) else FormatGrouped(v)
  }

  /** The after-discount effect for one field: the amount less its
      percentage when the amount is positive and the percentage truthy,
      else the amount itself. */
  function AfterDiscount(amount: int, pct: Option<real>): (r: real)
    ensures !(amount > 0 && TruthyReal(pct)) ==> r == amount as real
    ensures amount > 0 && TruthyReal(pct) ==> r * 100.0 == amount as real * (100.0 - pct.value)
    ensures amount > 0 && TruthyReal(pct) && 0.0 < pct.value <= 100.0 ==> 0.0 <= r < amount as real
  {
    if amount > 0 && TruthyReal(pct) then
      var discount := (amount as real * pct.value) / 100.0;
      amount as real - discount
    else amount as real
  }

  /** A non-negative amount less a percentage within [0, 100] lies between
      0 and the amount. */
  lemma DiscountWithinAmount(amount: int, pct: Option<real>)
    requires amount >= 0
    requires pct.Some? ==> 0.0 <= pct.value <= 100.0
    ensures 0.0 <= AfterDiscount(amount, pct) <= amount as real
  {
  }

  /** The transaction the form posts. */
  datatype InvoicePayload = InvoicePayload(
    business: int,
    originalAmount: int,
    hasSpecialDiscount: bool,
    specialDiscountTitle: Option<string>,
    specialDiscountOriginalAmount: Option<int>)

  datatype SubmitOutcome = MissingMainAmount | MissingSpecialAmount | Post(payload: InvoicePayload)

  /** `handleSubmit`: no request while the main amount reads as at most 0,
      or while the special discount is on and its amount reads as at most 0.
      The title is sent only with the special discount and only when it is
      not empty. */
  function Submit(business: int, specificTitle: Option<string>, mainAmount: string,
                  hasSpecial: bool, specialAmount: string): (r: SubmitOutcome)
    ensures r == MissingMainAmount <==> ParseNumber(mainAmount) <= 0
    ensures r == MissingSpecialAmount <==>
              ParseNumber(mainAmount) > 0 && hasSpecial && ParseNumber(specialAmount) <= 0
    ensures r.Post? ==>
              r.payload.business == business
              && r.payload.originalAmount == ParseNumber(mainAmount) > 0
              && r.payload.hasSpecialDiscount == hasSpecial
              && (hasSpecial ==> r.payload.specialDiscountOriginalAmount == Some(ParseNumber(specialAmount))
                                 && ParseNumber(specialAmount) > 0)
              && (r.payload.specialDiscountTitle.Some? <==>
                    hasSpecial && specificTitle.Some? && specificTitle.value != "")
              && (r.payload.specialDiscountTitle.Some? ==> r.payload.specialDiscountTitle == specificTitle)
              && (!hasSpecial ==> r.payload.specialDiscountOriginalAmount.None?)
  {
    var main := ParseNumber(mainAmount);
    if main <= 0 then MissingMainAmount
    else if hasSpecial && ParseNumber(specialAmount) <= 0 then MissingSpecialAmount
    else
      var title := if hasSpecial && specificTitle.Some? && specificTitle.value != "" then specificTitle else None;
      var special := if hasSpecial then Some(ParseNumber(specialAmount)) else None;
      Post(InvoicePayload(business, main, hasSpecial, title, special))
  }

  /** As written, every amount typed into the empty main field reads back
      as 0, so submitting is always refused. */
  lemma TypedAmountNeverSubmits(business: int, title: Option<string>, typed: string, hasSpecial: bool, special: string)
    requires AllDigits(StripCommas(typed))
    ensures Submit(business, title, AcceptTyped([], typed, true), hasSpecial, special) == MissingMainAmount
  {
    var v := StripCommas(typed);
    if v != [] {
      FormatFaReadsZero(v);
    }
  }

  /** With the corrected formatting the field reads back as the number
      typed, so a positive amount is submitted as that amount. */
  lemma TypedAmountSubmits(business: int, typed: string)
    requires AllDigits(StripCommas(typed)) && StripCommas(typed) != []
    requires DigitsValue(StripCommas(typed)) > 0
    ensures Submit(business, None, AcceptTyped([], typed, false), false, []) ==
              Post(InvoicePayload(business, DigitsValue(StripCommas(typed)), false, None, None))
  {
  }

  /** The form state. `fa` selects the as-written (Persian) formatting of
      the amount fields, or the corrected one. */
  class InvoiceForm {
    const fa: bool
    const business: int
    const discountAllPercentage: Option<real>
    const specificDiscountPercentage: Option<real>
    const specificDiscountTitle: Option<string>
    var mainAmount: string
    var mainAmountAfterDiscount: real
    var hasSpecialDiscount: bool
    var specialAmount: string
    var specialAmountAfterDiscount: real

    /** The effects have run: each after-discount amount matches its field. */
    ghost predicate Valid()
      reads this
    {
      mainAmountAfterDiscount == AfterDiscount(ParseNumber(mainAmount), discountAllPercentage)
      && specialAmountAfterDiscount == AfterDiscount(ParseNumber(specialAmount), specificDiscountPercentage)
    }

    constructor(fa: bool, business: int, pctAll: Option<real>, pctSpecific: Option<real>, title: Option<string>)
      ensures Valid()
      ensures this.fa == fa && this.business == business
      ensures discountAllPercentage == pctAll && specificDiscountPercentage == pctSpecific
      ensures specificDiscountTitle == title
      ensures mainAmount == [] && specialAmount == [] && !hasSpecialDiscount
    {
      this.fa := fa;
      this.business := business;
      discountAllPercentage := pctAll;
      specificDiscountPercentage := pctSpecific;
      specificDiscountTitle := title;
      mainAmount := [];
      mainAmountAfterDiscount := 0.0;
      hasSpecialDiscount := false;
      specialAmount := [];
      specialAmountAfterDiscount := 0.0;
      assert ParseNumber([]) == 0;
    }

    /** Lines 64-65: the totals, with the special amounts only while the
        special discount is on. */
    function TotalBeforeDiscount(): (t: int)
      reads this
      ensures !hasSpecialDiscount ==> t == ParseNumber(mainAmount)
      ensures hasSpecialDiscount ==> t == ParseNumber(mainAmount) + ParseNumber(specialAmount)
    {
      ParseNumber(mainAmount) + (if hasSpecialDiscount then ParseNumber(specialAmount) else 0)
    }

    function TotalAfterDiscount(): (t: real)
      reads this
      ensures !hasSpecialDiscount ==> t == mainAmountAfterDiscount
      ensures hasSpecialDiscount ==> t == mainAmountAfterDiscount + specialAmountAfterDiscount
    {
      mainAmountAfterDiscount + (if hasSpecialDiscount then specialAmountAfterDiscount else 0.0)
    }

    /** The discounted total of the summary never exceeds the total, and
        the blanket discount makes it strictly smaller for a positive main
        amount. */
    lemma TotalAfterWithinBefore()
      requires Valid()
      requires ParseNumber(mainAmount) >= 0 && ParseNumber(specialAmount) >= 0
      requires discountAllPercentage.Some? ==> 0.0 <= discountAllPercentage.value <= 100.0
      requires specificDiscountPercentage.Some? ==> 0.0 <= specificDiscountPercentage.value <= 100.0
      ensures 0.0 <= TotalAfterDiscount() <= TotalBeforeDiscount() as real
      ensures ParseNumber(mainAmount) > 0 && TruthyReal(discountAllPercentage) ==>
                TotalAfterDiscount() < TotalBeforeDiscount() as real
    {
      DiscountWithinAmount(ParseNumber(mainAmount), discountAllPercentage);
      DiscountWithinAmount(ParseNumber(specialAmount), specificDiscountPercentage);
    }

    /** Typing into the main field, then its effect. */
    method ChangeMainAmount(typed: string)
      requires Valid()
      modifies this`mainAmount, this`mainAmountAfterDiscount
      ensures Valid()
      ensures mainAmount == AcceptTyped(old(mainAmount), typed, fa)
    {
      mainAmount := AcceptTyped(mainAmount, typed, fa);
      mainAmountAfterDiscount := AfterDiscount(ParseNumber(mainAmount), discountAllPercentage);
    }

    /** Typing into the special field, then its effect. */
    method ChangeSpecialAmount(typed: string)
      requires Valid()
      modifies this`specialAmount, this`specialAmountAfterDiscount
      ensures Valid()
      ensures specialAmount == AcceptTyped(old(specialAmount), typed, fa)
    {
      specialAmount := AcceptTyped(specialAmount, typed, fa);
      specialAmountAfterDiscount := AfterDiscount(ParseNumber(specialAmount), specificDiscountPercentage);
    }

    method ToggleSpecialDiscount()
      requires Valid()
      modifies this`hasSpecialDiscount
      ensures Valid()
      ensures hasSpecialDiscount == !old(hasSpecialDiscount)
    {
      hasSpecialDiscount := !hasSpecialDiscount;
    }

    /** The decision of `handleSubmit` on the current state. */
    method HandleSubmit() returns (r: SubmitOutcome)
      ensures r == Submit(business, specificDiscountTitle, mainAmount, hasSpecialDiscount, specialAmount)
    {
      r := Submit(business, specificDiscountTitle, mainAmount, hasSpecialDiscount, specialAmount);
    }
  }
}
