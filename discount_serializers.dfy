/** backend/discounts/serializers.py: the computed fields of a discount
    (average and number of scores, whether it is running, the share of its
    window still ahead, the caller's own score and comment) and the date
    validators of the update and create serializers. `now` is a parameter. */
module DiscountSerializers {
  import opened Common
  import opened DiscountModels

  function Sum(xs: seq<int>): int
  {
    if xs == [] then 0 else Sum(xs[..|xs| - 1]) + xs[|xs| - 1]
  }

  /** The score values of discount `d`, as `obj.scores.all()` yields them. */
  function ScoresOf(scores: seq<DiscountScore>, d: int): (r: seq<int>)
    ensures |r| == CountWhere(scores, (s: DiscountScore) => s.discount == d)
    ensures forall s :: s in scores && s.discount == d ==> s.score in r
    ensures forall x :: x in r ==> exists s :: s in scores && s.discount == d && s.score == x
  {
    if scores == [] then []
    else
      var init := scores[..|scores| - 1];
      var last := scores[|scores| - 1];
      assert forall s :: s in scores ==> s in init || s == last;
      ScoresOf(init, d) + (if last.discount == d then [last.score] else [])
  }

  /** `get_average_score`: 0 without scores, else their mean (the rounding
      to one decimal is not modelled). */
  function AverageScore(xs: seq<int>): (avg: real)
    ensures |xs| == 0 ==> avg == 0.0
    ensures |xs| > 0 ==> avg * (|xs| as real) == Sum(xs) as real
  {
    if |xs| == 0 then 0.0 else Sum(xs) as real / |xs| as real
  }

  /** Scores within the 1 to 5 validators sum to between once and five
      times their number. */
  lemma {:induction false} SumBounds(xs: seq<int>)
    requires forall x :: x in xs ==> ValidScore(x)
    ensures |xs| <= Sum(xs) <= 5 * |xs|
  {
    if xs != [] {
      var init := xs[..|xs| - 1];
      assert forall x :: x in init ==> x in xs;
      SumBounds(init);
      assert xs[|xs| - 1] in xs;
    }
  }

  /** Scores within the 1 to 5 validators average between 1 and 5. */
  lemma AverageWithinScoreRange(xs: seq<int>)
    requires |xs| > 0
    requires forall x :: x in xs ==> ValidScore(x)
    ensures 1.0 <= AverageScore(xs) <= 5.0
  {
    SumBounds(xs);
    MeanWithinOneToFive(Sum(xs) as real, |xs| as real);
  }

  /** `get_is_active`: the window contains `now` and the discount is not deleted. */
  predicate IsActive(d: Discount, now: int)
  {
    d.startDate <= now <= d.endDate && !d.isDeleted
  }

  /** `get_time_remaining`: the percentage of the window still ahead of
      `now`, clamped to [0, 100]; 0 once the window has ended or when it is
      empty. */
  function TimeRemaining(d: Discount, now: int): (r: real)
    ensures 0.0 <= r <= 100.0
    ensures d.endDate <= now || d.endDate <= d.startDate ==> r == 0.0
    ensures d.startDate <= now < d.endDate ==>
              r * (d.endDate - d.startDate) as real == (d.endDate - now) as real * 100.0
    ensures now < d.startDate < d.endDate ==> r == 100.0
  {
    if d.endDate <= now then 0.0
    else
      var total := (d.endDate - d.startDate) as real;
      var remaining := (d.endDate - now) as real;
      if total > 0.0 then
        var share := remaining / total * 100.0;
        ShareBounds(remaining, total);
        if now < d.startDate then 100.0 else share
      else 0.0
  }

  /** A part of a positive whole, as a percentage of it, exceeds 100 exactly
      when the part exceeds the whole. */
  lemma ShareBounds(part: real, whole: real)
    requires whole > 0.0
    ensures (part / whole * 100.0) * whole == part * 100.0
    ensures part > whole ==> part / whole * 100.0 > 100.0
    ensures part <= whole ==> part / whole * 100.0 <= 100.0
  {
    var q := part / whole;
    assert q * whole == part;
    SubProduct(1.0, q, whole);
    if part > whole {
      if q <= 1.0 {
        ProductNonNegative(1.0 - q, whole);
        assert false;
      }
    } else {
      FactorSign(1.0 - q, whole);
    }
  }

  /** `is_active` and `time_remaining` agree: a discount that is active
      before its end has time left, and one whose end has passed is neither
      active nor has any time left. */
  lemma ActiveHasTimeLeft(d: Discount, now: int)
    ensures IsActive(d, now) && now < d.endDate ==> TimeRemaining(d, now) > 0.0
    ensures d.endDate < now ==> !IsActive(d, now) && TimeRemaining(d, now) == 0.0
  {
    if IsActive(d, now) && now < d.endDate {
      var r := TimeRemaining(d, now);
      var total := (d.endDate - d.startDate) as real;
      assert r * total == (d.endDate - now) as real * 100.0;
      if r <= 0.0 {
        ProductNonNegative(-r, total);
        assert false;
      }
    }
  }

  /** The caller's score of discount `d`: None when the caller has no
      customer profile or has not scored it. */
  function UserScore(scores: seq<DiscountScore>, d: int, customer: Option<int>): (r: Option<int>)
    ensures customer.None? ==> r.None?
    ensures customer.Some? ==>
              (r.None? <==> forall s :: s in scores ==> ScoreKey(s) != (d, customer.value))
    ensures r.Some? ==> DiscountScore(d, customer.value, r.value) in scores
  {
    if customer.None? || scores == [] then None
    else if ScoreKey(scores[0]) == (d, customer.value) then Some(scores[0].score)
    else UserScore(scores[1..], d, customer)
  }

  /** With scores unique per (discount, user) the caller's score is the
      score of the caller's row. */
  lemma UserScoreIsTheRow(scores: seq<DiscountScore>, s: DiscountScore)
    requires UniqueBy(scores, ScoreKey) && s in scores
    ensures UserScore(scores, s.discount, Some(s.user)) == Some(s.score)
  {
    var r := UserScore(scores, s.discount, Some(s.user));
    assert r.Some?;
    var t := DiscountScore(s.discount, s.user, r.value);
    assert t in scores;
    var i :| 0 <= i < |scores| && scores[i] == s;
    var j :| 0 <= j < |scores| && scores[j] == t;
    assert ScoreKey(scores[i]) == ScoreKey(scores[j]);
  }

  /** The caller's comment on discount `d` that is not deleted, if any. */
  function UserComment(comments: seq<DiscountComment>, d: int, customer: Option<int>): (r: Option<string>)
    ensures customer.None? ==> r.None?
    ensures customer.Some? ==>
              (r.None? <==> forall c :: c in comments && CommentKey(c) == (d, customer.value) ==> c.isDeleted)
    ensures r.Some? ==> exists c :: c in comments && CommentKey(c) == (d, customer.value) && !c.isDeleted && c.text == r.value
  {
    if customer.None? || comments == [] then None
    else if CommentKey(comments[0]) == (d, customer.value) && !comments[0].isDeleted then Some(comments[0].text)
    else UserComment(comments[1..], d, customer)
  }

  /** `get_can_comment`: an authenticated caller with a customer profile. */
  predicate CanComment(authenticated: bool, customer: Option<int>)
  {
    authenticated && customer.Some?
  }

  /** DiscountSerializer.validate: the dates are compared only when both
      are in the payload; then the end must be strictly after the start. */
  function ValidateUpdate(startDate: Option<int>, endDate: Option<int>): (accepted: bool)
    ensures !accepted <==> startDate.Some? && endDate.Some? && endDate.value <= startDate.value
  {
    if startDate.Some? && endDate.Some? then startDate.value < endDate.value else true
  }

  /** DiscountCreateSerializer.validate: the end strictly after the start. */
  function ValidateCreate(startDate: int, endDate: int): (accepted: bool)
    ensures accepted <==> startDate < endDate
  {
    !(endDate <= startDate)
  }

  /** The serializers are stricter than Discount.clean: what they accept
      clean accepts, and an empty window passes clean but not them. */
  lemma ValidatorsStricterThanClean(d: Discount)
    ensures ValidateCreate(d.startDate, d.endDate) ==> Clean(d)
    ensures ValidateUpdate(Some(d.startDate), Some(d.endDate)) ==> Clean(d)
    ensures d.startDate == d.endDate ==>
              Clean(d) && !ValidateCreate(d.startDate, d.endDate) && !ValidateUpdate(Some(d.startDate), Some(d.endDate))
  {
  }

  /** A partial update that sends only an end date is never compared with
      the stored start, so it can leave a window that Discount.clean refuses. */
  lemma PartialUpdateSkipsDateCheck(d: Discount, newEnd: int)
    requires newEnd < d.startDate
    ensures ValidateUpdate(None, Some(newEnd))
    ensures !Clean(d.(endDate := newEnd))
  {
  }

  /** `get_total_comments` of the summary: the comments that are not deleted. */
  function TotalComments(comments: seq<DiscountComment>, d: int): (n: nat)
    ensures n + CountWhere(comments, (c: DiscountComment) => c.discount == d && c.isDeleted)
            == CountWhere(comments, (c: DiscountComment) => c.discount == d)
  {
    CountPartition(comments, (c: DiscountComment) => c.discount == d && !c.isDeleted,
                   (c: DiscountComment) => c.discount == d && c.isDeleted, (c: DiscountComment) => c.discount == d);
    CountWhere(comments, (c: DiscountComment) => c.discount == d && !c.isDeleted)
  }
}
