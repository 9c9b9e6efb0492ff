/** frontend/src/pages/business/DiscountManagement.tsx: the status badge of a
    discount and the statistics shown above a business's list of discounts.
    Dates are instants on one integer clock; `now` is a parameter. */
module DiscountManagement {
  import opened Common

  /** The fields of a listed discount the page reads: `total_scores` is a
      count and may be missing, `average_score` a number. */
  datatype ListedDiscount = ListedDiscount(startDate: int, endDate: int, totalScores: Option<nat>, averageScore: real)

  datatype Badge = Future | Expired | Active

  /** `getStatusBadge`: future before the start, expired after the end,
      active otherwise. */
  function StatusBadge(d: ListedDiscount, now: int): (b: Badge)
    ensures b == Future <==> now < d.startDate
    ensures b == Expired <==> d.startDate <= now && now > d.endDate
    ensures b == Active <==> d.startDate <= now <= d.endDate
  {
    if now < d.startDate then Future
    else if now > d.endDate then Expired
    else Active
  }

  /** The condition of `activeDiscounts`. */
  predicate CountedActive(d: ListedDiscount, now: int)
  {
    d.startDate <= now <= d.endDate
  }

  /** The condition of `expiredDiscounts`. */
  predicate CountedExpired(d: ListedDiscount, now: int)
  {
    now > d.endDate
  }

  /** The counts agree with the badges: the active count is the active
      badge, and for a discount that does not end before it starts the
      expired count is the expired badge. */
  lemma BadgeAgreesWithCounts(d: ListedDiscount, now: int)
    ensures StatusBadge(d, now) == Active <==> CountedActive(d, now)
    ensures StatusBadge(d, now) == Expired ==> CountedExpired(d, now)
    ensures d.startDate <= d.endDate ==> (StatusBadge(d, now) == Expired <==> CountedExpired(d, now))
  {
  }

  function ActiveCount(ds: seq<ListedDiscount>, now: int): nat
  {
    CountWhere(ds, (d: ListedDiscount) => CountedActive(d, now))
  }

  function ExpiredCount(ds: seq<ListedDiscount>, now: int): nat
  {
    CountWhere(ds, (d: ListedDiscount) => CountedExpired(d, now))
  }

  /** No discount is counted both active and expired, so the two counts
      together never exceed the number of discounts. */
  lemma CountsWithinTotal(ds: seq<ListedDiscount>, now: int)
    ensures ActiveCount(ds, now) + ExpiredCount(ds, now) <= |ds|
  {
    var any := (d: ListedDiscount) => true;
    CountDisjoint(ds, (d: ListedDiscount) => CountedActive(d, now), (d: ListedDiscount) => CountedExpired(d, now), any);
    AllCounted(ds, any);
  }

  lemma {:induction false} AllCounted<T>(s: seq<T>, p: T -> bool)
    requires forall x :: p(x)
    ensures CountWhere(s, p) == |s|
  {
    if s != [] {
      AllCounted(s[..|s| - 1], p);
    }
  }

  /** `d.total_scores || 0`. */
  function Votes(d: ListedDiscount): nat
  {
    if d.totalScores.Some? then d.totalScores.value else 0
  }

  /** `totalUsage`, and the `totalVotes` of `averageRating`: the votes of all
      discounts, a missing count read as 0. */
  function TotalUsage(ds: seq<ListedDiscount>): nat
  {
    if ds == [] then 0 else TotalUsage(ds[..|ds| - 1]) + Votes(ds[|ds| - 1])
  }

  /** There are votes exactly when some discount has a vote. */
  lemma {:induction false} TotalUsagePositive(ds: seq<ListedDiscount>)
    ensures TotalUsage(ds) > 0 <==> exists d :: d in ds && Votes(d) > 0
  {
    if ds != [] {
      var init := ds[..|ds| - 1];
      TotalUsagePositive(init);
      assert forall d :: d in ds <==> d in init || d == ds[|ds| - 1];
    }
  }

  /** The total over two lists is the sum of their totals. */
  lemma {:induction false} TotalUsageAppend(a: seq<ListedDiscount>, b: seq<ListedDiscount>)
    ensures TotalUsage(a + b) == TotalUsage(a) + TotalUsage(b)
    decreases |b|
  {
    if b != [] {
      var b' := b[..|b| - 1];
      assert (a + b)[..|a + b| - 1] == a + b';
      TotalUsageAppend(a, b');
    } else {
      assert a + b == a;
    }
  }

  /** `totalRatingPoints`: each average weighted by its votes. */
  function RatingPoints(ds: seq<ListedDiscount>): real
  {
    if ds == [] then 0.0 else RatingPoints(ds[..|ds| - 1]) + Weight(ds[|ds| - 1])
  }

  /** `average_score * (total_scores || 0)`. */
  function Weight(d: ListedDiscount): real
  {
    d.averageScore * Votes(d) as real
  }

  /** `averageRating`: the vote-weighted mean of the averages, or 0 when
      nobody voted. */
  function AverageRating(ds: seq<ListedDiscount>): (r: real)
    ensures TotalUsage(ds) == 0 ==> r == 0.0
    ensures TotalUsage(ds) > 0 ==> r * TotalUsage(ds) as real == RatingPoints(ds)
  {
    var votes := TotalUsage(ds);
    if votes > 0 then RatingPoints(ds) / votes as real else 0.0
  }

  /** A discount that has votes averages a score of the 1 to 5 range. */
  predicate ScoredInRange(d: ListedDiscount)
  {
    Votes(d) > 0 ==> 1.0 <= d.averageScore <= 5.0
  }

  /** The points lie between once and five times the number of votes. */
  lemma {:induction false} RatingPointsBounds(ds: seq<ListedDiscount>)
    requires forall i :: 0 <= i < |ds| ==> ScoredInRange(ds[i])
    ensures TotalUsage(ds) as real <= RatingPoints(ds) <= 5.0 * TotalUsage(ds) as real
  {
    if ds != [] {
      var init := ds[..|ds| - 1];
      var last := ds[|ds| - 1];
      assert forall i :: 0 <= i < |init| ==> init[i] == ds[i];
      RatingPointsBounds(init);
      WeightBounds(last);
    }
  }

  /** One discount's weighted average lies between once and five times its votes. */
  lemma WeightBounds(d: ListedDiscount)
    requires ScoredInRange(d)
    ensures Votes(d) as real <= Weight(d) <= 5.0 * Votes(d) as real
  {
    var v := Votes(d) as real;
    if v > 0.0 {
      ScaledWithin(d.averageScore, v);
    }
  }

  /** A score of the 1 to 5 range times a positive count. */
  lemma ScaledWithin(a: real, v: real)
    requires 1.0 <= a <= 5.0 && v > 0.0
    ensures v <= a * v <= 5.0 * v
  {
    ProductNonNegative(a - 1.0, v);
    ProductNonNegative(5.0 - a, v);
    SubProduct(a, 1.0, v);
    SubProduct(5.0, a, v);
  }

  /** With every voted discount's average in the 1 to 5 range, the overall
      rating is in that range too. */
  lemma AverageRatingInRange(ds: seq<ListedDiscount>)
    requires forall i :: 0 <= i < |ds| ==> ScoredInRange(ds[i])
    requires TotalUsage(ds) > 0
    ensures 1.0 <= AverageRating(ds) <= 5.0
  {
    RatingPointsBounds(ds);
    MeanWithinOneToFive(RatingPoints(ds), TotalUsage(ds) as real);
  }
}
