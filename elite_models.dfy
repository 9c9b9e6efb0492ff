/** backend/elite/models.py: a business's elite discount (a gift reached by
    a purchase count or a purchase amount), its scores and comments, the
    model validation and the soft deletes. Dates are integer timestamps;
    a date not yet set is None. */
module EliteModels {
  import opened Common

  datatype EliteDiscount = EliteDiscount(
    id: int,
    business: int,
    title: string,
    description: Option<string>,
    purchaseCount: Option<int>,
    purchaseAmount: Option<real>,
    giftItem: string,
    giftCount: Option<int>,
    startDate: Option<int>,
    endDate: Option<int>,
    isDeleted: bool)

  /** EliteDiscountScore: one customer's score of one elite discount. */
  datatype EliteScore = EliteScore(eliteDiscount: int, user: int, score: int)

  /** EliteDiscountComment: one customer's comment on one elite discount. */
  datatype EliteComment = EliteComment(id: int, eliteDiscount: int, user: int, comment: string, isDeleted: bool)

  /** The two refusals of EliteDiscount.clean, in the order it checks them. */
  datatype CleanError = EndBeforeStart | NoPurchaseCondition

  /** EliteDiscount.clean: the dates are compared only when both are set
      (then the end may not precede the start); then at least one of the
      purchase count and the purchase amount must be truthy (a zero counts
      as missing). None means accepted. */
  function Clean(d: EliteDiscount): (r: Option<CleanError>)
    ensures r == Some(EndBeforeStart) <==>
              d.startDate.Some? && d.endDate.Some? && d.endDate.value < d.startDate.value
    ensures r == Some(NoPurchaseCondition) <==>
              !(d.startDate.Some? && d.endDate.Some? && d.endDate.value < d.startDate.value)
              && !TruthyInt(d.purchaseCount) && !TruthyReal(d.purchaseAmount)
    ensures r.None? <==>
              (d.startDate.Some? && d.endDate.Some? ==> d.startDate.value <= d.endDate.value)
              && (TruthyInt(d.purchaseCount) || TruthyReal(d.purchaseAmount))
  {
    if d.endDate.Some? && d.startDate.Some? && d.endDate.value < d.startDate.value then Some(EndBeforeStart)
    else if !TruthyInt(d.purchaseCount) && !TruthyReal(d.purchaseAmount) then Some(NoPurchaseCondition)
    else None
  }

  /** A missing date never causes a date refusal, and equal dates are
      accepted: only an end strictly before a start is refused. */
  lemma CleanDateRule(d: EliteDiscount)
    requires TruthyInt(d.purchaseCount)
    ensures d.startDate.None? || d.endDate.None? ==> Clean(d).None?
    ensures d.startDate.Some? && d.startDate == d.endDate ==> Clean(d).None?
  {
  }

  /** Either purchase condition alone satisfies the second check. */
  lemma EitherConditionSuffices(d: EliteDiscount, count: int, amount: real)
    requires d.startDate.None?
    requires count != 0 && amount != 0.0
    ensures Clean(d.(purchaseCount := Some(count), purchaseAmount := None)).None?
    ensures Clean(d.(purchaseCount := None, purchaseAmount := Some(amount))).None?
    ensures Clean(d.(purchaseCount := Some(0), purchaseAmount := Some(0.0))) == Some(NoPurchaseCondition)
  {
  }

  /** The score validators: 1 to 5. */
  predicate ValidScore(s: int)
  {
    1 <= s <= 5
  }

  function EliteId(d: EliteDiscount): int
  {
    d.id
  }

  /** The (elite discount, user) pair a score is unique on. */
  function ScoreKey(s: EliteScore): (int, int)
  {
    (s.eliteDiscount, s.user)
  }

  /** The (elite discount, user) pair a comment is unique on, deleted or not. */
  function CommentKey(c: EliteComment): (int, int)
  {
    (c.eliteDiscount, c.user)
  }

  /** The elite discount tables. */
  class EliteDb {
    var discounts: seq<EliteDiscount>
    var scores: seq<EliteScore>
    var comments: seq<EliteComment>

    /** The declared constraints: primary keys, the two `unique_together`
        pairs and the score range. */
    ghost predicate Valid()
      reads this
    {
      UniqueBy(discounts, EliteId)
      && UniqueBy(scores, ScoreKey)
      && UniqueBy(comments, CommentKey)
      && (forall s :: s in scores ==> ValidScore(s.score))
    }

    constructor()
      ensures Valid()
      ensures discounts == [] && scores == [] && comments == []
    {
      discounts := [];
      scores := [];
      comments := [];
    }

    /** EliteDiscount.delete: the row is kept and marked deleted. */
    method DeleteDiscount(i: nat)
      requires Valid() && i < |discounts|
      modifies this`discounts
      ensures Valid()
      ensures discounts == old(discounts)[i := old(discounts)[i].(isDeleted := true)]
    {
      discounts := discounts[i := discounts[i].(isDeleted := true)];
      assert forall k :: 0 <= k < |discounts| ==> EliteId(discounts[k]) == EliteId(old(discounts)[k]);
    }

    /** EliteDiscountComment.delete: the same soft delete for a comment. */
    method DeleteComment(i: nat)
      requires Valid() && i < |comments|
      modifies this`comments
      ensures Valid()
      ensures comments == old(comments)[i := old(comments)[i].(isDeleted := true)]
    {
      comments := comments[i := comments[i].(isDeleted := true)];
      assert forall k :: 0 <= k < |comments| ==> CommentKey(comments[k]) == CommentKey(old(comments)[k]);
    }

    /** Inserting a score row: refused when the pair already has one (an
        integrity error) or when the score is outside 1 to 5 (a validation
        error of the field's validators, which run on `full_clean` or in a
        serializer, not on a bare insert). */
    method AddScore(s: EliteScore) returns (stored: bool)
      requires Valid()
      modifies this`scores
      ensures Valid()
      ensures stored <==> ValidScore(s.score) && forall x :: x in old(scores) ==> ScoreKey(x) != ScoreKey(s)
      ensures stored ==> scores == old(scores) + [s]
      ensures !stored ==> scores == old(scores)
    {
      if !ValidScore(s.score) {
        return false;
      }
      var r := InsertUnique(scores, s, ScoreKey);
      if r.None? {
        return false;
      }
      scores := r.value;
      return true;
    }

    /** Inserting a comment row: refused when the pair already has one,
        even a deleted one. */
    method AddComment(c: EliteComment) returns (stored: bool)
      requires Valid()
      modifies this`comments
      ensures Valid()
      ensures stored <==> forall x :: x in old(comments) ==> CommentKey(x) != CommentKey(c)
      ensures stored ==> comments == old(comments) + [c]
      ensures !stored ==> comments == old(comments)
    {
      var r := InsertUnique(comments, c, CommentKey);
      if r.None? {
        return false;
      }
      comments := r.value;
      return true;
    }
  }
}
