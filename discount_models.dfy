/** backend/discounts/models.py: a business's percentage discount over a
    date window, its customer scores and comments, and the soft delete that
    hides a discount or comment while keeping its row. Dates are integer
    timestamps. */
module DiscountModels {
  import opened Common

  datatype Discount = Discount(
    id: int,
    business: int,
    title: string,
    description: Option<string>,
    percentage: int,
    startDate: int,
    endDate: int,
    isDeleted: bool,
    createdAt: int)

  /** DiscountScore: one customer's score of one discount. */
  datatype DiscountScore = DiscountScore(discount: int, user: int, score: int)

  /** DiscountComment: one customer's comment on one discount. */
  datatype DiscountComment = DiscountComment(id: int, discount: int, user: int, text: string, isDeleted: bool, createdAt: int)

  /** The percentage validators: 1 to 100. */
  predicate ValidPercentage(p: int)
  {
    1 <= p <= 100
  }

  /** The score validators: 1 to 5. */
  predicate ValidScore(s: int)
  {
    1 <= s <= 5
  }

  function DiscountId(d: Discount): int
  {
    d.id
  }

  function DiscountPercentage(d: Discount): int
  {
    d.percentage
  }

  function CreatedAt(d: Discount): int
  {
    d.createdAt
  }

  /** The (discount, user) pair a score is unique on. */
  function ScoreKey(s: DiscountScore): (int, int)
  {
    (s.discount, s.user)
  }

  /** The (discount, user) pair a comment is unique on, deleted or not. */
  function CommentKey(c: DiscountComment): (int, int)
  {
    (c.discount, c.user)
  }

  /** Discount.clean: a window that ends before it starts is refused; an
      empty window (end equal to start) is accepted. */
  function Clean(d: Discount): (accepted: bool)
    ensures accepted <==> d.startDate <= d.endDate
    ensures d.startDate == d.endDate ==> accepted
  {
    !(d.endDate < d.startDate)
  }

  /** The discount tables. */
  class DiscountDb {
    var discounts: seq<Discount>
    var scores: seq<DiscountScore>
    var comments: seq<DiscountComment>

    /** The declared constraints: primary keys, the `unique=True`
        percentage (across all businesses), the (discount, user) pairs of
        scores and of comments, and the score range. */
    ghost predicate Valid()
      reads this
    {
      UniqueBy(discounts, DiscountId)
      && UniqueBy(discounts, DiscountPercentage)
      && UniqueBy(scores, ScoreKey)
      && UniqueBy(comments, CommentKey)
      && (forall s :: s in scores ==> ValidScore(s.score))
    }

    /** Discount.delete: the row is kept and marked deleted; nothing else changes. */
    method DeleteDiscount(i: nat)
      requires Valid() && i < |discounts|
      modifies this`discounts
      ensures Valid()
      ensures |discounts| == |old(discounts)|
      ensures discounts == old(discounts)[i := old(discounts)[i].(isDeleted := true)]
    {
      discounts := discounts[i := discounts[i].(isDeleted := true)];
      assert forall k :: 0 <= k < |discounts| ==>
        DiscountId(discounts[k]) == DiscountId(old(discounts)[k])
        && DiscountPercentage(discounts[k]) == DiscountPercentage(old(discounts)[k]);
    }

    /** DiscountComment.delete: the same soft delete for a comment. */
    method DeleteComment(i: nat)
      requires Valid() && i < |comments|
      modifies this`comments
      ensures Valid()
      ensures |comments| == |old(comments)|
      ensures comments == old(comments)[i := old(comments)[i].(isDeleted := true)]
    {
      comments := comments[i := comments[i].(isDeleted := true)];
      assert forall k :: 0 <= k < |comments| ==> CommentKey(comments[k]) == CommentKey(old(comments)[k]);
    }
  }
}
