/** The package aggregate of backend/packages/models.py: a package row, its
    one-to-one sub-entities (blanket discount, specific discount, elite gift),
    its VIP experiences, the field validators and the in-memory instance on
    which the lifecycle primitives act. */
module PackageModels {
  import opened Common

  /** Lifecycle status of a package. The column is referenced by the rest of
      the backend but not declared in the model file; these are its values. */
  datatype PackageStatus = Draft | Pending | Approved | Rejected | Canceled | Expired

  /** `vip_type` of a VIP experience category: 'VIP' or 'VIP+'. */
  datatype VipType = VipTier | VipPlusTier

  /** DiscountAll: the blanket percentage of a package. */
  datatype DiscountAll = DiscountAll(percentage: real, score: int)

  /** SpecificDiscount: a discount on one product or service. */
  datatype SpecificDiscount = SpecificDiscount(
    percentage: real, title: Option<string>, description: Option<string>, score: int)

  /** EliteGift: the loyalty reward, reached by a purchase amount or count. */
  datatype EliteGift = EliteGift(amount: Option<real>, count: Option<int>, gift: string, score: int)

  /** VipExperience: one selected experience, with the `vip_type` of its category. */
  datatype VipExperience = VipExperience(categoryId: int, vipType: VipType, score: int)

  /** A package row together with the rows that point at it. A one-to-one
      relation is an Option, so a package holds at most one of each. */
  datatype Package = Package(
    id: int,
    business: int,
    status: PackageStatus,
    isActive: bool,
    isComplete: bool,
    createdAt: int,
    startDate: Option<int>,
    endDate: Option<int>,
    discountAll: Option<DiscountAll>,
    specificDiscount: Option<SpecificDiscount>,
    eliteGift: Option<EliteGift>,
    experiences: seq<VipExperience>)

  /** Validators shared by the percentage fields: [1, 100]. */
  predicate ValidPercentage(p: real)
  {
    1.0 <= p <= 100.0
  }

  /** Validators shared by every `score` field: [1, 5]. */
  predicate ValidScore(s: int)
  {
    1 <= s <= 5
  }

  /** Default of every `score` field. */
  const DefaultScore := 1

  /** Field validators of EliteGift: amount and count are each at least 1 when set. */
  predicate ValidEliteGiftFields(g: EliteGift)
  {
    (g.amount.Some? ==> g.amount.value >= 1.0)
    && (g.count.Some? ==> g.count.value >= 1)
    && ValidScore(g.score)
  }

  /** Every field validator of the aggregate. */
  predicate ValidFields(p: Package)
  {
    (p.discountAll.Some? ==> ValidPercentage(p.discountAll.value.percentage) && ValidScore(p.discountAll.value.score))
    && (p.specificDiscount.Some? ==>
          ValidPercentage(p.specificDiscount.value.percentage) && ValidScore(p.specificDiscount.value.score))
    && (p.eliteGift.Some? ==> ValidEliteGiftFields(p.eliteGift.value))
    && (forall e :: e in p.experiences ==> ValidScore(e.score))
  }

  /** EliteGift.clean: refuses a gift whose amount and count are both empty;
      true means the gift is accepted. */
  function CleanEliteGift(g: EliteGift): (accepted: bool)
    ensures !accepted <==> (g.amount.None? || g.amount.value == 0.0) && (g.count.None? || g.count.value == 0)
  {
    TruthyReal(g.amount) || TruthyInt(g.count)
  }

  /** A freshly created package: `is_active` defaults to false and it has no
      sub-entities yet. Status and completeness are supplied because their
      defaults are not part of the model file. */
  function NewPackage(id: int, business: int, createdAt: int, status: PackageStatus, isComplete: bool): (p: Package)
    ensures !p.isActive
    ensures p.id == id && p.business == business && p.createdAt == createdAt
    ensures p.status == status && p.isComplete == isComplete
    ensures p.discountAll.None? && p.specificDiscount.None? && p.eliteGift.None? && p.experiences == []
    ensures ValidFields(p)
  {
    Package(id, business, status, false, isComplete, createdAt, None, None, None, None, None, [])
  }

  /** activate_package (its body is not part of the model file): the minimal
      contract is that this package becomes active and nothing else changes. */
  function Activated(p: Package): (q: Package)
    ensures q.isActive
    ensures q.(isActive := p.isActive) == p
  {
    p.(isActive := true)
  }

  /** deactivate_package, with the same minimal contract. */
  function Deactivated(p: Package): (q: Package)
    ensures !q.isActive
    ensures q.(isActive := p.isActive) == p
  {
    p.(isActive := false)
  }

  /** A generic comment on a package sub-entity and a like on a comment. */
  datatype Comment = Comment(contentType: int, objectId: int, user: int, text: string)
  datatype CommentLike = CommentLike(comment: int, user: int)

  function CommentKey(c: Comment): (int, int, int) { (c.contentType, c.objectId, c.user) }
  function LikeKey(l: CommentLike): (int, int) { (l.comment, l.user) }

  /** Comment: unique on (content_type, object_id, user). A second comment
      by the same user on the same object is refused. */
  lemma SecondCommentRefused(comments: seq<Comment>, c: Comment, c': Comment)
    requires CommentKey(c) == CommentKey(c')
    requires InsertUnique(comments, c, CommentKey).Some?
    ensures InsertUnique(InsertUnique(comments, c, CommentKey).value, c', CommentKey).None?
  {
    var after := InsertUnique(comments, c, CommentKey).value;
    assert after[|comments|] == c;
  }

  /** CommentLike: unique on (comment, user). A user likes a comment at
      most once: a second like of the same comment is refused. */
  lemma SecondLikeRefused(likes: seq<CommentLike>, l: CommentLike, l': CommentLike)
    requires LikeKey(l) == LikeKey(l')
    requires InsertUnique(likes, l, LikeKey).Some?
    ensures InsertUnique(InsertUnique(likes, l, LikeKey).value, l', LikeKey).None?
  {
    var after := InsertUnique(likes, l, LikeKey).value;
    assert after[|likes|] == l;
  }

  /** The in-memory Django instance of a package: the row it was loaded with
      and two transient attributes set by other code, `_signal_processing`
      (the re-entrancy sentinel) and `_admin_override`. */
  class PackageInstance {
    var row: Package
    var signalProcessing: bool
    var adminOverride: bool

    constructor (row: Package, adminOverride: bool)
      ensures this.row == row && !signalProcessing && this.adminOverride == adminOverride
    {
      this.row := row;
      this.signalProcessing := false;
      this.adminOverride := adminOverride;
    }

    /** instance.activate_package() */
    method ActivatePackage()
      modifies this`row
      ensures row == Activated(old(row))
    {
      row := Activated(row);
    }

    /** instance.deactivate_package() */
    method DeactivatePackage()
      modifies this`row
      ensures row == Deactivated(old(row))
    {
      row := Deactivated(row);
    }
  }
}
