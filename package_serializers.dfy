/** PackageCreateUpdateSerializer and the read-only getters of
    PackageListSerializer (backend/packages/serializers.py). A payload key
    that is absent is `None`; a key sent as null is `Some(None)`. */
module PackageSerializers {
  import opened Common
  import opened PackageModels
  import opened PackageSignals

  /** The validated `discount_all` payload. */
  datatype DiscountAllData = DiscountAllData(percentage: Option<real>, score: Option<int>)

  /** The validated `specific_discount` payload. */
  datatype SpecificDiscountData = SpecificDiscountData(
    percentage: Option<real>, title: Option<Option<string>>, description: Option<Option<string>>, score: Option<int>)

  /** The validated `elite_gift` payload. */
  datatype EliteGiftData = EliteGiftData(
    amount: Option<Option<real>>, count: Option<Option<int>>, gift: Option<string>, score: Option<int>)

  /** One entry of the `experiences` payload; `vipType` is the type of the
      category its `vip_experience_category_id` names. */
  datatype ExperienceData = ExperienceData(categoryId: int, vipType: VipType, score: Option<int>)

  /** The validated payload of a create or update. */
  datatype PackageData = PackageData(
    business: Option<int>,
    isActive: Option<bool>,
    startDate: Option<Option<int>>,
    endDate: Option<Option<int>>,
    status: Option<PackageStatus>,
    isComplete: Option<bool>,
    discountAll: Option<DiscountAllData>,
    specificDiscount: Option<SpecificDiscountData>,
    eliteGift: Option<EliteGiftData>,
    experiences: Option<seq<ExperienceData>>)

  /** Python truthiness of a payload dict: at least one key. */
  predicate DiscountAllSent(d: Option<DiscountAllData>)
  {
    d.Some? && (d.value.percentage.Some? || d.value.score.Some?)
  }

  predicate SpecificSent(d: Option<SpecificDiscountData>)
  {
    d.Some? && (d.value.percentage.Some? || d.value.title.Some? || d.value.description.Some? || d.value.score.Some?)
  }

  predicate EliteGiftSent(d: Option<EliteGiftData>)
  {
    d.Some? && (d.value.amount.Some? || d.value.count.Some? || d.value.gift.Some? || d.value.score.Some?)
  }

  /** `DiscountAll.objects.create(**data)`: `percentage` has no default. */
  function NewDiscountAll(d: DiscountAllData): (r: DiscountAll)
    requires d.percentage.Some?
    ensures r.percentage == d.percentage.value
    ensures d.score.None? ==> r.score == DefaultScore
  {
    DiscountAll(d.percentage.value, GetOr(d.score, DefaultScore))
  }

  function NewSpecificDiscount(d: SpecificDiscountData): (r: SpecificDiscount)
    requires d.percentage.Some?
    ensures r.percentage == d.percentage.value
    ensures d.title.None? ==> r.title == None
    ensures d.description.None? ==> r.description == None
    ensures d.score.None? ==> r.score == DefaultScore
  {
    SpecificDiscount(d.percentage.value, GetOr(d.title, None), GetOr(d.description, None), GetOr(d.score, DefaultScore))
  }

  /** `EliteGift.objects.create(**data)`: amount and count default to null,
      the gift text to the empty string. */
  function NewEliteGift(d: EliteGiftData): (r: EliteGift)
    ensures d.amount.None? ==> r.amount == None
    ensures d.count.None? ==> r.count == None
    ensures d.gift.None? ==> r.gift == ""
    ensures d.score.None? ==> r.score == DefaultScore
  {
    EliteGift(GetOr(d.amount, None), GetOr(d.count, None), GetOr(d.gift, ""), GetOr(d.score, DefaultScore))
  }

  function NewExperience(d: ExperienceData): (r: VipExperience)
    ensures r.categoryId == d.categoryId && r.vipType == d.vipType
    ensures d.score.None? ==> r.score == DefaultScore
  {
    VipExperience(d.categoryId, d.vipType, GetOr(d.score, DefaultScore))
  }

  /** The `setattr` loop over a sub-object: every key sent overwrites its
      field and the others are kept (lines 336-350). */
  function MergeDiscountAll(a: DiscountAll, d: DiscountAllData): (r: DiscountAll)
    ensures d.percentage.Some? ==> r.percentage == d.percentage.value
    ensures d.percentage.None? ==> r.percentage == a.percentage
    ensures d.score.Some? ==> r.score == d.score.value
    ensures d.score.None? ==> r.score == a.score
  {
    a.(percentage := GetOr(d.percentage, a.percentage), score := GetOr(d.score, a.score))
  }

  function MergeSpecificDiscount(s: SpecificDiscount, d: SpecificDiscountData): (r: SpecificDiscount)
    ensures r.percentage == GetOr(d.percentage, s.percentage)
    ensures r.title == GetOr(d.title, s.title) && r.description == GetOr(d.description, s.description)
    ensures r.score == GetOr(d.score, s.score)
  {
    SpecificDiscount(GetOr(d.percentage, s.percentage), GetOr(d.title, s.title),
                     GetOr(d.description, s.description), GetOr(d.score, s.score))
  }

  /** The update of an existing elite gift (lines 355-372): a non-null
      amount wins and clears the count; otherwise a non-null count wins and
      clears the amount; otherwise keys sent as null are copied. The gift
      text is kept when absent, and the score is never updated. */
  function MergeEliteGift(g: EliteGift, d: EliteGiftData): (r: EliteGift)
    ensures r.gift == GetOr(d.gift, g.gift) && r.score == g.score
    ensures d.amount.Some? && d.amount.value.Some? ==> r.amount == d.amount.value && r.count == None
    ensures !(d.amount.Some? && d.amount.value.Some?) && d.count.Some? && d.count.value.Some? ==>
              r.count == d.count.value && r.amount == None
    ensures !(d.amount.Some? && d.amount.value.Some?) && !(d.count.Some? && d.count.value.Some?) ==>
              r.amount == (if d.amount.Some? then None else g.amount)
              && r.count == (if d.count.Some? then None else g.count)
  {
    var gift := GetOr(d.gift, g.gift);
    if d.amount.Some? && d.amount.value.Some? then
      g.(gift := gift, amount := d.amount.value, count := None)
    else if d.count.Some? && d.count.value.Some? then
      g.(gift := gift, count := d.count.value, amount := None)
    else
      g.(gift := gift,
         amount := if d.amount.Some? then d.amount.value else g.amount,
         count := if d.count.Some? then d.count.value else g.count)
  }

  /** A payload that sets a non-null amount or count leaves exactly one of
      them set. */
  lemma MergeEliteGiftExclusive(g: EliteGift, d: EliteGiftData)
    requires (d.amount.Some? && d.amount.value.Some?) || (d.count.Some? && d.count.value.Some?)
    ensures var r := MergeEliteGift(g, d); r.amount.Some? != r.count.Some?
  {
  }

  /** Sending the same elite-gift payload twice has the effect of sending
      it once. */
  lemma MergeEliteGiftIdempotent(g: EliteGift, d: EliteGiftData)
    ensures MergeEliteGift(MergeEliteGift(g, d), d) == MergeEliteGift(g, d)
  {
  }

  /** The update does not run `EliteGift.clean`: sending `amount: null` to a
      gift that has only an amount stores a gift that `clean` rejects. */
  lemma MergeEliteGiftCanBypassClean()
    ensures var g := EliteGift(Some(5.0), None, "coffee", 1);
      CleanEliteGift(g) && !CleanEliteGift(MergeEliteGift(g, EliteGiftData(Some(None), None, None, None)))
  {
  }

  /** Each sub-object that the payload creates has the fields its table
      cannot default. */
  predicate CreatableOnCreate(d: PackageData)
  {
    d.business.Some?
    && (DiscountAllSent(d.discountAll) ==> d.discountAll.value.percentage.Some?)
    && (SpecificSent(d.specificDiscount) ==> d.specificDiscount.value.percentage.Some?)
  }

  predicate CreatableOnUpdate(p: Package, d: PackageData)
  {
    (DiscountAllSent(d.discountAll) && p.discountAll.None? ==> d.discountAll.value.percentage.Some?)
    && (SpecificSent(d.specificDiscount) && p.specificDiscount.None? ==> d.specificDiscount.value.percentage.Some?)
  }

  /** The package columns of a payload applied to a row (the `setattr`
      loop of lines 331-332). */
  function SetFields(p: Package, d: PackageData): (q: Package)
    ensures q.id == p.id && q.createdAt == p.createdAt
    ensures q.discountAll == p.discountAll && q.specificDiscount == p.specificDiscount
    ensures q.eliteGift == p.eliteGift && q.experiences == p.experiences
    ensures q.business == GetOr(d.business, p.business) && q.isActive == GetOr(d.isActive, p.isActive)
    ensures q.status == GetOr(d.status, p.status) && q.isComplete == GetOr(d.isComplete, p.isComplete)
    ensures q.startDate == GetOr(d.startDate, p.startDate) && q.endDate == GetOr(d.endDate, p.endDate)
  {
    p.(business := GetOr(d.business, p.business),
       isActive := GetOr(d.isActive, p.isActive),
       startDate := GetOr(d.startDate, p.startDate),
       endDate := GetOr(d.endDate, p.endDate),
       status := GetOr(d.status, p.status),
       isComplete := GetOr(d.isComplete, p.isComplete))
  }

  /** `create(validated_data)`: the package row with one sub-entity per
      payload that was sent and one experience per entry, in order. Columns
      the payload omits take `statusDefault` and `completeDefault` (their
      declarations are not part of the model file) and `is_active` false.
      `objects.create` saves the new row, which runs the post-save handler
      of backend/packages/signals.py unguarded (`canActivateNow` is its
      answer from `can_activate_immediately()`): an approved complete
      package ends active exactly when it may be activated now. */
  method Create(id: int, createdAt: int, d: PackageData, statusDefault: PackageStatus, completeDefault: bool,
                canActivateNow: bool)
    returns (p: Package)
    requires CreatableOnCreate(d)
    ensures p.id == id && p.createdAt == createdAt && p.business == d.business.value
    ensures p.status == Approved && p.isComplete ==> p.isActive == canActivateNow
    ensures !(p.status == Approved && p.isComplete) ==> p.isActive == GetOr(d.isActive, false)
    ensures p.status == GetOr(d.status, statusDefault) && p.isComplete == GetOr(d.isComplete, completeDefault)
    ensures p.startDate == GetOr(d.startDate, None) && p.endDate == GetOr(d.endDate, None)
    ensures p.discountAll.Some? <==> DiscountAllSent(d.discountAll)
    ensures p.discountAll.Some? ==> p.discountAll.value == NewDiscountAll(d.discountAll.value)
    ensures p.specificDiscount.Some? <==> SpecificSent(d.specificDiscount)
    ensures p.specificDiscount.Some? ==> p.specificDiscount.value == NewSpecificDiscount(d.specificDiscount.value)
    ensures p.eliteGift.Some? <==> EliteGiftSent(d.eliteGift)
    ensures p.eliteGift.Some? ==> p.eliteGift.value == NewEliteGift(d.eliteGift.value)
    ensures var es := GetOr(d.experiences, []);
      |p.experiences| == |es| && forall i :: 0 <= i < |es| ==> p.experiences[i] == NewExperience(es[i])
  {
    p := NewPackage(id, d.business.value, createdAt, statusDefault, completeDefault);
    p := AfterSave(SetFields(p, d), false, canActivateNow);
    if DiscountAllSent(d.discountAll) {
      p := p.(discountAll := Some(NewDiscountAll(d.discountAll.value)));
    }
    if SpecificSent(d.specificDiscount) {
      p := p.(specificDiscount := Some(NewSpecificDiscount(d.specificDiscount.value)));
    }
    if EliteGiftSent(d.eliteGift) {
      p := p.(eliteGift := Some(NewEliteGift(d.eliteGift.value)));
    }
    var xs := CreateExperiences(GetOr(d.experiences, []));
    p := p.(experiences := xs);
  }

  /** Lines 314-320: one experience row per entry, in order. */
  method CreateExperiences(es: seq<ExperienceData>) returns (xs: seq<VipExperience>)
    ensures |xs| == |es| && forall i :: 0 <= i < |es| ==> xs[i] == NewExperience(es[i])
  {
    xs := [];
    for i := 0 to |es|
      invariant |xs| == i
      invariant forall k :: 0 <= k < i ==> xs[k] == NewExperience(es[k])
    {
      xs := xs + [NewExperience(es[i])];
    }
  }

  /** `update(instance, validated_data)`. The columns are set and saved
      first, which runs the post-save handler of backend/packages/signals.py
      (`canActivateNow` is its answer from `can_activate_immediately()`);
      then each sub-object sent is merged into the existing one or created,
      and an `experiences` key, even an empty list, replaces every old
      experience by the entries sent. */
  method Update(instance: PackageInstance, d: PackageData, canActivateNow: bool)
    requires CreatableOnUpdate(instance.row, d)
    modifies instance
    ensures instance.signalProcessing == old(instance.signalProcessing)
    ensures instance.adminOverride == old(instance.adminOverride)
    ensures var saved := AfterSave(SetFields(old(instance.row), d),
                                   old(instance.signalProcessing) || old(instance.adminOverride), canActivateNow);
      instance.row.(discountAll := saved.discountAll, specificDiscount := saved.specificDiscount,
                    eliteGift := saved.eliteGift, experiences := saved.experiences) == saved
    ensures var p := old(instance.row);
      instance.row.discountAll ==
        if !DiscountAllSent(d.discountAll) then p.discountAll
        else if p.discountAll.Some? then Some(MergeDiscountAll(p.discountAll.value, d.discountAll.value))
        else Some(NewDiscountAll(d.discountAll.value))
    ensures var p := old(instance.row);
      instance.row.specificDiscount ==
        if !SpecificSent(d.specificDiscount) then p.specificDiscount
        else if p.specificDiscount.Some? then Some(MergeSpecificDiscount(p.specificDiscount.value, d.specificDiscount.value))
        else Some(NewSpecificDiscount(d.specificDiscount.value))
    ensures var p := old(instance.row);
      instance.row.eliteGift ==
        if !EliteGiftSent(d.eliteGift) then p.eliteGift
        else if p.eliteGift.Some? then Some(MergeEliteGift(p.eliteGift.value, d.eliteGift.value))
        else Some(NewEliteGift(d.eliteGift.value))
    ensures d.experiences.None? ==> instance.row.experiences == old(instance.row.experiences)
    ensures d.experiences.Some? ==>
              |instance.row.experiences| == |d.experiences.value|
              && forall i :: 0 <= i < |d.experiences.value| ==>
                   instance.row.experiences[i] == NewExperience(d.experiences.value[i])
  {
    instance.row := SetFields(instance.row, d);
    var _ := HandlePackageActivation(instance, canActivateNow, false, false);
    UpdateSubObjects(instance, d);
    if d.experiences.Some? {
      ReplaceExperiences(instance, d.experiences.value);
    }
  }

  /** Lines 336-374: each sub-object sent is merged into the existing one or
      created. */
  method UpdateSubObjects(instance: PackageInstance, d: PackageData)
    requires CreatableOnUpdate(instance.row, d)
    modifies instance`row
    ensures var p := old(instance.row);
      instance.row == p.(
        discountAll :=
          if !DiscountAllSent(d.discountAll) then p.discountAll
          else if p.discountAll.Some? then Some(MergeDiscountAll(p.discountAll.value, d.discountAll.value))
          else Some(NewDiscountAll(d.discountAll.value)),
        specificDiscount :=
          if !SpecificSent(d.specificDiscount) then p.specificDiscount
          else if p.specificDiscount.Some? then Some(MergeSpecificDiscount(p.specificDiscount.value, d.specificDiscount.value))
          else Some(NewSpecificDiscount(d.specificDiscount.value)),
        eliteGift :=
          if !EliteGiftSent(d.eliteGift) then p.eliteGift
          else if p.eliteGift.Some? then Some(MergeEliteGift(p.eliteGift.value, d.eliteGift.value))
          else Some(NewEliteGift(d.eliteGift.value)))
  {
    var p := instance.row;
    if DiscountAllSent(d.discountAll) {
      if p.discountAll.Some? {
        p := p.(discountAll := Some(MergeDiscountAll(p.discountAll.value, d.discountAll.value)));
      } else {
        p := p.(discountAll := Some(NewDiscountAll(d.discountAll.value)));
      }
    }
    if SpecificSent(d.specificDiscount) {
      if p.specificDiscount.Some? {
        p := p.(specificDiscount := Some(MergeSpecificDiscount(p.specificDiscount.value, d.specificDiscount.value)));
      } else {
        p := p.(specificDiscount := Some(NewSpecificDiscount(d.specificDiscount.value)));
      }
    }
    if EliteGiftSent(d.eliteGift) {
      if p.eliteGift.Some? {
        p := p.(eliteGift := Some(MergeEliteGift(p.eliteGift.value, d.eliteGift.value)));
      } else {
        p := p.(eliteGift := Some(NewEliteGift(d.eliteGift.value)));
      }
    }
    instance.row := p;
  }

  /** Lines 376-386: delete every experience, then create one per entry. */
  method ReplaceExperiences(instance: PackageInstance, es: seq<ExperienceData>)
    modifies instance`row
    ensures instance.row.(experiences := old(instance.row.experiences)) == old(instance.row)
    ensures |instance.row.experiences| == |es|
    ensures forall i :: 0 <= i < |es| ==> instance.row.experiences[i] == NewExperience(es[i])
  {
    instance.row := instance.row.(experiences := []);
    for i := 0 to |es|
      invariant instance.row.(experiences := old(instance.row.experiences)) == old(instance.row)
      invariant |instance.row.experiences| == i
      invariant forall k :: 0 <= k < i ==> instance.row.experiences[k] == NewExperience(es[k])
    {
      instance.row := instance.row.(experiences := instance.row.experiences + [NewExperience(es[i])]);
    }
  }

  // ----- PackageListSerializer getters -----

  /** Whether any experience is of type `t`, by a scan of the list. */
  function AnyOfType(es: seq<VipExperience>, t: VipType): (b: bool)
    ensures b <==> exists i :: 0 <= i < |es| && es[i].vipType == t
  {
    if es == [] then false else AnyOfType(es[..|es| - 1], t) || es[|es| - 1].vipType == t
  }

  /** `get_days_remaining`: None unless the package has an end date and is
      active; otherwise the whole days to the end date, or 0 once it is
      reached. */
  function DaysRemaining(p: Package, today: int): (r: Option<nat>)
    ensures r.None? <==> p.endDate.None? || !p.isActive
    ensures r.Some? && p.endDate.value > today ==> r.value == p.endDate.value - today
    ensures r.Some? && p.endDate.value <= today ==> r.value == 0
  {
    if p.endDate.Some? && p.isActive then
      (if p.endDate.value > today then Some(p.endDate.value - today) else Some(0))
    else None
  }

  /** The count never grows as the day advances. */
  lemma DaysRemainingDecreases(p: Package, today: int, later: int)
    requires today <= later && DaysRemaining(p, today).Some?
    ensures DaysRemaining(p, later).Some? && DaysRemaining(p, later).value <= DaysRemaining(p, today).value
  {
  }

  /** The fields the list serializer computes. */
  datatype ListItem = ListItem(
    discountPercentage: Option<real>,
    specificDiscountTitle: Option<string>,
    specificDiscountPercentage: Option<real>,
    specificDiscountDescription: Option<string>,
    eliteGiftTitle: Option<string>,
    eliteGiftGift: Option<string>,
    eliteGiftAmount: Option<real>,
    eliteGiftCount: Option<int>,
    vipExperiencesCount: nat,
    hasVip: bool,
    hasVipPlus: bool,
    daysRemaining: Option<nat>)

  /** The getters of lines 128-205 on one package. */
  function ListFields(p: Package, today: int): (v: ListItem)
    ensures p.discountAll.None? ==> v.discountPercentage == None
    ensures p.discountAll.Some? ==> v.discountPercentage == Some(p.discountAll.value.percentage)
    ensures p.specificDiscount.None? ==>
              v.specificDiscountTitle == None && v.specificDiscountPercentage == None && v.specificDiscountDescription == None
    ensures p.specificDiscount.Some? ==>
              v.specificDiscountTitle == p.specificDiscount.value.title
              && v.specificDiscountPercentage == Some(p.specificDiscount.value.percentage)
              && v.specificDiscountDescription == p.specificDiscount.value.description
    ensures p.eliteGift.None? ==>
              v.eliteGiftTitle == None && v.eliteGiftGift == None && v.eliteGiftAmount == None && v.eliteGiftCount == None
    ensures p.eliteGift.Some? ==>
              v.eliteGiftTitle == Some(p.eliteGift.value.gift) && v.eliteGiftGift == v.eliteGiftTitle
              && v.eliteGiftAmount == p.eliteGift.value.amount && v.eliteGiftCount == p.eliteGift.value.count
    ensures v.vipExperiencesCount == |p.experiences|
    ensures v.hasVip <==> exists i :: 0 <= i < |p.experiences| && p.experiences[i].vipType == VipTier
    ensures v.hasVipPlus <==> exists i :: 0 <= i < |p.experiences| && p.experiences[i].vipType == VipPlusTier
    ensures v.daysRemaining == DaysRemaining(p, today)
  {
    var sd := p.specificDiscount;
    var eg := p.eliteGift;
    ListItem(
      if p.discountAll.Some? then Some(p.discountAll.value.percentage) else None,
      if sd.Some? then sd.value.title else None,
      if sd.Some? then Some(sd.value.percentage) else None,
      if sd.Some? then sd.value.description else None,
      if eg.Some? then Some(eg.value.gift) else None,
      if eg.Some? then Some(eg.value.gift) else None,
      if eg.Some? then eg.value.amount else None,
      if eg.Some? then eg.value.count else None,
      |p.experiences|,
      AnyOfType(p.experiences, VipTier),
      AnyOfType(p.experiences, VipPlusTier),
      DaysRemaining(p, today))
  }
}
