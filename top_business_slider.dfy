/** frontend/src/components/dashboard/TopBusinessSlider.tsx: from the
    packages on screen, one package per business category (the newest of
    the active, approved packages that have a category), shown one at a
    time with wrap-around navigation. */
module TopBusinessSlider {
  import opened Common

  /** The fields of a package the slider reads; `createdAt` None is a
      missing date, read as 0. */
  datatype SliderPackage = SliderPackage(id: int, category: Option<int>, isActive: bool, approved: bool, createdAt: Option<int>)

  /** Only packages with a category that are active and approved are grouped. */
  predicate Eligible(p: SliderPackage)
  {
    p.category.Some? && p.isActive && p.approved
  }

  function Time(p: SliderPackage): int
  {
    if p.createdAt.Some? then p.createdAt.value else 0
  }

  /** The categories in the order the map first meets them. */
  function CategoryOrder(ps: seq<SliderPackage>): (r: seq<int>)
    ensures Distinct(r)
    ensures forall c :: c in r <==> exists p :: p in ps && Eligible(p) && p.category == Some(c)
  {
    if ps == [] then []
    else
      var init := ps[..|ps| - 1];
      var p := ps[|ps| - 1];
      var o := CategoryOrder(init);
      assert forall q :: q in ps <==> q in init || q == p;
      if Eligible(p) && p.category.value !in o then
        DistinctAppend(o, [p.category.value]);
        o + [p.category.value]
      else o
  }

  /** The eligible packages of category `c`, in input order. */
  function InCategory(ps: seq<SliderPackage>, c: int): (r: seq<SliderPackage>)
    ensures forall p :: p in r <==> p in ps && Eligible(p) && p.category == Some(c)
  {
    Filter(ps, (p: SliderPackage) => Eligible(p) && p.category == Some(c))
  }

  /** The position of `sortedPkgs[0]`: a newest package; the stable sort
      keeps the first of several equally new ones in front. */
  function NewestIndex(ps: seq<SliderPackage>): (k: nat)
    requires ps != []
    ensures k < |ps|
    ensures forall j :: 0 <= j < |ps| ==> Time(ps[j]) <= Time(ps[k])
    ensures forall j :: 0 <= j < k ==> Time(ps[j]) < Time(ps[k])
  {
    if |ps| == 1 then 0
    else
      var init := ps[..|ps| - 1];
      var k := NewestIndex(init);
      assert forall j :: 0 <= j < |init| ==> init[j] == ps[j];
      if Time(ps[|ps| - 1]) > Time(ps[k]) then |ps| - 1 else k
  }

  /** `sortedPkgs[0]`. */
  function Newest(ps: seq<SliderPackage>): (r: SliderPackage)
    requires ps != []
    ensures r in ps
    ensures forall q :: q in ps ==> Time(q) <= Time(r)
  {
    ps[NewestIndex(ps)]
  }

  /** The selection: for each category, in order, its newest package. */
  function TopPerCategory(ps: seq<SliderPackage>): (r: seq<SliderPackage>)
    ensures |r| == |CategoryOrder(ps)|
    ensures forall i :: 0 <= i < |r| ==>
              var c := CategoryOrder(ps)[i];
              r[i] in ps && Eligible(r[i]) && r[i].category == Some(c)
              && forall q :: q in ps && Eligible(q) && q.category == Some(c) ==> Time(q) <= Time(r[i])
  {
    var order := CategoryOrder(ps);
    seq(|order|, i requires 0 <= i < |order| => NewestOf(ps, order[i]))
  }

  /** The newest package of a category that has one. */
  function NewestOf(ps: seq<SliderPackage>, c: int): (r: SliderPackage)
    requires c in CategoryOrder(ps)
    ensures r in ps && Eligible(r) && r.category == Some(c)
    ensures forall q :: q in ps && Eligible(q) && q.category == Some(c) ==> Time(q) <= Time(r)
  {
    InCategoryNonEmpty(ps, c);
    Newest(InCategory(ps, c))
  }

  lemma InCategoryNonEmpty(ps: seq<SliderPackage>, c: int)
    requires c in CategoryOrder(ps)
    ensures InCategory(ps, c) != []
  {
    var p :| p in ps && Eligible(p) && p.category == Some(c);
    assert p in InCategory(ps, c);
  }

  /** Exactly one package per category that has an eligible package. */
  lemma OnePerCategory(ps: seq<SliderPackage>, i: int, j: int)
    requires 0 <= i < j < |TopPerCategory(ps)|
    ensures TopPerCategory(ps)[i].category != TopPerCategory(ps)[j].category
  {
    var o := CategoryOrder(ps);
    assert o[i] != o[j];
  }

  lemma InCategoryStep(ps: seq<SliderPackage>, i: int, c: int)
    requires 0 <= i < |ps|
    ensures InCategory(ps[..i + 1], c) ==
              InCategory(ps[..i], c) + (if Eligible(ps[i]) && ps[i].category == Some(c) then [ps[i]] else [])
  {
    assert ps[..i + 1][..i] == ps[..i];
  }

  /** The map the grouping builds: each eligible package appended to the
      list of its category. */
  function Groups(ps: seq<SliderPackage>): map<int, seq<SliderPackage>>
  {
    if ps == [] then map[]
    else
      var g := Groups(ps[..|ps| - 1]);
      var p := ps[|ps| - 1];
      if Eligible(p) then
        var c := p.category.value;
        g[c := (if c in g then g[c] else []) + [p]]
      else g
  }

  /** The map's keys are the categories met, and each holds exactly its
      category's eligible packages, in input order. */
  lemma {:induction false} GroupsAreCategories(ps: seq<SliderPackage>)
    ensures forall c :: c in Groups(ps) <==> c in CategoryOrder(ps)
    ensures forall c :: c in Groups(ps) ==> Groups(ps)[c] == InCategory(ps, c)
  {
    if ps != [] {
      var n := |ps| - 1;
      assert ps[..n] == ps[..|ps| - 1];
      GroupsAreCategories(ps[..n]);
      assert ps[..n + 1] == ps;
      forall c | c in Groups(ps)
        ensures Groups(ps)[c] == InCategory(ps, c)
      {
        InCategoryStep(ps, n, c);
        if c !in Groups(ps[..n]) {
          NoneInCategory(ps[..n], c);
        }
      }
    }
  }

  /** A category not met yet has no packages so far. */
  lemma NoneInCategory(ps: seq<SliderPackage>, c: int)
    requires c !in CategoryOrder(ps)
    ensures InCategory(ps, c) == []
  {
    var r := InCategory(ps, c);
    assert forall x :: x !in r;
  }

  /** The grouping loop: the map from category to its packages, and the
      order in which its keys were inserted. */
  method GroupByCategory(ps: seq<SliderPackage>) returns (order: seq<int>, groups: map<int, seq<SliderPackage>>)
    ensures order == CategoryOrder(ps)
    ensures forall c :: c in groups <==> c in order
    ensures forall c :: c in groups ==> groups[c] == InCategory(ps, c)
  {
    order := [];
    groups := map[];
    var i := 0;
    while i < |ps|
      invariant 0 <= i <= |ps|
      invariant order == CategoryOrder(ps[..i])
      invariant groups == Groups(ps[..i])
    {
      var p := ps[i];
      assert ps[..i + 1][..i] == ps[..i];
      GroupsAreCategories(ps[..i]);
      if Eligible(p) {
        var c := p.category.value;
        if c !in groups {
          groups := groups[c := []];
          order := order + [c];
        }
        groups := groups[c := groups[c] + [p]];
      }
      i := i + 1;
    }
    assert ps[..|ps|] == ps;
    GroupsAreCategories(ps);
  }

  /** `handleNext`: one step forward, from the last back to the first. */
  function Next(i: int, n: int): (r: int)
    requires n > 0 && 0 <= i < n
    ensures 0 <= r < n
    ensures i < n - 1 ==> r == i + 1
    ensures i == n - 1 ==> r == 0
  {
    (i + 1) % n
  }

  /** `handlePrevious`: one step back, from the first to the last. */
  function Previous(i: int, n: int): (r: int)
    requires n > 0 && 0 <= i < n
    ensures 0 <= r < n
    ensures i > 0 ==> r == i - 1
    ensures i == 0 ==> r == n - 1
  {
    (i - 1 + n) % n
  }

  /** Each direction undoes the other. */
  lemma NextPreviousInverse(i: int, n: int)
    requires n > 0 && 0 <= i < n
    ensures Previous(Next(i, n), n) == i
    ensures Next(Previous(i, n), n) == i
  {
  }

  /** The selection loop: for each category of the grouping, in order, the
      newest package of its group. */
  method SelectNewest(ps: seq<SliderPackage>, order: seq<int>, groups: map<int, seq<SliderPackage>>)
    returns (top: seq<SliderPackage>)
    requires order == CategoryOrder(ps)
    requires forall c :: c in order ==> c in groups && groups[c] == InCategory(ps, c)
    ensures top == TopPerCategory(ps)
  {
    top := [];
    var k := 0;
    while k < |order|
      invariant 0 <= k <= |order|
      invariant |top| == k
      invariant forall j :: 0 <= j < k ==> top[j] == NewestOf(ps, order[j])
    {
      var c := order[k];
      var g := groups[c];
      InCategoryNonEmpty(ps, c);
      top := top + [Newest(g)];
      k := k + 1;
    }
  }

  /** The slider's state. */
  class Slider {
    var selection: seq<SliderPackage>
    var currentIndex: int

    ghost predicate Valid()
      reads this
    {
      0 <= currentIndex && (selection != [] ==> currentIndex < |selection|)
    }

    constructor()
      ensures Valid() && selection == [] && currentIndex == 0
    {
      selection := [];
      currentIndex := 0;
    }

    /** The grouping effect: an empty list leaves the slider as it was;
        otherwise the selection is rebuilt and the index goes back to 0. */
    method OnPackagesChange(ps: seq<SliderPackage>)
      requires Valid()
      modifies this
      ensures Valid()
      ensures ps == [] ==> selection == old(selection) && currentIndex == old(currentIndex)
      ensures ps != [] ==> selection == TopPerCategory(ps) && currentIndex == 0
    {
      if ps == [] {
        return;
      }
      var order, groups := GroupByCategory(ps);
      var top := SelectNewest(ps, order, groups);
      selection := top;
      currentIndex := 0;
    }

    method HandleNext()
      requires Valid() && selection != []
      modifies this`currentIndex
      ensures Valid()
      ensures currentIndex == Next(old(currentIndex), |selection|)
    {
      currentIndex := (currentIndex + 1) % |selection|;
    }

    method HandlePrevious()
      requires Valid() && selection != []
      modifies this`currentIndex
      ensures Valid()
      ensures currentIndex == Previous(old(currentIndex), |selection|)
    {
      currentIndex := (currentIndex - 1 + |selection|) % |selection|;
    }

    /** The card on screen: none for an empty selection. */
    function Shown(): (r: Option<SliderPackage>)
      reads this
      requires Valid()
      ensures r.None? <==> selection == []
      ensures r.Some? ==> r.value == selection[currentIndex]
    {
      if selection == [] then None else Some(selection[currentIndex])
    }
  }
}
