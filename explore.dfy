/** frontend/src/pages/Explore.tsx: the packages a customer can browse (the
    active, approved, complete ones), narrowed by a case-insensitive search
    and ordered by discount or age. */
module Explore {
  import opened Common

  datatype ExplorePackage = ExplorePackage(
    id: int,
    businessName: Option<string>,
    eliteGiftTitle: Option<string>,
    discountPercentage: Option<int>,
    createdAt: int,
    isActive: bool,
    approved: bool,
    isComplete: bool)

  datatype SortBy = DiscountHigh | DiscountLow | Newest | Unsorted

  datatype Filters = Filters(category: string, sortBy: SortBy, search: string)

  /** `loadActivePackages`: only active, approved and complete packages. */
  function Loaded(response: seq<ExplorePackage>): (r: seq<ExplorePackage>)
    ensures forall p :: p in r <==> p in response && p.isActive && p.approved && p.isComplete
  {
    Filter(response, (p: ExplorePackage) => p.isActive && p.approved && p.isComplete)
  }

  /** `toLowerCase` on ASCII letters (other scripts are left as they are). */
  function LowerChar(c: char): char
  {
    if 'A' <= c <= 'Z' then (c as int - 'A' as int + 'a' as int) as char else c
  }

  function Lower(s: string): (r: string)
    ensures |r| == |s| && forall i :: 0 <= i < |s| ==> r[i] == LowerChar(s[i])
  {
    seq(|s|, i requires 0 <= i < |s| => LowerChar(s[i]))
  }

  /** `t` occurs in `s` starting at index `i`. */
  predicate OccursAt(s: string, t: string, i: int)
  {
    0 <= i <= |s| - |t| && s[i..i + |t|] == t
  }

  /** `s.includes(t)`. */
  predicate Includes(s: string, t: string)
  {
    exists i | 0 <= i <= |s| - |t| :: OccursAt(s, t, i)
  }

  /** The search keeps a package whose business name or gift title contains
      the lower-cased term, case aside; a missing field never matches. */
  predicate MatchesSearch(p: ExplorePackage, term: string)
  {
    (p.businessName.Some? && Includes(Lower(p.businessName.value), Lower(term)))
    || (p.eliteGiftTitle.Some? && Includes(Lower(p.eliteGiftTitle.value), Lower(term)))
  }

  /** `discount_percentage || 0`. */
  function DiscountOf(p: ExplorePackage): int
  {
    if p.discountPercentage.Some? then p.discountPercentage.value else 0
  }

  function NegDiscountOf(p: ExplorePackage): int
  {
    -DiscountOf(p)
  }

  function CreatedAtOf(p: ExplorePackage): int
  {
    p.createdAt
  }

  /** The search step: everything for an empty term. */
  function Searched(ps: seq<ExplorePackage>, search: string): (r: seq<ExplorePackage>)
    ensures search == [] ==> r == ps
    ensures search != [] ==> forall p :: p in r <==> p in ps && MatchesSearch(p, search)
  {
    if search == [] then ps else Filter(ps, (p: ExplorePackage) => MatchesSearch(p, search))
  }

  /** `applyFilters`: search, then (the category step does nothing) sort. */
  function ApplyFilters(ps: seq<ExplorePackage>, f: Filters): (r: seq<ExplorePackage>)
    ensures multiset(r) == multiset(Searched(ps, f.search))
    ensures f.sortBy == Unsorted ==> r == Searched(ps, f.search)
    ensures f.sortBy == DiscountHigh ==>
              forall i, j :: 0 <= i < j < |r| ==> DiscountOf(r[i]) >= DiscountOf(r[j])
    ensures f.sortBy == DiscountLow ==>
              forall i, j :: 0 <= i < j < |r| ==> DiscountOf(r[i]) <= DiscountOf(r[j])
    ensures f.sortBy == Newest ==>
              forall i, j :: 0 <= i < j < |r| ==> r[i].createdAt >= r[j].createdAt
  {
    var found := Searched(ps, f.search);
    match f.sortBy
    case DiscountHigh => SortDesc(found, DiscountOf)
    case DiscountLow =>
      var r := SortDesc(found, NegDiscountOf);
      assert forall i, j :: 0 <= i < j < |r| ==> NegDiscountOf(r[i]) >= NegDiscountOf(r[j]);
      r
    case Newest => SortDesc(found, CreatedAtOf)
    case Unsorted => found
  }

  /** The result holds exactly the loaded packages that match the search. */
  lemma ResultIsTheMatches(ps: seq<ExplorePackage>, f: Filters, p: ExplorePackage)
    requires f.search != []
    ensures p in ApplyFilters(ps, f) <==> p in ps && MatchesSearch(p, f.search)
  {
    var r := ApplyFilters(ps, f);
    assert p in r <==> p in multiset(r);
  }

  /** The category filter is not applied: changing it changes nothing. */
  lemma CategoryIgnored(ps: seq<ExplorePackage>, f: Filters, category: string)
    ensures ApplyFilters(ps, f.(category := category)) == ApplyFilters(ps, f)
  {
  }

  /** The search ignores letter case. */
  lemma SearchIgnoresCase(p: ExplorePackage, term: string)
    ensures MatchesSearch(p, Lower(term)) == MatchesSearch(p, term)
  {
    assert Lower(Lower(term)) == Lower(term);
  }

  /** The page's state; the effect keeps the shown list in step with the
      packages and the filters. */
  class ExplorePage {
    var packages: seq<ExplorePackage>
    var filters: Filters
    var filteredPackages: seq<ExplorePackage>

    ghost predicate Valid()
      reads this
    {
      filteredPackages == ApplyFilters(packages, filters)
    }

    constructor()
      ensures Valid() && packages == [] && filters == Filters([], Unsorted, [])
    {
      packages := [];
      filters := Filters([], Unsorted, []);
      filteredPackages := [];
    }

    /** A response arrives: keep the browsable packages, then refilter. */
    method LoadPackages(response: seq<ExplorePackage>)
      modifies this
      ensures Valid()
      ensures packages == Loaded(response) && filters == old(filters)
    {
      packages := Loaded(response);
      filteredPackages := ApplyFilters(packages, filters);
    }

    /** `handleFilterChange`, then the effect. */
    method SetFilters(f: Filters)
      modifies this
      ensures Valid()
      ensures packages == old(packages) && filters == f
    {
      filters := f;
      filteredPackages := ApplyFilters(packages, filters);
    }
  }
}
