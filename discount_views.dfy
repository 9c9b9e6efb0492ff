/** DiscountViewSet (backend/discounts/views.py): which discounts a user can
    reach, the soft destroy, `rate` (an upsert of the caller's score),
    `comment` (one live comment per customer and discount) and the business
    dashboard counts. `now` is a parameter. */
module DiscountViews {
  import opened Common
  import opened DiscountModels
  import opened DiscountSerializers

  /** The filters of `get_queryset`: never a deleted discount; a business
      user only its own (none without a profile), everyone else only the
      discounts whose window contains `now`. */
  predicate Visible(u: User, x: Discount, now: int)
  {
    !x.isDeleted
    && if u.role == Business then u.businessProfile == Some(x.business) else x.startDate <= now <= x.endDate
  }

  /** `get_queryset`: the visible discounts, newest first. */
  function Queryset(u: User, discounts: seq<Discount>, now: int): (r: seq<Discount>)
    ensures forall x :: x in r <==> x in discounts && Visible(u, x, now)
    ensures SortedDesc(r, CreatedAt)
    ensures multiset(r) == multiset(Filter(discounts, (x: Discount) => Visible(u, x, now)))
  {
    var kept := Filter(discounts, (x: Discount) => Visible(u, x, now));
    var r := SortDesc(kept, CreatedAt);
    SameElements(r, kept);
    r
  }

  /** A soft-deleted discount is reachable by nobody. */
  lemma DeletedNeverListed(u: User, discounts: seq<Discount>, now: int, x: Discount)
    requires x.isDeleted
    ensures x !in Queryset(u, discounts, now)
  {
  }

  /** `get_object`: the reachable discount with primary key `pk`; None is a 404. */
  function FindDiscount(s: seq<Discount>, pk: int): (r: Option<Discount>)
    ensures r.Some? ==> r.value in s && r.value.id == pk
    ensures r.None? <==> forall x :: x in s ==> x.id != pk
  {
    FindById(s, (x: Discount) => x.id, pk)
  }

  /** The position of the row with primary key `pk`. */
  function IndexOfDiscount(s: seq<Discount>, pk: int): (r: Option<nat>)
    ensures r.Some? ==> r.value < |s| && s[r.value].id == pk
    ensures r.None? ==> forall x :: x in s ==> x.id != pk
  {
    if s == [] then None
    else if s[|s| - 1].id == pk then Some(|s| - 1)
    else
      var r := IndexOfDiscount(s[..|s| - 1], pk);
      assert forall x :: x in s ==> x in s[..|s| - 1] || x == s[|s| - 1];
      r
  }

  /** `destroy`: a discount the user cannot reach is a 404; one that is not
      the caller's business's is a 403 (the owner permission); otherwise
      the row is kept and marked deleted. */
  method Destroy(u: User, db: DiscountDb, pk: int, now: int) returns (st: Status)
    requires db.Valid()
    modifies db`discounts
    ensures db.Valid()
    ensures st != NoContent ==> db.discounts == old(db.discounts)
    ensures FindDiscount(Queryset(u, old(db.discounts), now), pk).None? ==> st == NotFound
    ensures FindDiscount(Queryset(u, old(db.discounts), now), pk).Some? ==>
              var x := FindDiscount(Queryset(u, old(db.discounts), now), pk).value;
              (u.businessProfile != Some(x.business) ==> st == Forbidden)
              && (u.businessProfile == Some(x.business) ==>
                    st == NoContent
                    && exists i :: 0 <= i < |old(db.discounts)| && old(db.discounts)[i] == x
                                   && db.discounts == old(db.discounts)[i := x.(isDeleted := true)])
  {
    var found := FindDiscount(Queryset(u, db.discounts, now), pk);
    if found.None? {
      return NotFound;
    }
    if u.businessProfile != Some(found.value.business) {
      return Forbidden;
    }
    var i := IndexOfDiscount(db.discounts, pk);
    assert found.value in db.discounts;
    var k :| 0 <= k < |db.discounts| && db.discounts[k] == found.value;
    assert i.Some?;
    assert DiscountId(db.discounts[k]) == DiscountId(db.discounts[i.value]);
    db.DeleteDiscount(i.value);
    return NoContent;
  }

  /** The position of the score row of a (discount, user) pair. */
  function ScoreIndex(scores: seq<DiscountScore>, key: (int, int)): (r: Option<nat>)
    ensures r.Some? ==> r.value < |scores| && ScoreKey(scores[r.value]) == key
    ensures r.None? <==> forall s :: s in scores ==> ScoreKey(s) != key
  {
    if scores == [] then None
    else if ScoreKey(scores[0]) == key then Some(0)
    else
      var r := ScoreIndex(scores[1..], key);
      if r.Some? then Some(r.value + 1) else None
  }

  /** get_or_create, then overwrite: the pair's row now holds `s`, every
      other row is kept, and uniqueness per pair is preserved. */
  function Upsert(scores: seq<DiscountScore>, s: DiscountScore): (r: seq<DiscountScore>)
    ensures s in r
    ensures forall x :: x in r ==> x == s || x in scores
    ensures UniqueBy(scores, ScoreKey) ==>
              (forall x :: x in r ==> x == s || (x in scores && ScoreKey(x) != ScoreKey(s)))
              && (forall x :: x in scores && ScoreKey(x) != ScoreKey(s) ==> x in r)
              && UniqueBy(r, ScoreKey)
    ensures |r| == |scores| + (if ScoreIndex(scores, ScoreKey(s)).Some? then 0 else 1)
  {
    match ScoreIndex(scores, ScoreKey(s))
    case Some(i) =>
      var r := scores[i := s];
      assert r[i] == s;
      assert forall j :: 0 <= j < |r| && j != i ==> r[j] == scores[j];
      assert UniqueBy(scores, ScoreKey) ==> forall j :: 0 <= j < |scores| && j != i ==> ScoreKey(scores[j]) != ScoreKey(s);
      r
    case None => scores + [s]
  }

  /** Rating twice: the second score replaces the first, as if only it had
      been given. */
  lemma RateLastWins(scores: seq<DiscountScore>, a: DiscountScore, b: DiscountScore)
    requires ScoreKey(a) == ScoreKey(b)
    ensures Upsert(Upsert(scores, a), b) == Upsert(scores, b)
  {
    var once := Upsert(scores, a);
    match ScoreIndex(scores, ScoreKey(a))
    case Some(i) =>
      assert ScoreIndex(once, ScoreKey(b)) == Some(i) by {
        ScoreIndexUnchanged(scores, i, a);
      }
    case None =>
      assert ScoreIndex(once, ScoreKey(b)) == Some(|scores|) by {
        ScoreIndexAppended(scores, a);
      }
  }

  /** Replacing the row found for a key by a row with the same key leaves
      it the row found. */
  lemma {:induction false} ScoreIndexUnchanged(scores: seq<DiscountScore>, i: nat, a: DiscountScore)
    requires ScoreIndex(scores, ScoreKey(a)) == Some(i)
    ensures ScoreIndex(scores[i := a], ScoreKey(a)) == Some(i)
  {
    if i > 0 {
      assert ScoreKey(scores[0]) != ScoreKey(a);
      assert scores[i := a][1..] == scores[1..][i - 1 := a];
      ScoreIndexUnchanged(scores[1..], i - 1, a);
    }
  }

  /** A key absent from the table is found at the row appended for it. */
  lemma {:induction false} ScoreIndexAppended(scores: seq<DiscountScore>, a: DiscountScore)
    requires ScoreIndex(scores, ScoreKey(a)).None?
    ensures ScoreIndex(scores + [a], ScoreKey(a)) == Some(|scores|)
  {
    if scores != [] {
      assert (scores + [a])[1..] == scores[1..] + [a];
      ScoreIndexAppended(scores[1..], a);
    }
  }

  /** What `rate` and `comment` answer before their own work, as written.
      The viewset's `get_permissions` returns only `IsAuthenticated` for
      every action but create, update and destroy, so the
      `IsCustomerOrReadOnly` named on the two actions never runs.
      `get_object` answers 404 for a discount the caller cannot reach;
      then reading `request.user.customerprofile` raises (500) for a caller
      without one. None lets the action go on. */
  function ActionGate(u: User, found: bool): (r: Option<Status>)
    ensures r == Some(NotFound) <==> !found
    ensures r == Some(ServerError) <==> found && u.customerProfile.None?
    ensures r.None? <==> found && u.customerProfile.Some?
  {
    if !found then Some(NotFound)
    else if u.customerProfile.None? then Some(ServerError)
    else None
  }

  /** The gate with `IsCustomerOrReadOnly` honoured: a POST from an account
      without a customer profile is refused (403) before the lookup. */
  function ActionGateCorrected(u: User, found: bool): (r: Option<Status>)
    ensures r == Some(Forbidden) <==> u.customerProfile.None?
    ensures r == Some(NotFound) <==> !found && u.customerProfile.Some?
    ensures r.None? ==> CanComment(true, u.customerProfile)
  {
    if u.customerProfile.None? then Some(Forbidden)
    else if !found then Some(NotFound)
    else None
  }

  /** As written, no caller is ever refused with 403: an account without a
      customer profile gets a 404 or a 500 where the permission meant a
      403. */
  lemma PermissionClassIgnored(u: User, found: bool)
    requires u.customerProfile.None?
    ensures ActionGate(u, found) != Some(Forbidden)
    ensures ActionGate(u, found) != ActionGateCorrected(u, found)
  {
  }

  /** For customers both gates answer alike; they differ only for
      accounts without a customer profile. */
  lemma GatesAgreeForCustomers(u: User, found: bool)
    ensures ActionGate(u, found) == ActionGateCorrected(u, found) <==> u.customerProfile.Some?
  {
  }

  /** The part of `rate` after the gate: a missing or out-of-range score is
      a 400 and changes nothing; otherwise the customer's score of the
      discount is created or overwritten. */
  method SaveScore(db: DiscountDb, pk: int, customer: int, score: Option<int>) returns (st: Status)
    requires db.Valid()
    modifies db`scores
    ensures db.Valid()
    ensures score.None? || !ValidScore(score.value) ==> st == BadRequest && db.scores == old(db.scores)
    ensures score.Some? && ValidScore(score.value) ==>
              st == Ok && db.scores == Upsert(old(db.scores), DiscountScore(pk, customer, score.value))
  {
    if score.None? || !ValidScore(score.value) {
      return BadRequest;
    }
    db.scores := Upsert(db.scores, DiscountScore(pk, customer, score.value));
    return Ok;
  }

  /** `rate`: a discount the caller cannot reach is a 404, and a caller
      without a customer profile then a 500 (see `ActionGate`); a missing
      or out-of-range score a 400; otherwise the caller's score of the
      discount is created or overwritten. */
  method Rate(u: User, db: DiscountDb, pk: int, score: Option<int>, now: int) returns (st: Status)
    requires db.Valid()
    modifies db`scores
    ensures db.Valid()
    ensures st != Ok ==> db.scores == old(db.scores)
    ensures st != Forbidden
    ensures FindDiscount(Queryset(u, db.discounts, now), pk).None? ==> st == NotFound
    ensures FindDiscount(Queryset(u, db.discounts, now), pk).Some? && u.customerProfile.None? ==> st == ServerError
    ensures u.customerProfile.Some? && FindDiscount(Queryset(u, db.discounts, now), pk).Some? ==>
              (score.None? || !ValidScore(score.value) ==> st == BadRequest)
              && (score.Some? && ValidScore(score.value) ==>
                    st == Ok && db.scores == Upsert(old(db.scores), DiscountScore(pk, u.customerProfile.value, score.value)))
  {
    var found := FindDiscount(Queryset(u, db.discounts, now), pk);
    var gate := ActionGate(u, found.Some?);
    if gate.Some? {
      return gate.value;
    }
    st := SaveScore(db, pk, u.customerProfile.value, score);
  }

  /** The outcome of `comment` on the comment table. */
  datatype CommentResult = CommentResult(status: Status, comments: seq<DiscountComment>)

  /** The caller already has a comment on the discount that is not deleted. */
  predicate HasLiveComment(comments: seq<DiscountComment>, key: (int, int))
  {
    exists c :: c in comments && CommentKey(c) == key && !c.isDeleted
  }

  /** The caller has a comment row on the discount, deleted or not. */
  predicate HasCommentRow(comments: seq<DiscountComment>, key: (int, int))
  {
    exists c :: c in comments && CommentKey(c) == key
  }

  /** `comment` as written, on the comment as the serializer cleaned it
      (its text stripped of surrounding whitespace, see `PostComment`):
      refused (400) when a live comment exists or the text is empty;
      otherwise the new row is inserted, and the database's
      (discount, user) constraint refuses it with an integrity error when a
      deleted comment of the pair is still stored. */
  function CommentAsWritten(comments: seq<DiscountComment>, c: DiscountComment): (r: CommentResult)
    ensures HasLiveComment(comments, CommentKey(c)) || c.text == "" ==> r == CommentResult(BadRequest, comments)
    ensures r.status == ServerError <==>
              !HasLiveComment(comments, CommentKey(c)) && c.text != "" && HasCommentRow(comments, CommentKey(c))
    ensures r.status == Created ==> r.comments == comments + [c]
  {
    if HasLiveComment(comments, CommentKey(c)) || c.text == "" then CommentResult(BadRequest, comments)
    else
      match InsertUnique(comments, c, CommentKey)
      case None => CommentResult(ServerError, comments)
      case Some(t) => CommentResult(Created, t)
  }

  /** A customer whose comment was soft-deleted passes the view's check and
      then hits the integrity error: the deleted row still holds the pair. */
  lemma CommentAfterDeleteFails(comments: seq<DiscountComment>, gone: nat, c: DiscountComment)
    requires gone < |comments| && comments[gone].isDeleted && CommentKey(comments[gone]) == CommentKey(c)
    requires forall x :: x in comments && CommentKey(x) == CommentKey(c) ==> x.isDeleted
    requires c.text != ""
    ensures CommentAsWritten(comments, c).status == ServerError
  {
    assert comments[gone] in comments;
  }

  /** The position of the comment row of a (discount, user) pair. */
  function CommentIndex(comments: seq<DiscountComment>, key: (int, int)): (r: Option<nat>)
    ensures r.Some? ==> r.value < |comments| && CommentKey(comments[r.value]) == key
    ensures r.None? <==> forall x :: x in comments ==> CommentKey(x) != key
  {
    if comments == [] then None
    else if CommentKey(comments[0]) == key then Some(0)
    else
      var r := CommentIndex(comments[1..], key);
      if r.Some? then Some(r.value + 1) else None
  }

  /** `comment` with the check and the constraint in agreement: a deleted
      comment of the pair is revived with the new text instead of a second
      row being inserted. */
  function Comment(comments: seq<DiscountComment>, c: DiscountComment): (r: CommentResult)
    requires !c.isDeleted
    ensures r.status == Created || r.status == BadRequest
    ensures r.status == Created <==> !HasLiveComment(comments, CommentKey(c)) && c.text != ""
    ensures r.status == BadRequest ==> r.comments == comments
    ensures r.status == Created ==>
              exists x :: x in r.comments && CommentKey(x) == CommentKey(c) && !x.isDeleted && x.text == c.text
    ensures forall x :: x in comments && CommentKey(x) != CommentKey(c) ==> x in r.comments
    ensures forall x :: x in r.comments && CommentKey(x) != CommentKey(c) ==> x in comments
    ensures UniqueBy(comments, CommentKey) ==> UniqueBy(r.comments, CommentKey)
  {
    if HasLiveComment(comments, CommentKey(c)) || c.text == "" then CommentResult(BadRequest, comments)
    else
      match CommentIndex(comments, CommentKey(c))
      case Some(i) =>
        var revived := comments[i].(text := c.text, isDeleted := false, createdAt := c.createdAt);
        var t := comments[i := revived];
        assert t[i] == revived;
        assert forall j :: 0 <= j < |t| && j != i ==> t[j] == comments[j];
        assert forall j :: 0 <= j < |t| ==> CommentKey(t[j]) == CommentKey(comments[j]);
        CommentResult(Created, t)
      case None =>
        assert (comments + [c])[|comments|] == c;
        CommentResult(Created, comments + [c])
  }

  /** With the revival every request without a live comment succeeds and
      the pair keeps a single row, so at most one live comment. */
  lemma CommentNeverIntegrityError(comments: seq<DiscountComment>, c: DiscountComment)
    requires !c.isDeleted && c.text != ""
    requires UniqueBy(comments, CommentKey)
    requires !HasLiveComment(comments, CommentKey(c))
    ensures Comment(comments, c).status == Created
    ensures UniqueBy(Comment(comments, c).comments, CommentKey)
  {
  }

  /** `comment`: the same gate as `rate` (404, then 500 without a customer
      profile); then the comment table changes as `Comment` says, on the
      text the serializer's `comment` field has stripped of surrounding
      whitespace, so a blank text is refused. */
  method PostComment(u: User, db: DiscountDb, pk: int, text: string, now: int, newId: int) returns (st: Status)
    requires db.Valid()
    modifies db`comments
    ensures db.Valid()
    ensures st != Created ==> db.comments == old(db.comments)
    ensures st != Forbidden
    ensures st == Created || st == BadRequest ==> CanComment(true, u.customerProfile)
    ensures (forall i :: 0 <= i < |text| ==> IsSpace(text[i])) ==> st != Created
    ensures FindDiscount(Queryset(u, db.discounts, now), pk).None? ==> st == NotFound
    ensures FindDiscount(Queryset(u, db.discounts, now), pk).Some? && u.customerProfile.None? ==> st == ServerError
    ensures u.customerProfile.Some? && FindDiscount(Queryset(u, db.discounts, now), pk).Some? ==>
              var r := Comment(old(db.comments), DiscountComment(newId, pk, u.customerProfile.value, Strip(text), false, now));
              st == r.status && db.comments == r.comments
  {
    var found := FindDiscount(Queryset(u, db.discounts, now), pk);
    var gate := ActionGate(u, found.Some?);
    if gate.Some? {
      return gate.value;
    }
    StripBlank(text);
    var r := Comment(db.comments, DiscountComment(newId, pk, u.customerProfile.value, Strip(text), false, now));
    db.comments := r.comments;
    return r.status;
  }

  /** The counts and the recent list of `dashboard_summary`. */
  datatype Summary = Summary(total: nat, active: nat, expired: nat, recent: seq<Discount>)

  predicate OwnLive(x: Discount, business: int)
  {
    x.business == business && !x.isDeleted
  }

  /** The five newest of the business's discounts that are not deleted. */
  function Recent(discounts: seq<Discount>, b: int): (r: seq<Discount>)
    ensures SortedDesc(r, CreatedAt)
    ensures forall x :: x in r ==> x in discounts && OwnLive(x, b)
    ensures |r| <= 5 && |r| <= CountWhere(discounts, (x: Discount) => OwnLive(x, b))
  {
    var kept := Filter(discounts, (x: Discount) => OwnLive(x, b));
    var newest := SortDesc(kept, CreatedAt);
    SameElements(newest, kept);
    var n := if |newest| <= 5 then |newest| else 5;
    assert forall x :: x in newest[..n] ==> x in newest;
    newest[..n]
  }

  /** The recent list is the five newest: all of them when there are fewer,
      and no live discount of the business left out is newer than one
      listed. */
  lemma RecentIsTheNewest(discounts: seq<Discount>, b: int)
    ensures var n := CountWhere(discounts, (x: Discount) => OwnLive(x, b));
      |Recent(discounts, b)| == if n < 5 then n else 5
    ensures var r := Recent(discounts, b);
      forall x, y :: x in r && y in discounts && OwnLive(y, b) && y !in r ==> y.createdAt <= x.createdAt
  {
    var kept := Filter(discounts, (x: Discount) => OwnLive(x, b));
    var newest := SortDesc(kept, CreatedAt);
    SameElements(newest, kept);
    var n := if |newest| <= 5 then |newest| else 5;
    assert Recent(discounts, b) == newest[..n];
    SortedPrefixIsTop(newest, CreatedAt, n);
  }


  /** `dashboard_summary`: 403 for a non-business role and 400 when the
      account has no business profile; otherwise the number of the
      business's discounts that are not deleted, how many of them are
      running and how many have ended, and the five newest. */
  function DashboardSummary(u: User, discounts: seq<Discount>, now: int): (r: (Status, Option<Summary>))
    ensures u.role != Business ==> r == (Forbidden, None)
    ensures u.role == Business && u.businessProfile.None? ==> r == (BadRequest, None)
    ensures u.role == Business && u.businessProfile.Some? ==>
              var b := u.businessProfile.value;
              r.0 == Ok && r.1.Some?
              && r.1.value.total == CountWhere(discounts, (x: Discount) => OwnLive(x, b))
              && r.1.value.active == CountWhere(discounts, (x: Discount) => OwnLive(x, b) && x.startDate <= now <= x.endDate)
              && r.1.value.expired == CountWhere(discounts, (x: Discount) => OwnLive(x, b) && x.endDate < now)
              && SortedDesc(r.1.value.recent, CreatedAt)
              && (forall x :: x in r.1.value.recent ==> x in discounts && OwnLive(x, b))
              && |r.1.value.recent| == (if r.1.value.total < 5 then r.1.value.total else 5)
              && (forall x, y :: x in r.1.value.recent && y in discounts && OwnLive(y, b) && y !in r.1.value.recent
                    ==> y.createdAt <= x.createdAt)
    ensures r.1.Some? ==>
              r.1.value.active + r.1.value.expired <= r.1.value.total
              && |r.1.value.recent| <= 5 && |r.1.value.recent| <= r.1.value.total
  {
    if u.role != Business then (Forbidden, None)
    else if u.businessProfile.None? then (BadRequest, None)
    else
      var b := u.businessProfile.value;
      var own := (x: Discount) => OwnLive(x, b);
      var running := (x: Discount) => OwnLive(x, b) && x.startDate <= now <= x.endDate;
      var ended := (x: Discount) => OwnLive(x, b) && x.endDate < now;
      CountDisjoint(discounts, running, ended, own);
      RecentIsTheNewest(discounts, b);
      var recent := Recent(discounts, b);
      (Ok, Some(Summary(CountWhere(discounts, own), CountWhere(discounts, running), CountWhere(discounts, ended), recent)))
  }
}
