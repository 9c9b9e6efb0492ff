/** The `activate_pending_packages` management command
    (backend/packages/management/commands/activate_pending_packages.py):
    a batch run over the package table that deactivates expired active
    packages and hands each business over to its earliest-created approved,
    inactive, complete package.

    The table is an array of package rows; a row's position breaks ties
    between equal creation times. Each queryset is read when the source
    evaluates it: a `for` loop takes its snapshot when it starts, `.first()`
    and `.exists()` read the table as it is at that moment. The lines written
    to stdout become an event log. */
module ActivatePendingPackages {
  import opened Common
  import opened PackageModels

  /** Which rows count as pending. `AsWritten` is the query of the source;
      `SkipExpired` also leaves out rows whose end date has passed, so a
      package deactivated for expiry cannot be picked as its own successor. */
  datatype Policy = AsWritten | SkipExpired

  /** Why a package was activated, after the three success messages. */
  datatype Reason = Automatic | NoActivePackage | AfterExpired

  /** One line written to stdout. */
  datatype Event =
    | LogDeactivated(id: int)
    | LogActivated(id: int, reason: Reason)
    | LogNoPending(business: int)
    | LogSummary(count: nat)
    | LogNothing

  /** The state of a run: the table, `activated_count` and the output so far. */
  datatype RunState = RunState(table: seq<Package>, count: nat, log: seq<Event>)

  /** `end_date` is set and not after today. */
  predicate Expired(p: Package, today: int)
  {
    p.endDate.Some? && p.endDate.value <= today
  }

  /** Active, approved and expired: the first query of the run. */
  predicate ExpiredActive(p: Package, today: int)
  {
    p.isActive && p.status == Approved && Expired(p, today)
  }

  /** Approved, inactive and complete. */
  predicate Waiting(p: Package)
  {
    p.status == Approved && !p.isActive && p.isComplete
  }

  /** A candidate of the "next pending package" query under `policy`. */
  predicate Pending(p: Package, today: int, policy: Policy)
  {
    Waiting(p) && (policy == SkipExpired ==> !Expired(p, today))
  }

  /** Active and approved, of business `b`. */
  predicate ActiveOf(p: Package, b: int)
  {
    p.business == b && p.isActive && p.status == Approved
  }

  /** `filter(business=b, <pending>).order_by('created_at').first()`: the
      pending row of `b` with the smallest creation time, the first such row
      of the table on a tie, or None when `b` has no pending row. */
  function EarliestPending(t: seq<Package>, b: int, today: int, policy: Policy): (r: Option<nat>)
    ensures r.Some? ==> r.value < |t| && t[r.value].business == b && Pending(t[r.value], today, policy)
  {
    if t == [] then None
    else
      var r := EarliestPending(t[..|t| - 1], b, today, policy);
      var last := t[|t| - 1];
      if last.business == b && Pending(last, today, policy) && (r.None? || last.createdAt < t[r.value].createdAt)
      then Some(|t| - 1)
      else r
  }

  /** The row found is no later than any other pending row of the business
      (and before it on a tie), and nothing is found exactly when the
      business has no pending row. */
  lemma {:induction false} EarliestPendingIsEarliest(t: seq<Package>, b: int, today: int, policy: Policy)
    ensures var r := EarliestPending(t, b, today, policy);
      r.Some? ==>
        forall j :: 0 <= j < |t| && t[j].business == b && Pending(t[j], today, policy) ==>
          t[r.value].createdAt < t[j].createdAt || (t[r.value].createdAt == t[j].createdAt && r.value <= j)
    ensures EarliestPending(t, b, today, policy).None? <==>
              forall j :: 0 <= j < |t| ==> !(t[j].business == b && Pending(t[j], today, policy))
  {
    if t != [] {
      var init := t[..|t| - 1];
      EarliestPendingIsEarliest(init, b, today, policy);
      assert forall j :: 0 <= j < |init| ==> init[j] == t[j];
    }
  }

  /** Positions of the rows matched by the first query, in table order. */
  function ExpiredActiveIndices(t: seq<Package>, today: int): (r: seq<nat>)
    ensures forall k :: 0 <= k < |r| ==> r[k] < |t| && ExpiredActive(t[r[k]], today)
    ensures forall i :: 0 <= i < |t| && ExpiredActive(t[i], today) ==> i in r
  {
    if t == [] then []
    else ExpiredActiveIndices(t[..|t| - 1], today) + (if ExpiredActive(t[|t| - 1], today) then [|t| - 1] else [])
  }

  /** Positions of the active approved rows of business `b`, in table order. */
  function ActiveIndices(t: seq<Package>, b: int): (r: seq<nat>)
    ensures forall k :: 0 <= k < |r| ==> r[k] < |t| && ActiveOf(t[r[k]], b)
    ensures forall i :: 0 <= i < |t| && ActiveOf(t[i], b) ==> i in r
  {
    if t == [] then []
    else ActiveIndices(t[..|t| - 1], b) + (if ActiveOf(t[|t| - 1], b) then [|t| - 1] else [])
  }

  /** `.values_list('business').distinct()` of the waiting rows: each
      business with a waiting row once, in order of first appearance. */
  function WaitingBusinesses(t: seq<Package>): (r: seq<int>)
    ensures forall b :: b in r <==> exists i :: 0 <= i < |t| && Waiting(t[i]) && t[i].business == b
    ensures forall k, l :: 0 <= k < l < |r| ==> r[k] != r[l]
  {
    if t == [] then []
    else
      var r := WaitingBusinesses(t[..|t| - 1]);
      var last := t[|t| - 1];
      if Waiting(last) && last.business !in r then r + [last.business] else r
  }

  /** `active_packages.exists()` for business `b`. */
  predicate HasActive(t: seq<Package>, b: int)
  {
    exists i :: 0 <= i < |t| && ActiveOf(t[i], b)
  }

  /** Deactivate row `i`, then activate the earliest pending row of its
      business, if any (lines 25-53 and 93-117). Only the first pass writes a
      line when nothing is found. */
  function Rotate(s: RunState, i: nat, today: int, policy: Policy, reason: Reason, logMissing: bool): (r: RunState)
    requires i < |s.table|
    ensures |r.table| == |s.table|
    ensures s.count <= r.count <= s.count + 1
  {
    var old_ := s.table[i];
    var t := s.table[i := Deactivated(old_)];
    var log := s.log + [LogDeactivated(old_.id)];
    match EarliestPending(t, old_.business, today, policy)
    case Some(j) => RunState(t[j := Activated(t[j])], s.count + 1, log + [LogActivated(t[j].id, reason)])
    case None => RunState(t, s.count, if logMissing then log + [LogNoPending(old_.business)] else log)
  }

  /** The first pass over the snapshot `idx` of expired active rows. */
  function Pass1(s: RunState, idx: seq<nat>, today: int, policy: Policy): (r: RunState)
    requires forall k :: 0 <= k < |idx| ==> idx[k] < |s.table|
    ensures |r.table| == |s.table|
  {
    if idx == [] then s
    else Rotate(Pass1(s, idx[..|idx| - 1], today, policy), idx[|idx| - 1], today, policy, Automatic, true)
  }

  /** The inner loop of the second pass over the snapshot `idx` of a
      business's active rows: an expired one is rotated out. */
  function Recheck(s: RunState, idx: seq<nat>, today: int, policy: Policy): (r: RunState)
    requires forall k :: 0 <= k < |idx| ==> idx[k] < |s.table|
    ensures |r.table| == |s.table|
  {
    if idx == [] then s
    else
      var s' := Recheck(s, idx[..|idx| - 1], today, policy);
      var i := idx[|idx| - 1];
      if Expired(s'.table[i], today) then Rotate(s', i, today, policy, AfterExpired, false) else s'
  }

  /** One iteration of the second pass, for business `b` (lines 64-117). */
  function Visit(s: RunState, b: int, today: int, policy: Policy): (r: RunState)
    ensures |r.table| == |s.table|
  {
    if !HasActive(s.table, b) then
      match EarliestPending(s.table, b, today, policy)
      case Some(j) =>
        RunState(s.table[j := Activated(s.table[j])], s.count + 1, s.log + [LogActivated(s.table[j].id, NoActivePackage)])
      case None => s
    else Recheck(s, ActiveIndices(s.table, b), today, policy)
  }

  /** The second pass over the snapshot `bs` of businesses. */
  function Pass2(s: RunState, bs: seq<int>, today: int, policy: Policy): (r: RunState)
    ensures |r.table| == |s.table|
  {
    if bs == [] then s else Visit(Pass2(s, bs[..|bs| - 1], today, policy), bs[|bs| - 1], today, policy)
  }

  /** The whole run, ending with its summary line. */
  function Handle(t: seq<Package>, today: int, policy: Policy): (r: RunState)
    ensures |r.table| == |t|
  {
    var s1 := Pass1(RunState(t, 0, []), ExpiredActiveIndices(t, today), today, policy);
    var s2 := Pass2(s1, WaitingBusinesses(s1.table), today, policy);
    s2.(log := s2.log + [if s2.count > 0 then LogSummary(s2.count) else LogNothing])
  }

  /** Deactivate `table[i]` and activate its successor, in place. */
  method RotateAt(table: array<Package>, i: nat, today: int, policy: Policy, reason: Reason, logMissing: bool,
                  count: nat, log: seq<Event>)
    returns (count': nat, log': seq<Event>)
    requires i < table.Length
    modifies table
    ensures RunState(table[..], count', log') == Rotate(RunState(old(table[..]), count, log), i, today, policy, reason, logMissing)
  {
    var expiredPackage := table[i];
    table[i] := Deactivated(expiredPackage);
    log' := log + [LogDeactivated(expiredPackage.id)];
    var next := EarliestPending(table[..], expiredPackage.business, today, policy);
    if next.Some? {
      var j := next.value;
      log' := log' + [LogActivated(table[j].id, reason)];
      table[j] := Activated(table[j]);
      count' := count + 1;
    } else {
      count' := count;
      if logMissing {
        log' := log' + [LogNoPending(expiredPackage.business)];
      }
    }
  }

  /** The first pass (lines 17-53), in place. */
  method FirstPass(table: array<Package>, today: int, policy: Policy) returns (count: nat, log: seq<Event>)
    modifies table
    ensures RunState(table[..], count, log)
            == Pass1(RunState(old(table[..]), 0, []), ExpiredActiveIndices(old(table[..]), today), today, policy)
  {
    ghost var t0 := table[..];
    count := 0;
    log := [];
    var expired := ExpiredActiveIndices(table[..], today);
    var k := 0;
    while k < |expired|
      invariant 0 <= k <= |expired|
      invariant table.Length == |t0|
      invariant RunState(table[..], count, log) == Pass1(RunState(t0, 0, []), expired[..k], today, policy)
    {
      ghost var before := RunState(table[..], count, log);
      count, log := RotateAt(table, expired[k], today, policy, Automatic, true, count, log);
      Pass1Advance(RunState(t0, 0, []), expired, k, today, policy, before, RunState(table[..], count, log));
      k := k + 1;
    }
    assert expired[..k] == expired;
  }

  /** One iteration of the second pass (lines 64-117), in place. */
  method VisitAt(table: array<Package>, b: int, today: int, policy: Policy, count: nat, log: seq<Event>)
    returns (count': nat, log': seq<Event>)
    modifies table
    ensures RunState(table[..], count', log') == Visit(RunState(old(table[..]), count, log), b, today, policy)
  {
    var hasActive := HasActive(table[..], b);
    if !hasActive {
      count', log' := ActivateEarliestAt(table, b, today, policy, count, log);
    } else {
      count', log' := RecheckAt(table, b, today, policy, count, log);
    }
  }

  /** Lines 70-87: a business without an active package gets its earliest
      pending one, if any. */
  method ActivateEarliestAt(table: array<Package>, b: int, today: int, policy: Policy, count: nat, log: seq<Event>)
    returns (count': nat, log': seq<Event>)
    requires !HasActive(table[..], b)
    modifies table
    ensures RunState(table[..], count', log') == Visit(RunState(old(table[..]), count, log), b, today, policy)
  {
    count', log' := count, log;
    var first := EarliestPending(table[..], b, today, policy);
    if first.Some? {
      var j := first.value;
      log' := log' + [LogActivated(table[j].id, NoActivePackage)];
      table[j] := Activated(table[j]);
      count' := count' + 1;
    }
  }

  /** Lines 88-117: each active package of the business that has expired
      is rotated out, in place. */
  method RecheckAt(table: array<Package>, b: int, today: int, policy: Policy, count: nat, log: seq<Event>)
    returns (count': nat, log': seq<Event>)
    modifies table
    ensures RunState(table[..], count', log')
            == Recheck(RunState(old(table[..]), count, log), ActiveIndices(old(table[..]), b), today, policy)
  {
    ghost var before := RunState(table[..], count, log);
    count', log' := count, log;
    var actives := ActiveIndices(table[..], b);
    var m := 0;
    while m < |actives|
      invariant 0 <= m <= |actives|
      invariant table.Length == |before.table|
      invariant RunState(table[..], count', log') == Recheck(before, actives[..m], today, policy)
    {
      ghost var current := RunState(table[..], count', log');
      count', log' := RecheckOneAt(table, actives[m], today, policy, count', log');
      RecheckAdvance(before, actives, m, today, policy, current, RunState(table[..], count', log'));
      m := m + 1;
    }
    assert actives[..m] == actives;
  }

  /** One step of lines 88-117: the package at `i` is rotated out when it
      has expired, and left alone otherwise. */
  method RecheckOneAt(table: array<Package>, i: nat, today: int, policy: Policy, count: nat, log: seq<Event>)
    returns (count': nat, log': seq<Event>)
    requires i < table.Length
    modifies table
    ensures var s := RunState(old(table[..]), count, log);
      RunState(table[..], count', log')
      == if Expired(s.table[i], today) then Rotate(s, i, today, policy, AfterExpired, false) else s
  {
    count', log' := count, log;
    if Expired(table[i], today) {
      count', log' := RotateAt(table, i, today, policy, AfterExpired, false, count, log);
    }
  }

  /** `Command.handle`: the batch run on the table in place. It returns
      `activated_count` and the lines written, and leaves the table as the
      specification `Handle` says. */
  method Run(table: array<Package>, today: int, policy: Policy) returns (count: nat, log: seq<Event>)
    modifies table
    ensures var r := Handle(old(table[..]), today, policy);
      table[..] == r.table && count == r.count && log == r.log
  {
    ghost var t0 := table[..];
    count, log := FirstPass(table, today, policy);
    ghost var s1 := RunState(table[..], count, log);
    assert s1 == Pass1(RunState(t0, 0, []), ExpiredActiveIndices(t0, today), today, policy);
    var businesses := WaitingBusinesses(table[..]);
    var k := 0;
    while k < |businesses|
      invariant 0 <= k <= |businesses|
      invariant RunState(table[..], count, log) == Pass2(s1, businesses[..k], today, policy)
    {
      Pass2Step(s1, businesses, k, today, policy);
      count, log := VisitAt(table, businesses[k], today, policy, count, log);
      k := k + 1;
    }
    assert businesses[..k] == businesses;
    ghost var s2 := RunState(table[..], count, log);
    assert s2 == Pass2(s1, WaitingBusinesses(s1.table), today, policy);
    if count > 0 {
      log := log + [LogSummary(count)];
    } else {
      log := log + [LogNothing];
    }
  }

  /** One more rotation extends the first pass by one index. */
  lemma Pass1Advance(s: RunState, idx: seq<nat>, k: nat, today: int, policy: Policy, before: RunState, after: RunState)
    requires k < |idx| && forall j :: 0 <= j < |idx| ==> idx[j] < |s.table|
    requires before == Pass1(s, idx[..k], today, policy)
    requires idx[k] < |before.table| && after == Rotate(before, idx[k], today, policy, Automatic, true)
    ensures after == Pass1(s, idx[..k + 1], today, policy)
  {
    assert idx[..k + 1][..k] == idx[..k];
  }

  /** One more step of the inner loop extends the recheck by one index. */
  lemma RecheckAdvance(s: RunState, idx: seq<nat>, m: nat, today: int, policy: Policy, current: RunState, next: RunState)
    requires m < |idx| && forall j :: 0 <= j < |idx| ==> idx[j] < |s.table|
    requires current == Recheck(s, idx[..m], today, policy)
    requires idx[m] < |current.table|
    requires next == if Expired(current.table[idx[m]], today) then Rotate(current, idx[m], today, policy, AfterExpired, false) else current
    ensures next == Recheck(s, idx[..m + 1], today, policy)
  {
    assert idx[..m + 1][..m] == idx[..m];
  }

  lemma Pass2Step(s: RunState, bs: seq<int>, k: nat, today: int, policy: Policy)
    requires k < |bs|
    ensures Pass2(s, bs[..k + 1], today, policy) == Visit(Pass2(s, bs[..k], today, policy), bs[k], today, policy)
  {
    assert bs[..k + 1][..k] == bs[..k];
  }

  // ----- The summary count -----

  /** Number of activation lines in a log. */
  function Activations(log: seq<Event>): nat
  {
    if log == [] then 0 else Activations(log[..|log| - 1]) + (if log[|log| - 1].LogActivated? then 1 else 0)
  }

  lemma ActivationsSnoc(log: seq<Event>, e: Event)
    ensures Activations(log + [e]) == Activations(log) + (if e.LogActivated? then 1 else 0)
  {
    assert (log + [e])[..|log|] == log;
  }

  /** `activated_count` agrees with the activation lines written so far. */
  predicate Balanced(s: RunState)
  {
    s.count == Activations(s.log)
  }

  lemma RotateBalanced(s: RunState, i: nat, today: int, policy: Policy, reason: Reason, logMissing: bool)
    requires i < |s.table| && Balanced(s)
    ensures Balanced(Rotate(s, i, today, policy, reason, logMissing))
  {
    var old_ := s.table[i];
    var t := s.table[i := Deactivated(old_)];
    var log := s.log + [LogDeactivated(old_.id)];
    ActivationsSnoc(s.log, LogDeactivated(old_.id));
    var next := EarliestPending(t, old_.business, today, policy);
    var r := Rotate(s, i, today, policy, reason, logMissing);
    if next.Some? {
      assert r.log == log + [LogActivated(t[next.value].id, reason)] && r.count == s.count + 1;
      ActivationsSnoc(log, LogActivated(t[next.value].id, reason));
    } else if logMissing {
      assert r.log == log + [LogNoPending(old_.business)] && r.count == s.count;
      ActivationsSnoc(log, LogNoPending(old_.business));
    } else {
      assert r.log == log && r.count == s.count;
    }
  }

  lemma {:induction false} Pass1Balanced(s: RunState, idx: seq<nat>, today: int, policy: Policy)
    requires forall k :: 0 <= k < |idx| ==> idx[k] < |s.table|
    requires Balanced(s)
    ensures Balanced(Pass1(s, idx, today, policy))
  {
    if idx != [] {
      Pass1Balanced(s, idx[..|idx| - 1], today, policy);
      RotateBalanced(Pass1(s, idx[..|idx| - 1], today, policy), idx[|idx| - 1], today, policy, Automatic, true);
    }
  }

  lemma {:induction false} RecheckBalanced(s: RunState, idx: seq<nat>, today: int, policy: Policy)
    requires forall k :: 0 <= k < |idx| ==> idx[k] < |s.table|
    requires Balanced(s)
    ensures Balanced(Recheck(s, idx, today, policy))
  {
    if idx != [] {
      RecheckBalanced(s, idx[..|idx| - 1], today, policy);
      var s' := Recheck(s, idx[..|idx| - 1], today, policy);
      if Expired(s'.table[idx[|idx| - 1]], today) {
        RotateBalanced(s', idx[|idx| - 1], today, policy, AfterExpired, false);
      }
    }
  }

  lemma VisitBalanced(s: RunState, b: int, today: int, policy: Policy)
    requires Balanced(s)
    ensures Balanced(Visit(s, b, today, policy))
  {
    if !HasActive(s.table, b) {
      match EarliestPending(s.table, b, today, policy)
      case Some(j) => ActivationsSnoc(s.log, LogActivated(s.table[j].id, NoActivePackage));
      case None =>
    } else {
      RecheckBalanced(s, ActiveIndices(s.table, b), today, policy);
    }
  }

  lemma {:induction false} Pass2Balanced(s: RunState, bs: seq<int>, today: int, policy: Policy)
    requires Balanced(s)
    ensures Balanced(Pass2(s, bs, today, policy))
  {
    if bs != [] {
      Pass2Balanced(s, bs[..|bs| - 1], today, policy);
      VisitBalanced(Pass2(s, bs[..|bs| - 1], today, policy), bs[|bs| - 1], today, policy);
    }
  }

  /** `activated_count` equals the number of `activate_package` calls, each
      of which writes one activation line, and the summary line reports it. */
  lemma HandleCountsActivations(t: seq<Package>, today: int, policy: Policy)
    ensures var r := Handle(t, today, policy);
      r.count == Activations(r.log)
      && r.log[|r.log| - 1] == (if r.count > 0 then LogSummary(r.count) else LogNothing)
  {
    var s0 := RunState(t, 0, []);
    Pass1Balanced(s0, ExpiredActiveIndices(t, today), today, policy);
    var s1 := Pass1(s0, ExpiredActiveIndices(t, today), today, policy);
    Pass2Balanced(s1, WaitingBusinesses(s1.table), today, policy);
    var s2 := Pass2(s1, WaitingBusinesses(s1.table), today, policy);
    ActivationsSnoc(s2.log, if s2.count > 0 then LogSummary(s2.count) else LogNothing);
  }

  // ----- What the run changes -----

  /** `u` is `t` with, at most, different `is_active` flags. */
  predicate OnlyActiveChanged(t: seq<Package>, u: seq<Package>)
  {
    |u| == |t| && forall i :: 0 <= i < |t| ==> u[i] == t[i].(isActive := u[i].isActive)
  }

  /** `a` is a prefix of `b`: output is only ever appended. */
  predicate Prefix(a: seq<Event>, b: seq<Event>)
  {
    |a| <= |b| && b[..|a|] == a
  }

  /** A step that only flips flags and appends to the output. */
  predicate Grows(s: RunState, r: RunState)
  {
    OnlyActiveChanged(s.table, r.table) && Prefix(s.log, r.log)
  }

  lemma GrowsTrans(a: RunState, b: RunState, c: RunState)
    requires Grows(a, b) && Grows(b, c)
    ensures Grows(a, c)
  {
    assert c.log[..|a.log|] == c.log[..|b.log|][..|a.log|];
  }

  lemma RotateGrows(s: RunState, i: nat, today: int, policy: Policy, reason: Reason, logMissing: bool)
    requires i < |s.table|
    ensures Grows(s, Rotate(s, i, today, policy, reason, logMissing))
  {
    var old_ := s.table[i];
    var t := s.table[i := Deactivated(old_)];
    var log := s.log + [LogDeactivated(old_.id)];
    FlagOnly(s.table, i, Deactivated(old_));
    assert log[..|s.log|] == s.log;
    match EarliestPending(t, old_.business, today, policy)
    case Some(j) =>
      FlagOnly(t, j, Activated(t[j]));
      OnlyActiveTrans(s.table, t, t[j := Activated(t[j])]);
      assert (log + [LogActivated(t[j].id, reason)])[..|s.log|] == s.log;
    case None =>
      assert (log + [LogNoPending(old_.business)])[..|s.log|] == s.log;
  }

  /** A rotation first writes the deactivation of the row it rotates out. */
  lemma RotateLogsDeactivation(s: RunState, i: nat, today: int, policy: Policy, reason: Reason, logMissing: bool)
    requires i < |s.table|
    ensures |s.log| < |Rotate(s, i, today, policy, reason, logMissing).log|
    ensures Rotate(s, i, today, policy, reason, logMissing).log[|s.log|] == LogDeactivated(s.table[i].id)
  {
  }

  /** Replacing one row by a copy that differs at most in its flag. */
  lemma FlagOnly(t: seq<Package>, j: nat, q: Package)
    requires j < |t| && q.(isActive := t[j].isActive) == t[j]
    ensures OnlyActiveChanged(t, t[j := q])
  {
    forall i | 0 <= i < |t|
      ensures t[j := q][i] == t[i].(isActive := t[j := q][i].isActive)
    {
      if i == j {
        assert q == q.(isActive := t[j].isActive).(isActive := q.isActive);
      }
    }
  }

  lemma OnlyActiveTrans(a: seq<Package>, b: seq<Package>, c: seq<Package>)
    requires OnlyActiveChanged(a, b) && OnlyActiveChanged(b, c)
    ensures OnlyActiveChanged(a, c)
  {
    forall i | 0 <= i < |a|
      ensures c[i] == a[i].(isActive := c[i].isActive)
    {
      assert c[i] == b[i].(isActive := c[i].isActive);
      assert b[i] == a[i].(isActive := b[i].isActive);
    }
  }

  lemma {:induction false} Pass1Grows(s: RunState, idx: seq<nat>, today: int, policy: Policy)
    requires forall k :: 0 <= k < |idx| ==> idx[k] < |s.table|
    ensures Grows(s, Pass1(s, idx, today, policy))
  {
    if idx != [] {
      var p := Pass1(s, idx[..|idx| - 1], today, policy);
      Pass1Grows(s, idx[..|idx| - 1], today, policy);
      RotateGrows(p, idx[|idx| - 1], today, policy, Automatic, true);
      GrowsTrans(s, p, Pass1(s, idx, today, policy));
    }
  }

  lemma {:induction false} RecheckGrows(s: RunState, idx: seq<nat>, today: int, policy: Policy)
    requires forall k :: 0 <= k < |idx| ==> idx[k] < |s.table|
    ensures Grows(s, Recheck(s, idx, today, policy))
  {
    if idx != [] {
      var p := Recheck(s, idx[..|idx| - 1], today, policy);
      RecheckGrows(s, idx[..|idx| - 1], today, policy);
      if Expired(p.table[idx[|idx| - 1]], today) {
        RotateGrows(p, idx[|idx| - 1], today, policy, AfterExpired, false);
        GrowsTrans(s, p, Recheck(s, idx, today, policy));
      }
    }
  }

  lemma VisitGrows(s: RunState, b: int, today: int, policy: Policy)
    ensures Grows(s, Visit(s, b, today, policy))
  {
    if HasActive(s.table, b) {
      RecheckGrows(s, ActiveIndices(s.table, b), today, policy);
    }
  }

  lemma {:induction false} Pass2Grows(s: RunState, bs: seq<int>, today: int, policy: Policy)
    ensures Grows(s, Pass2(s, bs, today, policy))
  {
    if bs != [] {
      var p := Pass2(s, bs[..|bs| - 1], today, policy);
      Pass2Grows(s, bs[..|bs| - 1], today, policy);
      VisitGrows(p, bs[|bs| - 1], today, policy);
      GrowsTrans(s, p, Pass2(s, bs, today, policy));
    }
  }

  /** The run only flips `is_active` flags: no row is added, removed or
      otherwise edited. */
  lemma HandleOnlyTogglesActive(t: seq<Package>, today: int, policy: Policy)
    ensures OnlyActiveChanged(t, Handle(t, today, policy).table)
  {
    var s0 := RunState(t, 0, []);
    var s1 := Pass1(s0, ExpiredActiveIndices(t, today), today, policy);
    Pass1Grows(s0, ExpiredActiveIndices(t, today), today, policy);
    Pass2Grows(s1, WaitingBusinesses(s1.table), today, policy);
    GrowsTrans(s0, s1, Pass2(s1, WaitingBusinesses(s1.table), today, policy));
  }

  // ----- Every expired active package is deactivated -----

  lemma {:induction false} Pass1Deactivates(s: RunState, idx: seq<nat>, today: int, policy: Policy)
    requires forall k :: 0 <= k < |idx| ==> idx[k] < |s.table|
    ensures forall k :: 0 <= k < |idx| ==> LogDeactivated(s.table[idx[k]].id) in Pass1(s, idx, today, policy).log
  {
    if idx != [] {
      var idx' := idx[..|idx| - 1];
      var p := Pass1(s, idx', today, policy);
      var r := Pass1(s, idx, today, policy);
      Pass1Deactivates(s, idx', today, policy);
      Pass1LastStep(s, idx, today, policy);
      forall k | 0 <= k < |idx'|
        ensures LogDeactivated(s.table[idx[k]].id) in r.log
      {
        assert idx'[k] == idx[k];
        KeptInLonger(p.log, r.log, LogDeactivated(s.table[idx'[k]].id));
      }
    }
  }

  /** The last rotation of the first pass keeps the output so far and
      writes the deactivation of its row. */
  lemma Pass1LastStep(s: RunState, idx: seq<nat>, today: int, policy: Policy)
    requires idx != [] && forall k :: 0 <= k < |idx| ==> idx[k] < |s.table|
    ensures Prefix(Pass1(s, idx[..|idx| - 1], today, policy).log, Pass1(s, idx, today, policy).log)
    ensures LogDeactivated(s.table[idx[|idx| - 1]].id) in Pass1(s, idx, today, policy).log
  {
    var i := idx[|idx| - 1];
    var p := Pass1(s, idx[..|idx| - 1], today, policy);
    Pass1Grows(s, idx[..|idx| - 1], today, policy);
    assert p.table[i] == s.table[i].(isActive := p.table[i].isActive);
    RotateLogsDeactivation(p, i, today, policy, Automatic, true);
    RotateGrows(p, i, today, policy, Automatic, true);
  }

  lemma KeptInLonger(a: seq<Event>, b: seq<Event>, e: Event)
    requires Prefix(a, b) && e in a
    ensures e in b
  {
    var n :| 0 <= n < |a| && a[n] == e;
    assert b[..|a|][n] == e;
  }

  /** Every package that is active, approved and expired when the run starts
      is deactivated, and a deactivation line is written for it. */
  lemma ExpiredAreDeactivated(t: seq<Package>, today: int, policy: Policy)
    ensures forall i :: 0 <= i < |t| && ExpiredActive(t[i], today) ==> LogDeactivated(t[i].id) in Handle(t, today, policy).log
  {
    var s0 := RunState(t, 0, []);
    var idx := ExpiredActiveIndices(t, today);
    var s1 := Pass1(s0, idx, today, policy);
    var s2 := Pass2(s1, WaitingBusinesses(s1.table), today, policy);
    Pass1Deactivates(s0, idx, today, policy);
    Pass2Grows(s1, WaitingBusinesses(s1.table), today, policy);
    var r := Handle(t, today, policy);
    forall i | 0 <= i < |t| && ExpiredActive(t[i], today)
      ensures LogDeactivated(t[i].id) in r.log
    {
      var k :| 0 <= k < |idx| && idx[k] == i;
      var n :| 0 <= n < |s1.log| && s1.log[n] == LogDeactivated(t[i].id);
      assert s2.log[..|s1.log|][n] == LogDeactivated(t[i].id);
      assert r.log[n] == s2.log[n];
    }
  }

  // ----- An expired package can be its own successor -----

  /** The single package of the counterexample: approved, complete, active,
      and its end date was yesterday. */
  function LonePackage(today: int): Package
  {
    Package(1, 7, Approved, true, true, 0, None, Some(today - 1), None, None, None, [])
  }

  /** As written, the expired package is deactivated and then picked as the
      "next pending package" of its own business: it ends the run active,
      and every run reports one activation. */
  lemma AsWrittenReactivatesExpired(today: int)
    ensures var r := Handle([LonePackage(today)], today, AsWritten);
      r.table[0].isActive && ExpiredActive(r.table[0], today) && r.count == 1
      && r.log == [LogDeactivated(1), LogActivated(1, Automatic), LogSummary(1)]
  {
    var t := [LonePackage(today)];
    var s0 := RunState(t, 0, []);
    assert ExpiredActiveIndices(t, today) == [0];
    assert [0][..0] == [];
    assert EarliestPending([Deactivated(t[0])], 7, today, AsWritten) == Some(0);
    var s1 := Rotate(s0, 0, today, AsWritten, Automatic, true);
    assert s1 == RunState(t, 1, [LogDeactivated(1), LogActivated(1, Automatic)]);
    assert Pass1(s0, [0], today, AsWritten) == s1;
    assert WaitingBusinesses(s1.table) == [];
  }

  /** With expired rows left out of the pending query the same package ends
      the run inactive and nothing is counted. */
  lemma SkipExpiredRetiresExpired(today: int)
    ensures var r := Handle([LonePackage(today)], today, SkipExpired);
      !r.table[0].isActive && r.count == 0
      && r.log == [LogDeactivated(1), LogNoPending(7), LogNothing]
  {
    var t := [LonePackage(today)];
    var s1 := RunState([Deactivated(t[0])], 0, [LogDeactivated(1), LogNoPending(7)]);
    LoneFirstPass(today);
    LoneSecondPass(today, s1);
  }

  lemma LoneFirstPass(today: int)
    ensures Pass1(RunState([LonePackage(today)], 0, []), ExpiredActiveIndices([LonePackage(today)], today), today, SkipExpired)
            == RunState([Deactivated(LonePackage(today))], 0, [LogDeactivated(1), LogNoPending(7)])
  {
    var t := [LonePackage(today)];
    var s0 := RunState(t, 0, []);
    assert ExpiredActiveIndices(t, today) == [0];
    assert [0][..0] == [];
    var d := Deactivated(t[0]);
    assert [d][..0] == [];
    EarliestPendingIsEarliest([d], 7, today, SkipExpired);
    assert EarliestPending([d], 7, today, SkipExpired) == None;
  }

  lemma LoneSecondPass(today: int, s1: RunState)
    requires s1 == RunState([Deactivated(LonePackage(today))], 0, [LogDeactivated(1), LogNoPending(7)])
    ensures Pass2(s1, WaitingBusinesses(s1.table), today, SkipExpired) == s1
  {
    var d := Deactivated(LonePackage(today));
    assert [d][..0] == [];
    assert WaitingBusinesses(s1.table) == [7];
    assert !HasActive(s1.table, 7);
    EarliestPendingIsEarliest([d], 7, today, SkipExpired);
    assert EarliestPending(s1.table, 7, today, SkipExpired) == None;
    assert Visit(s1, 7, today, SkipExpired) == s1;
    assert [7][..0] == [];
    assert Pass2(s1, [7], today, SkipExpired) == Visit(Pass2(s1, [], today, SkipExpired), 7, today, SkipExpired);
  }

  /** Under `SkipExpired` a step never makes a row expired-and-active, and a
      rotated row is no longer active. */
  lemma RotateRetires(s: RunState, i: nat, today: int, reason: Reason, logMissing: bool)
    requires i < |s.table|
    ensures var r := Rotate(s, i, today, SkipExpired, reason, logMissing);
      forall k :: 0 <= k < |r.table| && ExpiredActive(r.table[k], today) ==> k != i && ExpiredActive(s.table[k], today)
  {
  }

  lemma {:induction false} Pass1Retires(s: RunState, idx: seq<nat>, today: int)
    requires forall k :: 0 <= k < |idx| ==> idx[k] < |s.table|
    ensures var r := Pass1(s, idx, today, SkipExpired);
      forall k :: 0 <= k < |r.table| && ExpiredActive(r.table[k], today) ==> ExpiredActive(s.table[k], today) && k !in idx
  {
    if idx != [] {
      var idx' := idx[..|idx| - 1];
      var p := Pass1(s, idx', today, SkipExpired);
      Pass1Retires(s, idx', today);
      RotateRetires(p, idx[|idx| - 1], today, Automatic, true);
      assert idx == idx' + [idx[|idx| - 1]];
    }
  }

  lemma {:induction false} RecheckRetires(s: RunState, idx: seq<nat>, today: int)
    requires forall k :: 0 <= k < |idx| ==> idx[k] < |s.table|
    ensures var r := Recheck(s, idx, today, SkipExpired);
      forall k :: 0 <= k < |r.table| && ExpiredActive(r.table[k], today) ==> ExpiredActive(s.table[k], today)
  {
    if idx != [] {
      var p := Recheck(s, idx[..|idx| - 1], today, SkipExpired);
      RecheckRetires(s, idx[..|idx| - 1], today);
      if Expired(p.table[idx[|idx| - 1]], today) {
        RotateRetires(p, idx[|idx| - 1], today, AfterExpired, false);
      }
    }
  }

  lemma VisitRetires(s: RunState, b: int, today: int)
    ensures var r := Visit(s, b, today, SkipExpired);
      forall k :: 0 <= k < |r.table| && ExpiredActive(r.table[k], today) ==> ExpiredActive(s.table[k], today)
  {
    if HasActive(s.table, b) {
      RecheckRetires(s, ActiveIndices(s.table, b), today);
    }
  }

  lemma {:induction false} Pass2Retires(s: RunState, bs: seq<int>, today: int)
    ensures var r := Pass2(s, bs, today, SkipExpired);
      forall k :: 0 <= k < |r.table| && ExpiredActive(r.table[k], today) ==> ExpiredActive(s.table[k], today)
  {
    if bs != [] {
      var p := Pass2(s, bs[..|bs| - 1], today, SkipExpired);
      Pass2Retires(s, bs[..|bs| - 1], today);
      VisitRetires(p, bs[|bs| - 1], today);
    }
  }

  /** With expired rows left out of the pending query, no approved package
      is still active after its end date when the run ends. */
  lemma SkipExpiredLeavesNoExpiredActive(t: seq<Package>, today: int)
    ensures var r := Handle(t, today, SkipExpired);
      forall k :: 0 <= k < |r.table| ==> !ExpiredActive(r.table[k], today)
  {
    var s0 := RunState(t, 0, []);
    var s1 := Pass1(s0, ExpiredActiveIndices(t, today), today, SkipExpired);
    Pass1Retires(s0, ExpiredActiveIndices(t, today), today);
    Pass2Retires(s1, WaitingBusinesses(s1.table), today);
  }

  // ----- The second pass for a business without an active package -----

  /** A business with no active approved package gets exactly one
      activation, of its earliest-created pending package, or none when it
      has no pending package. */
  lemma VisitWithoutActive(s: RunState, b: int, today: int, policy: Policy)
    requires !HasActive(s.table, b)
    ensures var r := Visit(s, b, today, policy);
      (forall j :: 0 <= j < |s.table| ==> !(s.table[j].business == b && Pending(s.table[j], today, policy))) ==> r == s
    ensures var r := Visit(s, b, today, policy);
      (exists j :: 0 <= j < |s.table| && s.table[j].business == b && Pending(s.table[j], today, policy)) ==>
        r.count == s.count + 1
        && exists j :: 0 <= j < |s.table| && s.table[j].business == b && Pending(s.table[j], today, policy)
             && r.table == s.table[j := s.table[j].(isActive := true)]
             && (forall k :: 0 <= k < |s.table| && s.table[k].business == b && Pending(s.table[k], today, policy) ==>
                   s.table[j].createdAt <= s.table[k].createdAt)
  {
    EarliestPendingIsEarliest(s.table, b, today, policy);
    var e := EarliestPending(s.table, b, today, policy);
    if e.Some? {
      var j := e.value;
      assert Visit(s, b, today, policy).table == s.table[j := s.table[j].(isActive := true)];
    }
  }

  // ----- start_date is never consulted -----

  /** `u` is `t` with, at most, different start dates. */
  predicate SameButStart(t: seq<Package>, u: seq<Package>)
  {
    |u| == |t| && forall i :: 0 <= i < |t| ==> u[i] == t[i].(startDate := u[i].startDate)
  }

  predicate Related(s: RunState, s': RunState)
  {
    SameButStart(s.table, s'.table) && s.count == s'.count && s.log == s'.log
  }

  lemma {:induction false} EarliestIgnoresStart(t: seq<Package>, u: seq<Package>, b: int, today: int, policy: Policy)
    requires SameButStart(t, u)
    ensures EarliestPending(t, b, today, policy) == EarliestPending(u, b, today, policy)
  {
    if t != [] {
      EarliestIgnoresStart(t[..|t| - 1], u[..|u| - 1], b, today, policy);
    }
  }

  lemma {:induction false} ExpiredIndicesIgnoreStart(t: seq<Package>, u: seq<Package>, today: int)
    requires SameButStart(t, u)
    ensures ExpiredActiveIndices(t, today) == ExpiredActiveIndices(u, today)
  {
    if t != [] {
      ExpiredIndicesIgnoreStart(t[..|t| - 1], u[..|u| - 1], today);
    }
  }

  lemma {:induction false} ActiveIndicesIgnoreStart(t: seq<Package>, u: seq<Package>, b: int)
    requires SameButStart(t, u)
    ensures ActiveIndices(t, b) == ActiveIndices(u, b)
  {
    if t != [] {
      ActiveIndicesIgnoreStart(t[..|t| - 1], u[..|u| - 1], b);
    }
  }

  lemma {:induction false} BusinessesIgnoreStart(t: seq<Package>, u: seq<Package>)
    requires SameButStart(t, u)
    ensures WaitingBusinesses(t) == WaitingBusinesses(u)
  {
    if t != [] {
      BusinessesIgnoreStart(t[..|t| - 1], u[..|u| - 1]);
    }
  }

  lemma RotateIgnoresStart(s: RunState, s': RunState, i: nat, today: int, policy: Policy, reason: Reason, logMissing: bool)
    requires Related(s, s') && i < |s.table|
    ensures Related(Rotate(s, i, today, policy, reason, logMissing), Rotate(s', i, today, policy, reason, logMissing))
  {
    EarliestIgnoresStart(s.table[i := Deactivated(s.table[i])], s'.table[i := Deactivated(s'.table[i])],
                         s.table[i].business, today, policy);
  }

  lemma {:induction false} Pass1IgnoresStart(s: RunState, s': RunState, idx: seq<nat>, today: int, policy: Policy)
    requires Related(s, s')
    requires forall k :: 0 <= k < |idx| ==> idx[k] < |s.table|
    ensures Related(Pass1(s, idx, today, policy), Pass1(s', idx, today, policy))
  {
    if idx != [] {
      Pass1IgnoresStart(s, s', idx[..|idx| - 1], today, policy);
      RotateIgnoresStart(Pass1(s, idx[..|idx| - 1], today, policy), Pass1(s', idx[..|idx| - 1], today, policy),
                         idx[|idx| - 1], today, policy, Automatic, true);
    }
  }

  lemma {:induction false} RecheckIgnoresStart(s: RunState, s': RunState, idx: seq<nat>, today: int, policy: Policy)
    requires Related(s, s')
    requires forall k :: 0 <= k < |idx| ==> idx[k] < |s.table|
    ensures Related(Recheck(s, idx, today, policy), Recheck(s', idx, today, policy))
  {
    if idx != [] {
      var p := Recheck(s, idx[..|idx| - 1], today, policy);
      var p' := Recheck(s', idx[..|idx| - 1], today, policy);
      RecheckIgnoresStart(s, s', idx[..|idx| - 1], today, policy);
      var i := idx[|idx| - 1];
      assert p'.table[i] == p.table[i].(startDate := p'.table[i].startDate);
      if Expired(p.table[i], today) {
        RotateIgnoresStart(p, p', i, today, policy, AfterExpired, false);
      }
    }
  }

  lemma VisitIgnoresStart(s: RunState, s': RunState, b: int, today: int, policy: Policy)
    requires Related(s, s')
    ensures Related(Visit(s, b, today, policy), Visit(s', b, today, policy))
  {
    HasActiveIgnoresStart(s.table, s'.table, b);
    if HasActive(s.table, b) {
      ActiveIndicesIgnoreStart(s.table, s'.table, b);
      RecheckIgnoresStart(s, s', ActiveIndices(s.table, b), today, policy);
    } else {
      EarliestIgnoresStart(s.table, s'.table, b, today, policy);
      match EarliestPending(s.table, b, today, policy)
      case Some(j) => ActivateIgnoresStart(s.table, s'.table, j);
      case None =>
    }
  }

  lemma HasActiveIgnoresStart(t: seq<Package>, u: seq<Package>, b: int)
    requires SameButStart(t, u)
    ensures HasActive(t, b) == HasActive(u, b)
  {
    if HasActive(t, b) {
      var i :| 0 <= i < |t| && ActiveOf(t[i], b);
      assert ActiveOf(u[i], b);
    }
    if HasActive(u, b) {
      var i :| 0 <= i < |u| && ActiveOf(u[i], b);
      assert u[i] == t[i].(startDate := u[i].startDate);
    }
  }

  lemma ActivateIgnoresStart(t: seq<Package>, u: seq<Package>, j: nat)
    requires SameButStart(t, u) && j < |t|
    ensures SameButStart(t[j := Activated(t[j])], u[j := Activated(u[j])])
    ensures t[j].id == u[j].id
  {
    assert u[j] == t[j].(startDate := u[j].startDate);
  }

  lemma {:induction false} Pass2IgnoresStart(s: RunState, s': RunState, bs: seq<int>, today: int, policy: Policy)
    requires Related(s, s')
    ensures Related(Pass2(s, bs, today, policy), Pass2(s', bs, today, policy))
  {
    if bs != [] {
      Pass2IgnoresStart(s, s', bs[..|bs| - 1], today, policy);
      VisitIgnoresStart(Pass2(s, bs[..|bs| - 1], today, policy), Pass2(s', bs[..|bs| - 1], today, policy),
                        bs[|bs| - 1], today, policy);
    }
  }

  /** Start dates play no part in the run: two tables that differ only in
      `start_date` get the same count, the same output and the same flags. */
  lemma StartDateIrrelevant(t: seq<Package>, u: seq<Package>, today: int, policy: Policy)
    requires SameButStart(t, u)
    ensures Related(Handle(t, today, policy), Handle(u, today, policy))
  {
    var s0 := RunState(t, 0, []);
    var s0' := RunState(u, 0, []);
    ExpiredIndicesIgnoreStart(t, u, today);
    Pass1IgnoresStart(s0, s0', ExpiredActiveIndices(t, today), today, policy);
    var s1 := Pass1(s0, ExpiredActiveIndices(t, today), today, policy);
    var s1' := Pass1(s0', ExpiredActiveIndices(u, today), today, policy);
    BusinessesIgnoreStart(s1.table, s1'.table);
    Pass2IgnoresStart(s1, s1', WaitingBusinesses(s1.table), today, policy);
  }
}
