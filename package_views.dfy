/** PackageViewSet (backend/packages/views.py): which packages a user may
    reach, and the `toggle_active`, `approve` and `reject` actions. Each
    action saves the package, which runs the post-save handler of
    backend/packages/signals.py on the same instance; `canActivateNow` is
    the answer of `can_activate_immediately()` at that moment. */
module PackageViews {
  import opened Common
  import opened PackageModels
  import opened PackageSignals

  /** `get_queryset`: a business user sees the packages of its own profile,
      or none without a profile; the three staff roles see all; everyone
      else sees none. */
  function Queryset(u: User, t: seq<Package>): (r: seq<Package>)
    ensures u.role == Business && u.businessProfile.None? ==> r == []
    ensures u.role == Business && u.businessProfile.Some? ==>
              forall p :: p in r <==> p in t && p.business == u.businessProfile.value
    ensures IsStaff(u.role) ==> r == t
    ensures u.role != Business && !IsStaff(u.role) ==> r == []
  {
    if u.role == Business then
      if u.businessProfile.Some? then Filter(t, (p: Package) => p.business == u.businessProfile.value) else []
    else if IsStaff(u.role) then t
    else []
  }

  /** `get_object`: the package with primary key `pk` among those the user
      may see, or 404. */
  function GetObject(u: User, t: seq<Package>, pk: int): (r: Option<Package>)
    ensures r.Some? ==> r.value in Queryset(u, t) && r.value.id == pk
    ensures r.None? <==> forall p :: p in Queryset(u, t) ==> p.id != pk
  {
    FindById(Queryset(u, t), (p: Package) => p.id, pk)
  }

  /** A business user only ever reaches its own packages, so the ownership
      checks of `toggle_active`, `perform_update` and `perform_destroy` can
      never fail: another business's package is a 404 before them. */
  lemma ForeignPackageNotFound(u: User, t: seq<Package>, pk: int)
    requires u.role == Business
    requires forall p :: p in t && p.id == pk ==> u.businessProfile != Some(p.business)
    ensures GetObject(u, t, pk).None?
  {
  }

  /** The flag flipped by `toggle_active`. */
  function Toggled(p: Package): (q: Package)
    ensures q.isActive == !p.isActive
    ensures q.(isActive := p.isActive) == p
  {
    p.(isActive := !p.isActive)
  }

  /** Toggling twice restores the package. */
  lemma ToggleTwice(p: Package)
    ensures Toggled(Toggled(p)) == p
  {
  }

  /** `toggle_active`: `get_object` answers 404 for a key the caller cannot
      see, which is every key for a customer and for a business user
      without a profile; the package found is then the business's own, so
      the 400 and 403 branches after `get_object` never fire. The flag is
      negated, whatever the status or completeness, and the instance, the
      row of `t` with key `pk`, is saved. */
  method ToggleActive(u: User, t: seq<Package>, pk: int, instance: PackageInstance, canActivateNow: bool)
    returns (st: Status)
    requires forall p :: p in t && p.id == pk ==> p == instance.row
    modifies instance
    ensures instance.signalProcessing == old(instance.signalProcessing)
    ensures instance.adminOverride == old(instance.adminOverride)
    ensures st == Ok || st == NotFound
    ensures GetObject(u, t, pk).None? ==> st == NotFound && instance.row == old(instance.row)
    ensures GetObject(u, t, pk).Some? ==>
              st == Ok
              && instance.row == AfterSave(Toggled(old(instance.row)),
                                           old(instance.signalProcessing) || old(instance.adminOverride), canActivateNow)
    ensures st == Ok ==> IsStaff(u.role) || (u.role == Business && u.businessProfile == Some(old(instance.row).business))
  {
    var found := GetObject(u, t, pk);
    if found.None? {
      return NotFound;
    }
    assert found.value in t;
    instance.row := Toggled(instance.row);
    var _ := HandlePackageActivation(instance, canActivateNow, false, false);
    return Ok;
  }

  /** Without the admin override the handler that the save runs sets an
      approved complete package back to what `can_activate_immediately()`
      says: when that matches the old flag the toggle is undone. */
  lemma ToggleUndoneBySignal(p: Package, canActivateNow: bool)
    requires p.status == Approved && p.isComplete && canActivateNow == p.isActive
    ensures AfterSave(Toggled(p), false, canActivateNow) == p
  {
  }

  /** For a package the handler does not act on, the toggle is a plain
      negation and a second toggle restores the package. */
  lemma ToggleIsNegation(p: Package, guarded: bool, canActivateNow: bool)
    requires guarded || p.status != Approved || !p.isComplete
    ensures AfterSave(Toggled(p), guarded, canActivateNow) == Toggled(p)
    ensures AfterSave(Toggled(AfterSave(Toggled(p), guarded, canActivateNow)), guarded, canActivateNow) == p
  {
  }

  /** `approve`: only the three staff roles; sets status 'approved' from any
      status and saves, so the handler may then activate the package. */
  method Approve(u: User, instance: PackageInstance, canActivateNow: bool) returns (st: Status)
    modifies instance
    ensures instance.signalProcessing == old(instance.signalProcessing)
    ensures instance.adminOverride == old(instance.adminOverride)
    ensures !IsStaff(u.role) ==> st == Forbidden && instance.row == old(instance.row)
    ensures IsStaff(u.role) ==>
              st == Ok
              && instance.row == AfterSave(old(instance.row).(status := Approved),
                                           old(instance.signalProcessing) || old(instance.adminOverride), canActivateNow)
  {
    if !IsStaff(u.role) {
      return Forbidden;
    }
    instance.row := instance.row.(status := Approved);
    var _ := HandlePackageActivation(instance, canActivateNow, false, false);
    return Ok;
  }

  /** An approved complete package that may be activated ends approval
      active; one that may not ends it inactive. */
  lemma ApproveActivates(p: Package, canActivateNow: bool)
    requires p.isComplete
    ensures var q := AfterSave(p.(status := Approved), false, canActivateNow);
      q.status == Approved && q.isActive == canActivateNow
  {
  }

  /** `reject`: only the three staff roles; sets status 'rejected' from any
      status and saves. */
  method Reject(u: User, instance: PackageInstance, canActivateNow: bool) returns (st: Status)
    modifies instance
    ensures instance.signalProcessing == old(instance.signalProcessing)
    ensures instance.adminOverride == old(instance.adminOverride)
    ensures !IsStaff(u.role) ==> st == Forbidden && instance.row == old(instance.row)
    ensures IsStaff(u.role) ==> st == Ok && instance.row == old(instance.row).(status := Rejected)
  {
    if !IsStaff(u.role) {
      return Forbidden;
    }
    instance.row := instance.row.(status := Rejected);
    var _ := HandlePackageActivation(instance, canActivateNow, false, false);
    return Ok;
  }

  /** The handler ignores a rejected package, so rejecting an active package
      leaves it active. */
  lemma RejectKeepsActiveFlag(p: Package, guarded: bool, canActivateNow: bool)
    ensures AfterSave(p.(status := Rejected), guarded, canActivateNow).isActive == p.isActive
  {
  }
}
