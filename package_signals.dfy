/** The post-save handler of backend/packages/signals.py: after a package is
    saved it activates or deactivates that package, guarded by the
    `_signal_processing` re-entrancy sentinel and the `_admin_override` flag. */
module PackageSignals {
  import opened PackageModels

  /** The lifecycle primitive the handler calls, if any. */
  datatype Call = NoCall | ActivateCall | DeactivateCall

  /** The handler either returns or lets the primitive's exception escape
      (after its `finally` clause has run). */
  datatype SignalResult = Returned(call: Call) | Raised(call: Call)

  /** The effect of a completed primitive call on the row. */
  function Apply(p: Package, c: Call): Package
  {
    match c
    case NoCall => p
    case ActivateCall => Activated(p)
    case DeactivateCall => Deactivated(p)
  }

  /** The handler's choice for an unguarded instance, given the answer of
      `can_activate_immediately()` (a query whose body is not part of the
      model). Only an approved, complete package is acted on; it is activated
      when it may be and is not, deactivated when it may not be and is. */
  function Decision(p: Package, canActivateNow: bool): (c: Call)
    ensures c == ActivateCall <==> p.status == Approved && p.isComplete && canActivateNow && !p.isActive
    ensures c == DeactivateCall <==> p.status == Approved && p.isComplete && !canActivateNow && p.isActive
    ensures c == NoCall <==> p.status != Approved || !p.isComplete || canActivateNow == p.isActive
  {
    if p.status == Approved && p.isComplete then
      if canActivateNow then (if !p.isActive then ActivateCall else NoCall)
      else (if p.isActive then DeactivateCall else NoCall)
    else NoCall
  }

  /** The row after a `save()` of an instance whose handler runs unguarded
      (`guarded` false) or returns at once (`guarded` true), when the
      primitive completes. */
  function AfterSave(p: Package, guarded: bool, canActivateNow: bool): (q: Package)
    ensures q.(isActive := p.isActive) == p
    ensures guarded || p.status != Approved || !p.isComplete ==> q == p
    ensures !guarded && p.status == Approved && p.isComplete ==> q.isActive == canActivateNow
  {
    if guarded then p else Apply(p, Decision(p, canActivateNow))
  }

  /** After the chosen primitive completes, an approved complete package is
      active exactly when it may be activated immediately, and every other
      package is left as it was. */
  lemma DecisionReachesTarget(p: Package, canActivateNow: bool)
    ensures var q := Apply(p, Decision(p, canActivateNow));
      (p.status == Approved && p.isComplete ==> q.isActive == canActivateNow)
      && q.(isActive := p.isActive) == p
  {
  }

  /** A second save with the same answer from can_activate_immediately()
      calls no primitive: the handler is idempotent. */
  lemma DecisionIdempotent(p: Package, canActivateNow: bool)
    ensures Decision(Apply(p, Decision(p, canActivateNow)), canActivateNow) == NoCall
  {
  }

  /** handle_package_activation(sender, instance, created). `primitiveRaises`
      says whether the primitive raises before writing; `primitiveSaves`
      says whether its write goes through `save()` and so fires this handler
      again, re-entrantly, on the same instance. */
  method HandlePackageActivation(instance: PackageInstance, canActivateNow: bool,
                                 primitiveRaises: bool, primitiveSaves: bool)
    returns (r: SignalResult)
    modifies instance
    decreases if instance.signalProcessing then 0 else 1
    ensures instance.signalProcessing == old(instance.signalProcessing)
    ensures instance.adminOverride == old(instance.adminOverride)
    ensures old(instance.signalProcessing) || old(instance.adminOverride) ==>
              r == Returned(NoCall) && instance.row == old(instance.row)
    ensures !old(instance.signalProcessing) && !old(instance.adminOverride) ==>
              r.call == Decision(old(instance.row), canActivateNow)
    ensures r.Raised? ==> primitiveRaises && r.call != NoCall && instance.row == old(instance.row)
    ensures r.Returned? ==> instance.row == Apply(old(instance.row), r.call)
    ensures !primitiveRaises ==>
              r.Returned? && instance.row == AfterSave(old(instance.row), old(instance.signalProcessing) || old(instance.adminOverride), canActivateNow)
  {
    if instance.signalProcessing {
      return Returned(NoCall);
    }
    if instance.adminOverride {
      return Returned(NoCall);
    }
    if instance.row.status == Approved && instance.row.isComplete {
      if canActivateNow {
        if !instance.row.isActive {
          instance.signalProcessing := true;
          if primitiveRaises {
            instance.signalProcessing := false;
            return Raised(ActivateCall);
          }
          instance.ActivatePackage();
          if primitiveSaves {
            var nested := HandlePackageActivation(instance, canActivateNow, primitiveRaises, primitiveSaves);
            assert nested == Returned(NoCall);
          }
          instance.signalProcessing := false;
          return Returned(ActivateCall);
        }
      } else {
        if instance.row.isActive {
          instance.signalProcessing := true;
          if primitiveRaises {
            instance.signalProcessing := false;
            return Raised(DeactivateCall);
          }
          instance.DeactivatePackage();
          if primitiveSaves {
            var nested := HandlePackageActivation(instance, canActivateNow, primitiveRaises, primitiveSaves);
            assert nested == Returned(NoCall);
          }
          instance.signalProcessing := false;
          return Returned(DeactivateCall);
        }
      }
    }
    return Returned(NoCall);
  }
}
