/** frontend/src/components/ProfileGuard.tsx: customers and business users
    whose profile is known to be incomplete are sent to the profile page
    before they can use the dashboard. */
module ProfileGuard {
  import opened Common

  /** The signed-in user: `kind` is the `type` field, and
      `isProfileComplete` may be unknown. */
  datatype ProfileUser = ProfileUser(kind: string, isProfileComplete: Option<bool>)

  datatype Outcome = RedirectTo(path: string) | Children

  const HomePath := "/"
  const ProfilePath := "/dashboard/profile"

  /** A customer or business user whose profile is known to be incomplete. */
  predicate MustCompleteProfile(u: ProfileUser)
  {
    (u.kind == "customer" || u.kind == "business") && u.isProfileComplete == Some(false)
  }

  /** `ProfileGuard`. */
  function Guard(user: Option<ProfileUser>, allowProfileAccess: bool): (r: Outcome)
    ensures r == RedirectTo(HomePath) <==> user.None?
    ensures r == RedirectTo(ProfilePath) <==> user.Some? && !allowProfileAccess && MustCompleteProfile(user.value)
    ensures r == Children <==> user.Some? && (allowProfileAccess || !MustCompleteProfile(user.value))
  {
    if user.None? then RedirectTo(HomePath)
    else if allowProfileAccess then Children
    else if user.value.kind == "customer" && user.value.isProfileComplete == Some(false) then RedirectTo(ProfilePath)
    else if user.value.kind == "business" && user.value.isProfileComplete == Some(false) then RedirectTo(ProfilePath)
    else Children
  }

  /** The profile page itself lets every signed-in user in, so the redirect
      to it is never refused again, and allowing access only lets more
      users through. */
  lemma ProfilePageAlwaysReachable(user: Option<ProfileUser>)
    ensures user.Some? ==> Guard(user, true) == Children
    ensures Guard(user, false) == Children ==> Guard(user, true) == Children
  {
  }

  /** Once the profile is marked complete, or while completeness is
      unknown, the guard lets the user through. */
  lemma CompletedProfilePasses(u: ProfileUser, allowProfileAccess: bool)
    requires u.isProfileComplete != Some(false)
    ensures Guard(Some(u), allowProfileAccess) == Children
  {
  }

  /** Users of the other roles are never sent to complete a profile. */
  lemma OtherRolesPass(u: ProfileUser, allowProfileAccess: bool)
    requires u.kind != "customer" && u.kind != "business"
    ensures Guard(Some(u), allowProfileAccess) == Children
  {
  }
}
