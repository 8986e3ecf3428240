/**
 * The route guard of app/_layout.tsx: which route it replaces the current one
 * with, and whether it renders its children, given the user lookup state and the
 * current route segments. (The root layout has the guard commented out.)
 */
module RouteGuard {
  import opened Wrappers
  import Store

  const AUTH_SEGMENT := "auth"
  const AUTH_ROUTE := "/auth"
  const HOME_ROUTE := "/"

  /** `segments[0] === "auth"`; with no segments the first one is `undefined`. */
  predicate InAuthGroup(segments: seq<string>) {
    |segments| > 0 && segments[0] == AUTH_SEGMENT
  }

  /** The effect's `router.replace` target, if it issues one. */
  function Redirect(isLoadingUser: bool, user: Option<Store.User>, segments: seq<string>): (target: Option<string>)
    ensures isLoadingUser ==> target == None
    ensures target == Some(AUTH_ROUTE) <==> !isLoadingUser && user.None? && !InAuthGroup(segments)
    ensures target == Some(HOME_ROUTE) <==> !isLoadingUser && user.Some? && InAuthGroup(segments)
    ensures target == None || target == Some(AUTH_ROUTE) || target == Some(HOME_ROUTE)
  {
    if isLoadingUser then None
    else if user.None? && !InAuthGroup(segments) then Some(AUTH_ROUTE)
    else if user.Some? && InAuthGroup(segments) then Some(HOME_ROUTE)
    else None
  }

  /** Whether the guard renders its children rather than nothing. */
  function RendersChildren(isLoadingUser: bool, user: Option<Store.User>, segments: seq<string>): (shown: bool)
    ensures shown <==> !isLoadingUser && (user.Some? || InAuthGroup(segments))
  {
    if isLoadingUser then false
    else if user.None? && !InAuthGroup(segments) then false
    else true
  }

  /**
   * Once the user lookup has settled, a visitor without a user outside the sign-in
   * screen is never shown the protected screens and is sent to sign in; every
   * other settled state renders.
   */
  lemma SettledGuardShowsOrSendsToSignIn(user: Option<Store.User>, segments: seq<string>)
    ensures RendersChildren(false, user, segments) <==> Redirect(false, user, segments) != Some(AUTH_ROUTE)
  {
  }
}
