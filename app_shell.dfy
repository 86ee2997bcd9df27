/** The application shell: where to redirect and what to render, from
    whether a user is signed in, whether the session is still loading, and
    the current path. */
module AppShell {

  datatype Redirect = Stay | ToLogin | ToHome

  /** What the shell renders: a spinner, nothing (waiting for a redirect),
      or the page, with or without the bottom navigation. */
  datatype Screen = Spinner | Blank | Page(bottomNav: bool)

  const LOGIN_PATH := "/login"
  const HOME_PATH := "/"

  predicate IsLoginPage(path: string) {
    path == LOGIN_PATH
  }

  /** The redirect the effect dispatches. */
  function RedirectFor(hasUser: bool, isLoading: bool, path: string): (r: Redirect)
    ensures r == ToLogin <==> !isLoading && !hasUser && path != LOGIN_PATH
    ensures r == ToHome <==> !isLoading && hasUser && path == LOGIN_PATH
    ensures isLoading ==> r == Stay
  {
    if isLoading then Stay
    else if !hasUser && !IsLoginPage(path) then ToLogin
    else if hasUser && IsLoginPage(path) then ToHome
    else Stay
  }

  function ScreenFor(hasUser: bool, isLoading: bool, path: string): (s: Screen)
    ensures s == Spinner <==> isLoading
    ensures s == Blank <==> !isLoading && !hasUser && path != LOGIN_PATH
    ensures s.Page? ==> (s.bottomNav <==> hasUser && path != LOGIN_PATH)
  {
    if isLoading then Spinner
    else if !hasUser && !IsLoginPage(path) then Blank
    else Page(!IsLoginPage(path) && hasUser)
  }

  /** A page is never shown to a signed-out visitor outside the login page,
      and the blank screen always comes with a redirect to the login page. */
  lemma GuardedPages(hasUser: bool, isLoading: bool, path: string)
    ensures ScreenFor(hasUser, isLoading, path).Page? && !hasUser ==> path == LOGIN_PATH
    ensures ScreenFor(hasUser, isLoading, path) == Blank ==> RedirectFor(hasUser, isLoading, path) == ToLogin
    ensures ScreenFor(hasUser, isLoading, path) == Page(true) <==> !isLoading && hasUser && path != LOGIN_PATH
  {
  }

  /** Only the exact login path counts as the login page, so a signed-out
      visitor on "/login/" is sent to "/login". */
  lemma LoginPathIsExact()
    ensures RedirectFor(false, false, "/login/") == ToLogin
    ensures RedirectFor(false, false, LOGIN_PATH) == Stay
  {
  }
}
