/**
 Where the app navigates once the authentication widget reports back, and
 whether it stores or clears the user. The browser location is an input:
 the current path with its query string, and the `redirect` query
 parameter (`None` when absent).
 */
module AuthRedirect {
  import opened Js

  /** `needle` occurs in `haystack` starting at position `i`. */
  predicate OccursAt(haystack: string, needle: string, i: int) {
    0 <= i <= |haystack| - |needle| && haystack[i..i + |needle|] == needle
  }

  /** `haystack.includes(needle)`. */
  predicate Contains(haystack: string, needle: string) {
    exists i :: 0 <= i <= |haystack| - |needle| && OccursAt(haystack, needle, i)
  }

  /** The path markers of the authentication pages. */
  const AuthMarkers: seq<string> := [
    "/login", "/signup", "/callback", "/error", "/prompt-password", "/reset-password"
  ]

  /** The same pages as bare names, as listed in the no-user redirect check. */
  const AuthNames: seq<string> := [
    "error", "signup", "login", "callback", "prompt-password", "reset-password"
  ]

  predicate IsAuthPage(currentPath: string) {
    || Contains(currentPath, "/login") || Contains(currentPath, "/signup")
    || Contains(currentPath, "/callback") || Contains(currentPath, "/error")
    || Contains(currentPath, "/prompt-password") || Contains(currentPath, "/reset-password")
  }

  predicate ContainsAuthName(currentPath: string) {
    exists j :: 0 <= j < |AuthNames| && Contains(currentPath, AuthNames[j])
  }

  /** `if (redirectPath)`: an empty parameter counts as absent. */
  predicate HasRedirect(redirect: Option<string>) {
    redirect.Some? && redirect.value != ""
  }

  datatype UserAction = SetUser | ClearUser

  datatype Decision = Decision(target: string, action: UserAction)

  /** `onSuccess(user)`, branch for branch. */
  function OnSuccess(currentPath: string, redirect: Option<string>, userPresent: bool): (d: Decision)
    ensures d.action == SetUser <==> userPresent
  {
    var isAuthPage := IsAuthPage(currentPath);
    if userPresent then
      var target :=
        if HasRedirect(redirect) then redirect.value
        else if !isAuthPage then
          if !Contains(currentPath, "/login") && !Contains(currentPath, "/signup") then currentPath
          else "/"
        else "/";
      Decision(target, SetUser)
    else
      var target :=
        if !isAuthPage then
          if Contains(currentPath, "/signup") then "/signup?redirect=" + currentPath
          else if Contains(currentPath, "/login") then "/login?redirect=" + currentPath
          else "/login"
        else if HasRedirect(redirect) then
          if !ContainsAuthName(currentPath) then "/login?redirect=" + redirect.value
          else currentPath
        else if isAuthPage then currentPath
        else "/login";
      Decision(target, ClearUser)
  }

  /** A string that contains `a + b` contains `b`. */
  lemma ContainsTail(s: string, a: string, b: string)
    requires Contains(s, a + b)
    ensures Contains(s, b)
  {
    var i :| 0 <= i <= |s| - |a + b| && OccursAt(s, a + b, i);
    assert s[i + |a|..i + |a| + |b|] == (a + b)[|a|..];
    assert (a + b)[|a|..] == b;
    assert OccursAt(s, b, i + |a|);
  }

  /** Every authentication page contains one of the bare names. */
  lemma AuthPageContainsName(currentPath: string)
    requires IsAuthPage(currentPath)
    ensures ContainsAuthName(currentPath)
  {
    if Contains(currentPath, "/login") {
      assert "/login" == "/" + AuthNames[2];
      ContainsTail(currentPath, "/", AuthNames[2]);
    } else if Contains(currentPath, "/signup") {
      assert "/signup" == "/" + AuthNames[1];
      ContainsTail(currentPath, "/", AuthNames[1]);
    } else if Contains(currentPath, "/callback") {
      assert "/callback" == "/" + AuthNames[3];
      ContainsTail(currentPath, "/", AuthNames[3]);
    } else if Contains(currentPath, "/error") {
      assert "/error" == "/" + AuthNames[0];
      ContainsTail(currentPath, "/", AuthNames[0]);
    } else if Contains(currentPath, "/prompt-password") {
      assert "/prompt-password" == "/" + AuthNames[4];
      ContainsTail(currentPath, "/", AuthNames[4]);
    } else {
      assert "/reset-password" == "/" + AuthNames[5];
      ContainsTail(currentPath, "/", AuthNames[5]);
    }
  }

  /**
   The decision the branches amount to once the unreachable arms are
   dropped: with a user, the redirect, else the current page unless it is
   an authentication page, else the home page; without a user, the login
   page from any other page and the current page on an authentication
   page.
   */
  function Intended(currentPath: string, redirect: Option<string>, userPresent: bool): Decision {
    if userPresent then
      Decision(if HasRedirect(redirect) then redirect.value
               else if IsAuthPage(currentPath) then "/" else currentPath, SetUser)
    else
      Decision(if IsAuthPage(currentPath) then currentPath else "/login", ClearUser)
  }

  /**
   `onSuccess` always decides as `Intended` does: the arms at `'/'` for a
   login or signup path, the `?redirect=` arms for a non-authentication
   page, the login redirect for a page with no auth name and the final
   `'/login'` are never taken.
   */
  lemma OnSuccessIsIntended(currentPath: string, redirect: Option<string>, userPresent: bool)
    ensures OnSuccess(currentPath, redirect, userPresent) == Intended(currentPath, redirect, userPresent)
  {
    if IsAuthPage(currentPath) {
      AuthPageContainsName(currentPath);
    }
  }

  /** A user and a non-empty redirect parameter: go there, whatever the current page. */
  lemma UserFollowsRedirect(currentPath: string, r: string)
    requires r != ""
    ensures OnSuccess(currentPath, Some(r), true) == Decision(r, SetUser)
  {
  }

  /** Without a user, an authentication page is kept even with a redirect parameter. */
  lemma NoUserStaysOnAuthPage(currentPath: string, redirect: Option<string>)
    requires IsAuthPage(currentPath)
    ensures OnSuccess(currentPath, redirect, false) == Decision(currentPath, ClearUser)
  {
    OnSuccessIsIntended(currentPath, redirect, false);
  }

  /** Without a user, any other page sends to the bare login page, without a redirect parameter. */
  lemma NoUserElsewhereGoesToLogin(currentPath: string, redirect: Option<string>)
    requires !IsAuthPage(currentPath)
    ensures OnSuccess(currentPath, redirect, false) == Decision("/login", ClearUser)
  {
  }
}
