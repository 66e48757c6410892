/** The request middleware: a routing decision over the request path and
    the `user` cookie. */
module Middleware {
  import opened Wrappers
  import opened Strings

  const PublicPaths: seq<string> :=
    ["/login", "/register", "/forgot-password", "/reset-password", "/terms", "/privacy", "/about"]

  const PremiumPaths: seq<string> := ["/premium", "/analytics", "/advanced-features"]

  /** The parsed `user` cookie: its verification status (None when the key
      is missing or not a string), the truthiness of `isPremium`, its
      `lastActive` stamp and every other field, kept verbatim. */
  datatype CookieUser = CookieUser(
    verificationStatus: Option<string>,
    isPremium: bool,
    lastActive: Option<string>,
    otherFields: map<string, string>)

  /** What `JSON.parse` makes of the cookie: no cookie, a value that does
      not parse, a value that parses to something falsy, or a user. */
  datatype Cookie = NoCookie | Malformed | Falsy | UserCookie(user: CookieUser)

  /** The response: pass through, pass through while rewriting the cookie,
      or redirect (deleting the cookie or not). */
  datatype Decision =
    | Next
    | NextWithCookie(user: CookieUser)
    | Redirect(location: string, deleteCookie: bool)

  predicate StartsWithAny(pathname: string, prefixes: seq<string>)
  {
    exists p :: p in prefixes && StartsWith(pathname, p)
  }

  /** `middleware`, with the clock's ISO text `now` as a parameter. */
  function Decide(pathname: string, cookie: Cookie, now: string): Decision
  {
    if StartsWithAny(pathname, PublicPaths) then Next
    else if !cookie.UserCookie? then
      if pathname != "/login" then Redirect("/login", false) else Next
    else
      var user := cookie.user;
      if user.verificationStatus == Some("banned") then
        if pathname != "/banned" then Redirect("/banned", true) else Next
      else if StartsWithAny(pathname, PremiumPaths) && !user.isPremium then
        Redirect("/premium-required", false)
      else if pathname == "/login" || pathname == "/register" then Redirect("/", false)
      else NextWithCookie(user.(lastActive := Some(now)))
  }

  /** Public prefixes pass every request through, whatever the cookie. */
  lemma PublicAlwaysPasses(pathname: string, cookie: Cookie, now: string)
    requires StartsWithAny(pathname, PublicPaths)
    ensures Decide(pathname, cookie, now) == Next
  {
  }

  /** The match is by prefix: '/aboutus' is public. */
  lemma PrefixMatchIsPublic(cookie: Cookie, now: string)
    ensures Decide("/aboutus", cookie, now) == Next
  {
    assert StartsWith("/aboutus", "/about");
  }

  /** The complete decision on a non-public path. Requests without a usable
      user go to '/login'; banned users go to '/banned' with the cookie
      cleared, except on '/banned' itself; non-premium users on a premium
      path go to '/premium-required'; everyone else proceeds with only
      `lastActive` changed in the cookie. */
  lemma NonPublicDecision(pathname: string, cookie: Cookie, now: string)
    requires !StartsWithAny(pathname, PublicPaths)
    ensures Decide(pathname, cookie, now) ==
      if !cookie.UserCookie? then Redirect("/login", false)
      else if cookie.user.verificationStatus == Some("banned") then
        (if pathname == "/banned" then Next else Redirect("/banned", true))
      else if StartsWithAny(pathname, PremiumPaths) && !cookie.user.isPremium then
        Redirect("/premium-required", false)
      else NextWithCookie(cookie.user.(lastActive := Some(now)))
  {
    assert "/login" in PublicPaths && StartsWith("/login", "/login");
    assert "/register" in PublicPaths && StartsWith("/register", "/register");
  }

  /** The redirect of signed-in users away from '/login' and '/register' never
      happens: both paths are public. */
  lemma AuthPageRedirectUnreachable(pathname: string, cookie: Cookie, now: string)
    ensures Decide(pathname, cookie, now) != Redirect("/", false)
  {
    if !StartsWithAny(pathname, PublicPaths) {
      NonPublicDecision(pathname, cookie, now);
    }
  }

  /** The ban check precedes the premium check: a banned premium-path
      request goes to '/banned', never to '/premium-required'. */
  lemma BanBeforePremium(pathname: string, user: CookieUser, now: string)
    requires !StartsWithAny(pathname, PublicPaths) && pathname != "/banned"
    requires user.verificationStatus == Some("banned")
    ensures Decide(pathname, UserCookie(user), now) == Redirect("/banned", true)
  {
  }

  /** Only a banned user's redirect deletes the cookie. */
  lemma OnlyBanDeletesCookie(pathname: string, cookie: Cookie, now: string)
    requires Decide(pathname, cookie, now).Redirect? && Decide(pathname, cookie, now).deleteCookie
    ensures cookie.UserCookie? && cookie.user.verificationStatus == Some("banned")
  {
  }
}
