/**
 * The authentication settings of auth.config.ts: the route guard
 * `callbacks.authorized`, the `jwt` and `session` callbacks that carry the
 * user's role and e-mail verification flag from the signed-in user into the
 * token and from the token into the session, and the session lifetime.
 */
module AuthConfig {
  import opened Wrappers

  datatype Role = Customer | Artisan | Admin

  /**
   * Who is asking: nobody signed in, or a signed-in user whose session
   * carries `role` (absent when the token never received one).
   */
  datatype Visitor = Guest | SignedIn(role: Option<Role>)

  /** `true`, `false` (the framework then sends the visitor to /login) or `Response.redirect(target)`. */
  datatype Decision = Allow | Deny | Redirect(target: string)

  /** session.maxAge: 30 days in seconds. */
  const SessionMaxAge: int := 30 * 24 * 60 * 60

  lemma SessionMaxAgeIsThirtyDays()
    ensures SessionMaxAge == 2592000 && SessionMaxAge / 86400 == 30
  {
  }

  // ---------------------------------------------------------------------
  // authorized
  // ---------------------------------------------------------------------

  /** String.prototype.startsWith: `prefix` matches the first characters of `s` one by one. */
  predicate StartsWith(s: string, prefix: string): (b: bool)
    ensures b <==> |prefix| <= |s| && forall i | 0 <= i < |prefix| :: s[i] == prefix[i]
  {
    |prefix| <= |s| && s[..|prefix|] == prefix
  }

  predicate OnDashboard(pathname: string) {
    StartsWith(pathname, "/dashboard")
  }

  /** Pages for any signed-in user: account and checkout. */
  predicate OnMemberPage(pathname: string) {
    StartsWith(pathname, "/account") || StartsWith(pathname, "/checkout")
  }

  /** Pages for signing in: login and register. */
  predicate OnSignInPage(pathname: string) {
    StartsWith(pathname, "/login") || StartsWith(pathname, "/register")
  }

  predicate IsArtisan(v: Visitor) {
    v.SignedIn? && v.role == Some(Artisan)
  }

  /** Where a signed-in visitor on a sign-in page is sent: the dashboard exactly for artisans, a member page otherwise. */
  function HomeOf(v: Visitor): (home: string)
    ensures OnDashboard(home) <==> IsArtisan(v)
    ensures !IsArtisan(v) ==> OnMemberPage(home)
  {
    assert StartsWith("/dashboard", "/dashboard");
    assert StartsWith("/account", "/account");
    if IsArtisan(v) then "/dashboard" else "/account"
  }

  /**
   * The route guard. The dashboard is for artisans only; account and
   * checkout for anyone signed in; a signed-in visitor on login or register
   * is redirected home; everything else is open.
   */
  function Authorized(visitor: Visitor, pathname: string): (d: Decision)
    ensures OnDashboard(pathname) ==> (d == Allow <==> IsArtisan(visitor)) && !d.Redirect?
    ensures !OnDashboard(pathname) && OnMemberPage(pathname) ==>
      (d == Allow <==> visitor.SignedIn?) && !d.Redirect?
    ensures d.Deny? <==>
      (OnDashboard(pathname) && !IsArtisan(visitor)) || (OnMemberPage(pathname) && visitor.Guest?)
    ensures d.Redirect? <==>
      !OnDashboard(pathname) && !OnMemberPage(pathname) && OnSignInPage(pathname) && visitor.SignedIn?
    ensures d.Redirect? ==> d.target == HomeOf(visitor)
  {
    var isLoggedIn := visitor.SignedIn?;
    if OnDashboard(pathname) then
      if isLoggedIn && visitor.role == Some(Artisan) then Allow else Deny
    else if OnMemberPage(pathname) then
      if isLoggedIn then Allow else Deny
    else if OnSignInPage(pathname) && isLoggedIn then
      if visitor.role == Some(Artisan) then Redirect("/dashboard") else Redirect("/account")
    else
      Allow
  }

  /** Two prefixes whose second characters differ cannot both start one string. */
  lemma SecondCharSeparates(s: string, a: string, b: string)
    requires |a| >= 2 && |b| >= 2 && a[1] != b[1]
    ensures !(StartsWith(s, a) && StartsWith(s, b))
  {
    if StartsWith(s, a) {
      assert s[1] == s[..|a|][1] == a[1];
      if |b| <= |s| {
        assert s[..|b|][1] == s[1];
      }
    }
  }

  /** No two of the five guarded prefixes can both start one path. */
  lemma PrefixesExclusive(pathname: string)
    ensures !(OnDashboard(pathname) && OnMemberPage(pathname))
    ensures !(OnDashboard(pathname) && OnSignInPage(pathname))
    ensures !(OnMemberPage(pathname) && OnSignInPage(pathname))
    ensures !(StartsWith(pathname, "/account") && StartsWith(pathname, "/checkout"))
    ensures !(StartsWith(pathname, "/login") && StartsWith(pathname, "/register"))
  {
    SecondCharSeparates(pathname, "/dashboard", "/account");
    SecondCharSeparates(pathname, "/dashboard", "/checkout");
    SecondCharSeparates(pathname, "/dashboard", "/login");
    SecondCharSeparates(pathname, "/dashboard", "/register");
    SecondCharSeparates(pathname, "/account", "/checkout");
    SecondCharSeparates(pathname, "/account", "/login");
    SecondCharSeparates(pathname, "/account", "/register");
    SecondCharSeparates(pathname, "/checkout", "/login");
    SecondCharSeparates(pathname, "/checkout", "/register");
    SecondCharSeparates(pathname, "/login", "/register");
  }

  /** A redirect never loops: its target admits the same visitor. */
  lemma RedirectTargetAdmits(visitor: Visitor, pathname: string)
    requires Authorized(visitor, pathname).Redirect?
    ensures Authorized(visitor, Authorized(visitor, pathname).target) == Allow
  {
    if IsArtisan(visitor) {
      assert OnDashboard("/dashboard");
    } else {
      assert StartsWith("/account", "/account");
    }
  }

  /** Guests are never redirected; they are turned away exactly on the dashboard, account and checkout pages. */
  lemma GuestDecisions(pathname: string)
    ensures !Authorized(Guest, pathname).Redirect?
    ensures Authorized(Guest, pathname).Deny? <==> OnDashboard(pathname) || OnMemberPage(pathname)
  {
  }

  /** Signing in never closes a page a guest could see: it stays open or turns into a redirect home. */
  lemma SigningInNeverDenies(role: Option<Role>, pathname: string)
    requires Authorized(Guest, pathname) == Allow
    ensures Authorized(SignedIn(role), pathname) == Allow
         || Authorized(SignedIn(role), pathname) == Redirect(HomeOf(SignedIn(role)))
  {
  }

  /** Whatever another visitor may open, an artisan may open too (or is sent home from a sign-in page). */
  lemma ArtisanSeesEverything(visitor: Visitor, pathname: string)
    requires Authorized(visitor, pathname) == Allow
    ensures !Authorized(SignedIn(Some(Artisan)), pathname).Deny?
  {
  }

  lemma StartsWithExtends(s: string, t: string, prefix: string)
    requires StartsWith(s, prefix)
    ensures StartsWith(s + t, prefix)
  {
    assert (s + t)[..|prefix|] == s[..|prefix|];
  }

  /** Matching is by prefix: below a guarded path every sub-path gets the same decision. */
  lemma SubpathsShareDecision(visitor: Visitor, pathname: string, rest: string)
    requires OnDashboard(pathname) || OnMemberPage(pathname) || OnSignInPage(pathname)
    ensures Authorized(visitor, pathname + rest) == Authorized(visitor, pathname)
  {
    var p := pathname + rest;
    PrefixesExclusive(pathname);
    PrefixesExclusive(p);
    if OnDashboard(pathname) {
      StartsWithExtends(pathname, rest, "/dashboard");
    } else if StartsWith(pathname, "/account") {
      StartsWithExtends(pathname, rest, "/account");
    } else if StartsWith(pathname, "/checkout") {
      StartsWithExtends(pathname, rest, "/checkout");
    } else if StartsWith(pathname, "/login") {
      StartsWithExtends(pathname, rest, "/login");
    } else {
      StartsWithExtends(pathname, rest, "/register");
    }
  }

  // ---------------------------------------------------------------------
  // jwt and session
  // ---------------------------------------------------------------------

  /** The user record a sign-in hands to the jwt callback. */
  datatype AuthUser = AuthUser(id: string, name: string, email: string, role: Role, emailVerified: bool)

  /** The JWT payload; `role` and `emailVerified` are absent until a sign-in fills them. */
  class Token {
    var sub: string
    var name: string
    var email: string
    var role: Option<Role>
    var emailVerified: Option<bool>

    constructor (sub: string, name: string, email: string)
      ensures this.sub == sub && this.name == name && this.email == email
      ensures role == None && emailVerified == None
    {
      this.sub := sub;
      this.name := name;
      this.email := email;
      role := None;
      emailVerified := None;
    }
  }

  /** `callbacks.jwt`: on sign-in copy the user's role and verification flag into the token, which is returned. */
  method Jwt(token: Token, user: Option<AuthUser>) returns (r: Token)
    modifies token`role, token`emailVerified
    ensures r == token
    ensures user.Some? ==> token.role == Some(user.value.role) && token.emailVerified == Some(user.value.emailVerified)
    ensures user.None? ==> token.role == old(token.role) && token.emailVerified == old(token.emailVerified)
  {
    if user.Some? {
      token.role := Some(user.value.role);
      token.emailVerified := Some(user.value.emailVerified);
    }
    return token;
  }

  class SessionUser {
    var id: string
    var name: string
    var email: string
    var role: Option<Role>
    var emailVerified: Option<bool>

    constructor (id: string, name: string, email: string)
      ensures this.id == id && this.name == name && this.email == email
      ensures role == None && emailVerified == None
    {
      this.id := id;
      this.name := name;
      this.email := email;
      role := None;
      emailVerified := None;
    }
  }

  class Session {
    var user: SessionUser
    /** When the session ends, in seconds since the epoch. */
    var expires: int

    constructor (user: SessionUser, issuedAt: int)
      ensures this.user == user && expires == issuedAt + SessionMaxAge
    {
      this.user := user;
      expires := issuedAt + SessionMaxAge;
    }
  }

  /** `callbacks.session`: when there is a token, copy its role and verification flag into the session's user. */
  method SessionCallback(session: Session, token: Token?) returns (r: Session)
    modifies session.user`role, session.user`emailVerified
    ensures r == session
    ensures token != null ==> session.user.role == token.role && session.user.emailVerified == token.emailVerified
    ensures token == null ==>
      session.user.role == old(session.user.role) && session.user.emailVerified == old(session.user.emailVerified)
  {
    if token != null {
      session.user.role := token.role;
      session.user.emailVerified := token.emailVerified;
    }
    return session;
  }

  /** The visitor a session presents to the route guard. */
  function VisitorOf(session: Session): Visitor
    reads session, session.user
  {
    SignedIn(session.user.role)
  }

  /**
   * A sign-in runs jwt with the user and then session with the token: the
   * session ends up with the user's role, so the route guard lets exactly
   * artisans onto the dashboard.
   */
  method SignIn(user: AuthUser, token: Token, session: Session)
    modifies token`role, token`emailVerified, session.user`role, session.user`emailVerified
    ensures session.user.role == Some(user.role) && session.user.emailVerified == Some(user.emailVerified)
    ensures Authorized(VisitorOf(session), "/dashboard") == if user.role == Artisan then Allow else Deny
    ensures Authorized(VisitorOf(session), "/account") == Allow
  {
    var t := Jwt(token, Some(user));
    var s := SessionCallback(session, t);
  }

}
