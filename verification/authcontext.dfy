/** The authentication context: the signed-in user, the role flags derived from it, login and logout. */
module AuthContext {
  import opened Wrappers
  import opened Domain
  import Text
  import opened Session

  /** `isAuthenticated = !!user`. */
  predicate IsAuthenticated(user: Option<User>) {
    user.Some?
  }

  /** `user?.roles?.includes('ADMIN') || user?.roles?.includes('SUPER_ADMIN') || false`. */
  predicate IsAdmin(user: Option<User>) {
    user.Some? && (HasRole(user.value.roles, ADMIN) || HasRole(user.value.roles, SUPER_ADMIN))
  }

  /** `user?.roles?.includes('SUPER_ADMIN') || false`. */
  predicate IsSuperAdmin(user: Option<User>) {
    user.Some? && HasRole(user.value.roles, SUPER_ADMIN)
  }

  /** The role flags are ordered: super-admin implies admin implies signed in, and nobody signed out holds any. */
  lemma RoleFlagsOrdered(user: Option<User>)
    ensures IsSuperAdmin(user) ==> IsAdmin(user)
    ensures IsAdmin(user) ==> IsAuthenticated(user)
    ensures user.None? ==> !IsAuthenticated(user) && !IsAdmin(user) && !IsSuperAdmin(user)
    ensures IsAdmin(user) <==>
              user.Some? && user.value.roles.Some?
              && (ADMIN in user.value.roles.value || SUPER_ADMIN in user.value.roles.value)
  {
  }

  /** `refreshUser()`: the user state taken from the store; `None` stands for the error `JSON.parse` throws. */
  function LoadUser(s: Store): (r: Option<Option<User>>)
    ensures GetUser(s) == NoUser ==> r == Some(None)
    ensures GetUser(s).Found? ==> r == Some(Some(GetUser(s).user))
    ensures GetUser(s) == Malformed ==> r == None
  {
    match GetUser(s)
    case NoUser => Some(None)
    case Found(u) => Some(Some(u))
    case Malformed => None
  }

  /** The state after `login` settles, and the value it returns. */
  datatype LoginOutcome = LoginOutcome(store: Store, user: Option<User>, success: bool, error: Option<string>)

  /**
   * `login(email, password)`: the response (or the thrown error) of the login call decides the result;
   * on acceptance the store is written and the user is reloaded from it. Login succeeds exactly when
   * a response with a truthy access token arrives, and the user is then the stored `{email, roles}`.
   * Otherwise neither the store nor the user changes, and the error is the response's message,
   * "Login failed" without one, or "Network error" when the call threw.
   */
  function Login(s: Store, user: Option<User>, response: Fetched<LoginReply>): (r: LoginOutcome)
    ensures r.success <==> response.Got? && Accepted(response.body)
    ensures r.success ==>
              && r.error.None? && IsAuthenticated(r.user)
              && r.user == Some(User(response.body.data.value.email, response.body.data.value.roles))
              && GetAuthToken(r.store) == response.body.data.value.accessToken
    ensures !r.success ==> r.store == s && r.user == user && r.error.Some?
    ensures response.Failed? ==> r.error == Some("Network error")
    ensures response.Got? && !Accepted(response.body) ==>
              r.error == Some(if Text.Truthy(response.body.message) then response.body.message.value else "Login failed")
  {
    match response
    case Failed => LoginOutcome(s, user, false, Some("Network error"))
    case Got(reply) =>
      var s' := StoreLogin(s, reply);
      if Accepted(reply) then
        match LoadUser(s')
        case Some(u) => LoginOutcome(s', u, true, None)
        case None => LoginOutcome(s', user, false, Some("Network error"))
      else LoginOutcome(s', user, false, Some(Text.OrElse(reply.message, "Login failed")))
  }

  /** `logout()`: clears the stored session and the user. */
  function Logout(s: Store): (r: (Store, Option<User>))
    ensures GetAuthToken(r.0) == None && GetUser(r.0) == NoUser
    ensures !IsAuthenticated(r.1) && !IsAdmin(r.1)
  {
    (RemoveAuthToken(s), None)
  }

  /** A user who logs out and reloads the page comes back signed out. */
  lemma LogoutThenReload(s: Store)
    ensures LoadUser(Logout(s).0) == Some(None)
  {
  }

  /**
   * The mount guard of the seller pages (the dashboard and the post-an-ad form): signed-out visitors
   * go to sign in, admins to the admin panel, and only other signed-in users stay.
   */
  function SellerPageGuard(user: Option<User>): (r: Guard)
    ensures r == Redirect("/auth") <==> !IsAuthenticated(user)
    ensures r == Redirect("/admin") <==> IsAdmin(user)
    ensures r == Proceed <==> IsAuthenticated(user) && !IsAdmin(user)
  {
    if !IsAuthenticated(user) then Redirect("/auth")
    else if IsAdmin(user) then Redirect("/admin")
    else Proceed
  }
}
