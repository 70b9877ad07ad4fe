/**
 * The browser session store (`localStorage`) and the request headers built from it, as the API
 * module reads and writes them.
 */
module Session {
  import opened Wrappers
  import opened Domain
  import Text
  import UserCodec

  /** `localStorage`: string keys to string values. */
  type Store = map<string, string>

  const ACCESS_TOKEN := "accessToken"
  const REFRESH_TOKEN := "refreshToken"
  const USER := "user"

  /** `getAuthToken()`: the stored access token, or null. */
  function GetAuthToken(s: Store): (r: Option<string>)
    ensures r.Some? <==> ACCESS_TOKEN in s
    ensures r.Some? ==> r.value == s[ACCESS_TOKEN]
  {
    if ACCESS_TOKEN in s then Some(s[ACCESS_TOKEN]) else None
  }

  /** `removeAuthToken()`: deletes the three session keys and nothing else. */
  function RemoveAuthToken(s: Store): (r: Store)
    ensures r.Keys == s.Keys - {ACCESS_TOKEN, REFRESH_TOKEN, USER}
    ensures forall k :: k in r ==> r[k] == s[k]
  {
    s - {ACCESS_TOKEN, REFRESH_TOKEN, USER}
  }

  /** `setUser(user)`: stores the user as JSON text. */
  function SetUser(s: Store, u: User): Store {
    s[USER := UserCodec.EncodeUser(u)]
  }

  /** What `getUser()` yields: null, a parsed user, or a `JSON.parse` error. */
  datatype UserRead = NoUser | Found(user: User) | Malformed

  /** `getUser()`: null when the key is absent or empty, otherwise the parsed JSON. */
  function GetUser(s: Store): (r: UserRead)
    ensures USER !in s ==> r == NoUser
    ensures USER in s && s[USER] == "" ==> r == NoUser
  {
    if USER !in s || s[USER] == "" || s[USER] == "null" then NoUser
    else match UserCodec.DecodeUser(s[USER])
      case Some(u) => Found(u)
      case None => Malformed
  }

  /** A user written with `setUser` is read back unchanged by `getUser`. */
  lemma GetUserAfterSetUser(s: Store, u: User)
    ensures GetUser(SetUser(s, u)) == Found(u)
  {
    UserCodec.UserRoundTrip(u);
    var t := UserCodec.EncodeUser(u);
    assert t[0] == '{';
  }

  /** `headers(withAuth)`: JSON content type, plus a bearer token when asked for and one is stored. */
  function Headers(s: Store, withAuth: bool): (r: map<string, string>)
    ensures "Content-Type" in r && r["Content-Type"] == "application/json"
    ensures "Authorization" in r <==> withAuth && Text.Truthy(GetAuthToken(s))
    ensures "Authorization" in r ==> r["Authorization"] == "Bearer " + s[ACCESS_TOKEN]
    ensures r.Keys <= {"Content-Type", "Authorization"}
  {
    var h := map["Content-Type" := "application/json"];
    if withAuth && ACCESS_TOKEN in s && s[ACCESS_TOKEN] != "" then
      h["Authorization" := "Bearer " + s[ACCESS_TOKEN]]
    else h
  }

  /** The headers of the multipart uploads: `Bearer ${getAuthToken()}`, which reads `Bearer null` without a token. */
  function UploadHeaders(s: Store): (r: map<string, string>)
    ensures r.Keys == {"Authorization"}
    ensures ACCESS_TOKEN in s ==> r["Authorization"] == "Bearer " + s[ACCESS_TOKEN]
    ensures ACCESS_TOKEN !in s ==> r["Authorization"] == "Bearer null"
  {
    map["Authorization" := "Bearer " + GetAuthToken(s).GetOr("null")]
  }

  /** The backend calls of the API module. */
  datatype Endpoint =
    | Register | Login | AskSearch
    | GetAll | GetById | SearchItems | GetByCategory | GetCategories
    | AddItem | UpdateItem | DeleteItem | ApproveItem | RejectItem | MarkSold
    | GetMyItems | AddFavorite | GetFavorites | RemoveFavorite
    | GetAllItems | GetAllUsers | MakeAdmin | RemoveAdmin | DeleteUser

  /**
   * The headers each call sends. The uploads always send an `Authorization` header, even with no
   * token stored; registration, login and the category list never do; every other call sends one
   * exactly when a non-empty token is stored.
   */
  function RequestHeaders(e: Endpoint, s: Store): (r: map<string, string>)
    ensures e == AddItem || e == UpdateItem ==> "Authorization" in r
    ensures e == Register || e == Login || e == GetCategories ==> "Authorization" !in r
    ensures e !in {AddItem, UpdateItem, Register, Login, GetCategories} ==>
              ("Authorization" in r <==> Text.Truthy(GetAuthToken(s)))
    ensures "Authorization" in r && ACCESS_TOKEN in s ==> r["Authorization"] == "Bearer " + s[ACCESS_TOKEN]
  {
    match e
    case Register => Headers(s, false)
    case Login => Headers(s, false)
    case GetCategories => map[]
    case AddItem => UploadHeaders(s)
    case UpdateItem => UploadHeaders(s)
    case _ => Headers(s, true)
  }

  /** The `data` object of a login response. */
  datatype LoginData = LoginData(
    accessToken: Option<string>,
    refreshToken: Option<string>,
    email: Option<string>,
    roles: Option<seq<string>>)

  /** A parsed login response: `{ data?, message? }`. */
  datatype LoginReply = LoginReply(data: Option<LoginData>, message: Option<string>)

  /** `data.data?.accessToken` is truthy. */
  predicate Accepted(r: LoginReply) {
    r.data.Some? && Text.Truthy(r.data.value.accessToken)
  }

  /** `String(x)` as `localStorage.setItem` applies it: an absent value is stored as "undefined". */
  function Stringify(x: Option<string>): string {
    x.GetOr("undefined")
  }

  /**
   * `authAPI.login` after the response arrives: an accepted response stores the access token, the
   * refresh token and the user; any other response leaves the store as it was.
   */
  function StoreLogin(s: Store, reply: LoginReply): (r: Store)
    ensures !Accepted(reply) ==> r == s
    ensures Accepted(reply) ==>
      && GetAuthToken(r) == reply.data.value.accessToken
      && REFRESH_TOKEN in r && r[REFRESH_TOKEN] == Stringify(reply.data.value.refreshToken)
      && GetUser(r) == Found(User(reply.data.value.email, reply.data.value.roles))
    ensures r.Keys - {ACCESS_TOKEN, REFRESH_TOKEN, USER} == s.Keys - {ACCESS_TOKEN, REFRESH_TOKEN, USER}
    ensures forall k :: k in s && k !in {ACCESS_TOKEN, REFRESH_TOKEN, USER} ==> k in r && r[k] == s[k]
  {
    if Accepted(reply) then
      var d := reply.data.value;
      var u := User(d.email, d.roles);
      GetUserAfterSetUser(s[ACCESS_TOKEN := d.accessToken.value][REFRESH_TOKEN := Stringify(d.refreshToken)], u);
      SetUser(s[ACCESS_TOKEN := d.accessToken.value][REFRESH_TOKEN := Stringify(d.refreshToken)], u)
    else s
  }

  /** After `removeAuthToken` there is no token and no user, and no request carries a bearer header. */
  lemma LogoutClearsSession(s: Store, e: Endpoint)
    requires e != AddItem && e != UpdateItem
    ensures GetAuthToken(RemoveAuthToken(s)) == None
    ensures GetUser(RemoveAuthToken(s)) == NoUser
    ensures REFRESH_TOKEN !in RemoveAuthToken(s)
    ensures "Authorization" !in RequestHeaders(e, RemoveAuthToken(s))
  {
  }
}
