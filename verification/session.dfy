/**
 * The admin site's browser session: the token and user kept in local
 * storage, the local expiry check, and the start-up restore. Token
 * payload decoding (base64 and JSON) is a function parameter; the clock
 * is `now`, in seconds.
 */
module Session {
  import opened Wrappers
  import opened Text

  const TokenKey: string := "tourism_admin_token"
  const UserKey: string := "tourism_admin_user"

  /** The stored user object; only its role is ever inspected. */
  datatype User = User(id: nat, username: string, role: string)

  /** The two storage entries; `None` is a missing key. */
  datatype Storage = Storage(token: Option<string>, user: Option<User>)

  const Empty: Storage := Storage(None, None)

  /** The claims of a token payload the client looks at: `exp`, if any. */
  datatype Payload = Payload(exp: Option<real>)

  /** Turns a token into its payload, `None` when that throws. */
  type Decoder = string -> Option<Payload>

  /** `payload.exp && payload.exp < now`: a missing or zero `exp` never expires. */
  function Expired(p: Payload, now: real): (e: bool)
    ensures e ==> p.exp.Some? && p.exp.value < now
    ensures p.exp.None? || p.exp.value == 0.0 || now <= p.exp.value ==> !e
    ensures p.exp.Some? && p.exp.value != 0.0 && p.exp.value < now ==> e
  {
    p.exp.Some? && p.exp.value != 0.0 && p.exp.value < now
  }

  /** `setToken`: a falsy token leaves storage as it was. */
  function SetToken(s: Storage, token: Option<string>): (r: Storage)
    ensures r.user == s.user
    ensures Truthy(token) ==> r.token == token
    ensures !Truthy(token) ==> r == s
  {
    if Truthy(token) then s.(token := token) else s
  }

  /** `setUser`: a missing user leaves storage as it was. */
  function SetUser(s: Storage, user: Option<User>): (r: Storage)
    ensures r.token == s.token
    ensures user.Some? ==> r.user == user
    ensures user.None? ==> r == s
  {
    if user.Some? then s.(user := user) else s
  }

  /** `removeToken` then `removeUser`. */
  function Clear(s: Storage): (r: Storage)
    ensures r.token.None? && r.user.None?
  {
    s.(token := None, user := None)
  }

  /**
   * `isAuthenticated`: no token is false; an expired one is false and
   * clears both entries; an undecodable one is false but kept.
   */
  function IsAuthenticated(s: Storage, peek: Decoder, now: real): (r: (Storage, bool))
    ensures !Truthy(s.token) ==> r == (s, false)
    ensures Truthy(s.token) && peek(s.token.value).None? ==> r == (s, false)
    ensures r.1 <==> Truthy(s.token) && peek(s.token.value).Some? && !Expired(peek(s.token.value).value, now)
    ensures r.0 != s ==> r.0 == Clear(s) && !r.1
    ensures r.0 == Clear(s) || r.0 == s
  {
    if !Truthy(s.token) then (s, false)
    else match peek(s.token.value)
      case None => (s, false)
      case Some(p) => if Expired(p, now) then (Clear(s), false) else (s, true)
  }

  /** A token whose `exp` is exactly now still counts. */
  lemma ExpiryIsStrict(s: Storage, peek: Decoder, now: real)
    requires Truthy(s.token) && peek(s.token.value) == Some(Payload(Some(now))) && now != 0.0
    ensures IsAuthenticated(s, peek, now) == (s, true)
  {
  }

  /** Asking twice gives the same answer and leaves the same storage. */
  lemma IsAuthenticatedIdempotent(s: Storage, peek: Decoder, now: real)
    ensures var r := IsAuthenticated(s, peek, now);
            IsAuthenticated(r.0, peek, now) == r
  {
  }

  /** `isAdmin`: the stored role is exactly "admin"; a super admin is not an admin here. */
  function IsAdmin(s: Storage): (r: bool)
    ensures r <==> s.user.Some? && s.user.value.role == "admin"
  {
    s.user.Some? && s.user.value.role == "admin"
  }

  lemma SuperAdminIsNotAdmin(s: Storage)
    requires s.user.Some? && s.user.value.role == "super_admin"
    ensures !IsAdmin(s)
  {
  }

  /** The outcome of the login request: the returned token and user, or the server's error text. */
  datatype LoginReply = Granted(token: Option<string>, user: Option<User>) | Refused(serverError: Option<string>)

  datatype LoginResult = LoginOk(token: Option<string>, user: Option<User>) | LoginError(message: string)

  const LoginFailed: string := "登录失败，请检查用户名和密码"

  /** `login`: stores what the server returned, or reports its error text. */
  function Login(s: Storage, reply: LoginReply): (r: (Storage, LoginResult))
    ensures reply.Refused? ==> r.0 == s
    ensures reply.Refused? ==> r.1 == LoginError(if Truthy(reply.serverError) then reply.serverError.value else LoginFailed)
    ensures reply.Granted? ==> r.1 == LoginOk(reply.token, reply.user)
                               && r.0 == SetUser(SetToken(s, reply.token), reply.user)
  {
    match reply
    case Granted(token, user) => (SetUser(SetToken(s, token), user), LoginOk(token, user))
    case Refused(serverError) => (s, LoginError(if Truthy(serverError) then serverError.value else LoginFailed))
  }

  /** A login that returns a token whose payload is unexpired leaves the session authenticated. */
  lemma LoginAuthenticates(s: Storage, token: string, user: User, peek: Decoder, now: real)
    requires token != "" && peek(token).Some? && !Expired(peek(token).value, now)
    ensures var after := Login(s, Granted(Some(token), Some(user))).0;
            IsAuthenticated(after, peek, now) == (after, true) && after.user == Some(user)
  {
  }

  /** `logout`: whatever the logout request did, both entries go and the page moves to /login. */
  function Logout(s: Storage, requestSucceeded: bool): (r: (Storage, string))
    ensures r.0.token.None? && r.0.user.None?
    ensures r.1 == "/login"
  {
    (Clear(s), "/login")
  }

  lemma LogoutIgnoresRequest(s: Storage)
    ensures Logout(s, true) == Logout(s, false)
  {
  }

  datatype InitResult = Authenticated(user: User, authorization: string) | Unauthenticated(reason: string)

  /**
   * `initAuth`: with both entries present, an expired payload clears the
   * session; otherwise the bearer header is installed. An undecodable
   * token is not checked at all.
   */
  function InitAuth(s: Storage, decode: Decoder, now: real): (r: (Storage, InitResult))
    ensures !(Truthy(s.token) && s.user.Some?) ==> r == (s, Unauthenticated("no_token"))
    ensures r.1 == Unauthenticated("expired")
            <==> Truthy(s.token) && s.user.Some? && decode(s.token.value).Some? && Expired(decode(s.token.value).value, now)
    ensures r.1 == Unauthenticated("expired") ==> r.0 == Clear(s)
    ensures r.1.Authenticated? ==> r.0 == s && Some(r.1.user) == s.user && r.1.authorization == "Bearer " + s.token.value
  {
    if Truthy(s.token) && s.user.Some? then
      var payload := decode(s.token.value);
      if payload.Some? && Expired(payload.value, now) then (Clear(s), Unauthenticated("expired"))
      else (s, Authenticated(s.user.value, "Bearer " + s.token.value))
    else (s, Unauthenticated("no_token"))
  }

  /**
   * With a user stored and the two decoders agreeing on the token,
   * `initAuth` and `isAuthenticated` agree whenever the token decodes,
   * and clear storage in the same cases. On an undecodable token
   * `initAuth` restores the session while `isAuthenticated` refuses it.
   */
  lemma InitAgreesWithCheck(s: Storage, decode: Decoder, now: real)
    requires s.user.Some?
    ensures Truthy(s.token) && decode(s.token.value).Some? ==>
              (InitAuth(s, decode, now).1.Authenticated? <==> IsAuthenticated(s, decode, now).1)
              && InitAuth(s, decode, now).0 == IsAuthenticated(s, decode, now).0
    ensures Truthy(s.token) && decode(s.token.value).None? ==>
              InitAuth(s, decode, now).1.Authenticated? && !IsAuthenticated(s, decode, now).1
  {
  }

  /** After logging out, the start-up restore finds nothing. */
  lemma NoSessionAfterLogout(s: Storage, ok: bool, decode: Decoder, now: real)
    ensures var after := Logout(s, ok).0;
            InitAuth(after, decode, now) == (after, Unauthenticated("no_token"))
            && IsAuthenticated(after, decode, now) == (after, false)
  {
  }
}
