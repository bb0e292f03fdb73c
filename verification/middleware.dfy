/**
 * The gin middleware: bearer-token authentication that fills the request
 * context, the role guards that read it back, the optional variant that
 * never rejects, the context accessors, and the CORS preflight
 * short-circuit.
 */
module Middleware {
  import opened Wrappers
  import opened Text
  import opened Http
  import opened Jwt
  import opened Models

  /** A value stored in the gin context; the readers only care about its dynamic type. */
  datatype Value = UintVal(n: nat) | StrVal(s: string) | OtherVal

  type Context = map<string, Value>

  /** What a middleware does with a request: abort with a response, or pass it on with a context. */
  datatype Outcome = Abort(response: Response<()>) | Next(ctx: Context)

  const BearerScheme: string := "Bearer"
  const BearerPrefix: string := "Bearer "

  /** The three values a validated token puts into the context. */
  function SetClaims(ctx: Context, c: Claims): (r: Context)
    ensures r.Keys == ctx.Keys + {"user_id", "username", "role"}
    ensures r["user_id"] == UintVal(c.userID) && r["username"] == StrVal(c.username) && r["role"] == StrVal(c.role)
    ensures forall k :: k in ctx && k !in {"user_id", "username", "role"} ==> r[k] == ctx[k]
  {
    ctx["user_id" := UintVal(c.userID)]["username" := StrVal(c.username)]["role" := StrVal(c.role)]
  }

  /** Stripping the prefix changes the header exactly when the header starts with it. */
  lemma TrimBearerChanges(header: string)
    ensures TrimPrefix(header, BearerPrefix) != header <==> HasPrefix(header, BearerPrefix)
    ensures HasPrefix(header, BearerPrefix) ==> TrimPrefix(header, BearerPrefix) == header[|BearerPrefix|..]
  {
    if HasPrefix(header, BearerPrefix) {
      assert |TrimPrefix(header, BearerPrefix)| == |header| - |BearerPrefix|;
    }
  }

  /**
   * `AuthRequired`: the header must be present and start with exactly
   * "Bearer "; the rest must validate; the claims then go into the context.
   */
  function AuthRequired(cfg: JwtConfig, codec: Codec, header: string, now: int, ctx: Context): (o: Outcome)
    ensures header == "" ==> o == Abort(Fail(StatusUnauthorized, "Authorization header is required"))
    ensures header != "" && !HasPrefix(header, BearerPrefix) ==> o == Abort(Fail(StatusUnauthorized, "Invalid authorization header format"))
    ensures HasPrefix(header, BearerPrefix) && ValidateToken(cfg, codec, header[|BearerPrefix|..], now).Err?
            ==> o == Abort(Fail(StatusUnauthorized, "Invalid or expired token"))
    ensures o.Next? <==> HasPrefix(header, BearerPrefix) && ValidateToken(cfg, codec, header[|BearerPrefix|..], now).Ok?
    ensures o.Next? ==> HasPrefix(header, BearerPrefix)
                        && o.ctx == SetClaims(ctx, ValidateToken(cfg, codec, header[|BearerPrefix|..], now).value)
  {
    TrimBearerChanges(header);
    if header == "" then Abort(Fail(StatusUnauthorized, "Authorization header is required"))
    else
      var token := TrimPrefix(header, BearerPrefix);
      if token == header then Abort(Fail(StatusUnauthorized, "Invalid authorization header format"))
      else
        match ValidateToken(cfg, codec, token, now)
        case Err(_) => Abort(Fail(StatusUnauthorized, "Invalid or expired token"))
        case Ok(c) => Next(SetClaims(ctx, c))
  }

  /** A token just issued, sent as "Bearer <token>", passes and puts its user into the context. */
  lemma AuthAcceptsIssuedToken(cfg: JwtConfig, codec: Codec, userID: nat, username: string, role: string, now: int, ctx: Context)
    requires Sound(codec) && cfg.expiration > 0
    ensures var token := GenerateToken(cfg, codec, userID, username, role, now);
            var o := AuthRequired(cfg, codec, BearerPrefix + token, now, ctx);
            o.Next? && o.ctx["user_id"] == UintVal(userID) && o.ctx["username"] == StrVal(username) && o.ctx["role"] == StrVal(role)
  {
    var token := GenerateToken(cfg, codec, userID, username, role, now);
    var header := BearerPrefix + token;
    assert header[..|BearerPrefix|] == BearerPrefix;
    assert header[|BearerPrefix|..] == token;
    GeneratedTokenLifetime(cfg, codec, userID, username, role, now, now);
  }

  /** `AdminRequired`: the role must be present, a string, and "admin" or "super_admin". */
  function AdminRequired(ctx: Context): (o: Outcome)
    ensures "role" !in ctx ==> o == Abort(Fail(StatusUnauthorized, "Authentication required"))
    ensures "role" in ctx && !ctx["role"].StrVal? ==> o == Abort(Fail(StatusInternalServerError, "Invalid role type"))
    ensures "role" in ctx && ctx["role"].StrVal? && ctx["role"].s != RoleAdmin && ctx["role"].s != RoleSuperAdmin
            ==> o == Abort(Fail(StatusForbidden, "Admin role required"))
    ensures o.Next? <==> "role" in ctx && (ctx["role"] == StrVal(RoleAdmin) || ctx["role"] == StrVal(RoleSuperAdmin))
    ensures o.Next? ==> o.ctx == ctx
  {
    if "role" !in ctx then Abort(Fail(StatusUnauthorized, "Authentication required"))
    else match ctx["role"]
      case StrVal(role) =>
        if role != RoleAdmin && role != RoleSuperAdmin then Abort(Fail(StatusForbidden, "Admin role required"))
        else Next(ctx)
      case _ => Abort(Fail(StatusInternalServerError, "Invalid role type"))
  }

  /** `SuperAdminRequired`: as `AdminRequired`, but only "super_admin" passes. */
  function SuperAdminRequired(ctx: Context): (o: Outcome)
    ensures "role" !in ctx ==> o == Abort(Fail(StatusUnauthorized, "Authentication required"))
    ensures "role" in ctx && !ctx["role"].StrVal? ==> o == Abort(Fail(StatusInternalServerError, "Invalid role type"))
    ensures "role" in ctx && ctx["role"].StrVal? && ctx["role"].s != RoleSuperAdmin
            ==> o == Abort(Fail(StatusForbidden, "Super admin role required"))
    ensures o.Next? <==> "role" in ctx && ctx["role"] == StrVal(RoleSuperAdmin)
    ensures o.Next? ==> o.ctx == ctx
  {
    if "role" !in ctx then Abort(Fail(StatusUnauthorized, "Authentication required"))
    else match ctx["role"]
      case StrVal(role) =>
        if role != RoleSuperAdmin then Abort(Fail(StatusForbidden, "Super admin role required"))
        else Next(ctx)
      case _ => Abort(Fail(StatusInternalServerError, "Invalid role type"))
  }

  /** Whatever passes the super-admin guard passes the admin guard; the converse fails for "admin". */
  lemma SuperAdminGuardStronger(ctx: Context)
    ensures SuperAdminRequired(ctx).Next? ==> AdminRequired(ctx).Next?
    ensures "role" in ctx && ctx["role"] == StrVal(RoleAdmin) ==> AdminRequired(ctx).Next? && !SuperAdminRequired(ctx).Next?
  {
  }

  function GetUserID(ctx: Context): (r: Result<nat, string>)
    ensures "user_id" !in ctx ==> r == Err("user_id not found in context")
    ensures "user_id" in ctx && !ctx["user_id"].UintVal? ==> r == Err("invalid user_id type in context")
    ensures r.Ok? <==> "user_id" in ctx && ctx["user_id"].UintVal?
    ensures r.Ok? ==> ctx["user_id"] == UintVal(r.value)
  {
    if "user_id" !in ctx then Err("user_id not found in context")
    else match ctx["user_id"]
      case UintVal(n) => Ok(n)
      case _ => Err("invalid user_id type in context")
  }

  function GetUsername(ctx: Context): (r: Result<string, string>)
    ensures "username" !in ctx ==> r == Err("username not found in context")
    ensures "username" in ctx && !ctx["username"].StrVal? ==> r == Err("invalid username type in context")
    ensures r.Ok? <==> "username" in ctx && ctx["username"].StrVal?
    ensures r.Ok? ==> ctx["username"] == StrVal(r.value)
  {
    StringClaim(ctx, "username", "username not found in context", "invalid username type in context")
  }

  function GetRole(ctx: Context): (r: Result<string, string>)
    ensures "role" !in ctx ==> r == Err("role not found in context")
    ensures "role" in ctx && !ctx["role"].StrVal? ==> r == Err("invalid role type in context")
    ensures r.Ok? <==> "role" in ctx && ctx["role"].StrVal?
    ensures r.Ok? ==> ctx["role"] == StrVal(r.value)
  {
    StringClaim(ctx, "role", "role not found in context", "invalid role type in context")
  }

  /** The shared shape of the two string accessors: the key must be present and hold a string. */
  function StringClaim(ctx: Context, key: string, missing: string, wrongType: string): (r: Result<string, string>)
    ensures key !in ctx ==> r == Err(missing)
    ensures key in ctx && !ctx[key].StrVal? ==> r == Err(wrongType)
    ensures r.Ok? <==> key in ctx && ctx[key].StrVal?
    ensures r.Ok? ==> ctx[key] == StrVal(r.value)
  {
    if key !in ctx then Err(missing)
    else match ctx[key]
      case StrVal(s) => Ok(s)
      case _ => Err(wrongType)
  }

  /** The accessors read back exactly what `AuthRequired` stored. */
  lemma AccessorsReadClaims(ctx: Context, c: Claims)
    ensures var stored := SetClaims(ctx, c);
            GetUserID(stored) == Ok(c.userID) && GetUsername(stored) == Ok(c.username) && GetRole(stored) == Ok(c.role)
  {
  }

  /** A user id is set, of whatever type; a readable one always counts. */
  function IsAuthenticated(ctx: Context): (ok: bool)
    ensures ok <==> "user_id" in ctx
    ensures GetUserID(ctx).Ok? ==> ok
    ensures !ok ==> GetUserID(ctx) == Err("user_id not found in context")
  {
    "user_id" in ctx
  }

  /** The role is admin or super admin. */
  function IsAdmin(ctx: Context): (ok: bool)
    ensures ok ==> "role" in ctx && ctx["role"].StrVal?
    ensures "role" in ctx && ctx["role"] == StrVal(RoleSuperAdmin) ==> ok
  {
    "role" in ctx && ctx["role"].StrVal? && (ctx["role"].s == RoleAdmin || ctx["role"].s == RoleSuperAdmin)
  }

  /** The role is super admin. */
  function IsSuperAdmin(ctx: Context): (ok: bool)
    ensures ok ==> IsAdmin(ctx)
    ensures "role" in ctx && ctx["role"] == StrVal(RoleAdmin) ==> !ok
  {
    "role" in ctx && ctx["role"].StrVal? && ctx["role"].s == RoleSuperAdmin
  }

  /** The predicates agree with the guards, so a super admin is always an admin. */
  lemma RolePredicatesMatchGuards(ctx: Context)
    ensures IsAdmin(ctx) <==> AdminRequired(ctx).Next?
    ensures IsSuperAdmin(ctx) <==> SuperAdminRequired(ctx).Next?
    ensures IsSuperAdmin(ctx) ==> IsAdmin(ctx)
  {
  }

  /**
   * The token issued for an account carries its role: it passes
   * `AuthRequired`, the super-admin guard then passes exactly for a super
   * admin, and the admin guard passes for every super admin.
   */
  lemma IssuedTokenCarriesRole(cfg: JwtConfig, codec: Codec, id: nat, a: Admin, now: int, ctx: Context)
    requires Sound(codec) && cfg.expiration > 0
    ensures var o := AuthRequired(cfg, codec, BearerPrefix + GenerateToken(cfg, codec, id, a.username, a.role, now), now, ctx);
            o.Next? && (SuperAdminRequired(o.ctx).Next? <==> AdminIsSuperAdmin(a))
            && (AdminIsSuperAdmin(a) ==> AdminRequired(o.ctx).Next?)
  {
    AuthAcceptsIssuedToken(cfg, codec, id, a.username, a.role, now, ctx);
  }

  /**
   * `OptionalAuth` never aborts; it fills the context exactly when
   * `AuthRequired` would have passed, and otherwise leaves it alone.
   */
  function OptionalAuth(cfg: JwtConfig, codec: Codec, header: string, now: int, ctx: Context): (o: Outcome)
    ensures o.Next?
    ensures AuthRequired(cfg, codec, header, now, ctx).Next? ==> o == AuthRequired(cfg, codec, header, now, ctx)
    ensures AuthRequired(cfg, codec, header, now, ctx).Abort? ==> o == Next(ctx)
  {
    TrimBearerChanges(header);
    if header == "" then Next(ctx)
    else
      var token := TrimPrefix(header, BearerPrefix);
      if token == header then Next(ctx)
      else
        match ValidateToken(cfg, codec, token, now)
        case Err(_) => Next(ctx)
        case Ok(c) => Next(SetClaims(ctx, c))
  }

  /**
   * Behind `OptionalAuth`, a request that arrived without a user is
   * authenticated exactly when `AuthRequired` would have let it through,
   * and its user id can then be read.
   */
  lemma OptionalAuthAuthenticates(cfg: JwtConfig, codec: Codec, header: string, now: int, ctx: Context)
    requires "user_id" !in ctx
    ensures var o := OptionalAuth(cfg, codec, header, now, ctx);
            (IsAuthenticated(o.ctx) <==> AuthRequired(cfg, codec, header, now, ctx).Next?)
            && (IsAuthenticated(o.ctx) ==> GetUserID(o.ctx).Ok?)
  {
    var o := OptionalAuth(cfg, codec, header, now, ctx);
    if AuthRequired(cfg, codec, header, now, ctx).Next? {
      assert o.ctx["user_id"].UintVal?;
    }
  }

  const AllowHeaders: string := "Content-Type, Content-Length, Accept-Encoding, X-CSRF-Token, Authorization, accept, origin, Cache-Control, X-Requested-With"
  const AllowMethods: string := "POST, OPTIONS, GET, PUT, DELETE, PATCH"

  /**
   * `CORSMiddleware`: echoes the request's origin, sets the CORS headers,
   * and answers a preflight with 204 before any handler runs.
   */
  function CORSMiddleware(origin: string, verb: string, ctx: Context): (r: (map<string, string>, Outcome))
    ensures verb == "OPTIONS" <==> r.1 == Abort(Aborted(StatusNoContent))
    ensures verb != "OPTIONS" ==> r.1 == Next(ctx)
    ensures "Access-Control-Allow-Origin" in r.0 && r.0["Access-Control-Allow-Origin"] == origin
    ensures "Access-Control-Allow-Credentials" in r.0 && r.0["Access-Control-Allow-Credentials"] == "true"
  {
    var headers := map[
      "Access-Control-Allow-Origin" := origin,
      "Access-Control-Allow-Credentials" := "true",
      "Access-Control-Allow-Headers" := AllowHeaders,
      "Access-Control-Allow-Methods" := AllowMethods,
      "Access-Control-Expose-Headers" := "Content-Length, Access-Control-Allow-Origin, Access-Control-Allow-Headers, Content-Type",
      "Access-Control-Max-Age" := "86400"];
    (headers, if verb == "OPTIONS" then Abort(Aborted(StatusNoContent)) else Next(ctx))
  }
}
