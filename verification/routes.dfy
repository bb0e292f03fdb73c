/**
 * The router: the table of routes under `/api/v1` and the legacy `/api`
 * prefix with the guards each group installs, the global CORS middleware
 * that runs before routing, and the start-up seeding of the default
 * administrator.
 */
module Routes {
  import opened Wrappers
  import opened Text
  import opened Http
  import opened Store
  import opened Models
  import opened Jwt
  import opened Middleware
  import AuthHandlers

  datatype Verb = GET | POST | PUT | DELETE | PATCH | OPTIONS

  /** One segment of a route pattern: literal text, or a `:name` parameter matching any non-empty segment. */
  datatype Segment = Lit(text: string) | Param(name: string)

  /** The per-group middleware: `AuthRequired()` and `AdminRequired()`. */
  datatype Guard = AuthGuard | AdminGuard

  datatype Handler =
    | Health | Login | RefreshToken | UploadAvatar | UploadImage | UploadDocument
    | Logout | GetCurrentUser | ChangePassword
    | CreateRegion | GetRegions | GetRegionByID | UpdateRegion | DeleteRegion
    | CreateRecommendor | GetAdminRecommendors | GetRecommendorByID | UpdateRecommendor | DeleteRecommendor | RegenerateQRCodes
    | CreateDestination | GetAdminDestinations | GetDestinationByID | UpdateDestination | DeleteDestination
    | GetRecommendors | GetDestinationsByRecommendor | GetDestinations

  /** A handler registered on a group, with the pattern relative to the group. */
  datatype Endpoint = Endpoint(verb: Verb, path: seq<Segment>, handler: Handler)

  /** A router group: its prefix, the guards its `Use` installs, and its endpoints. */
  datatype Group = Group(prefix: seq<Segment>, guards: seq<Guard>, endpoints: seq<Endpoint>)

  /** A registered route: method, full pattern, the guards in order, the handler. */
  datatype Route = Route(verb: Verb, pattern: seq<Segment>, guards: seq<Guard>, handler: Handler)

  const AdminGuards: seq<Guard> := [AuthGuard, AdminGuard]
  const UserGuards: seq<Guard> := [AuthGuard]

  const Id: Segment := Param("id")

  function Mount(g: Group, e: Endpoint): Route {
    Route(e.verb, g.prefix + e.path, g.guards, e.handler)
  }

  /** The routes of the groups, group by group, each group's endpoints in registration order. */
  function Flatten(groups: seq<Group>): (r: seq<Route>)
  {
    if groups == [] then []
    else Mounted(groups[0], groups[0].endpoints) + Flatten(groups[1..])
  }

  function Mounted(g: Group, es: seq<Endpoint>): (r: seq<Route>)
    ensures |r| == |es|
    ensures forall k :: 0 <= k < |r| ==> r[k] == Mount(g, es[k])
  {
    if es == [] then [] else [Mount(g, es[0])] + Mounted(g, es[1..])
  }

  /** Every route comes from one endpoint of one group. */
  lemma {:induction false} FlattenOrigin(groups: seq<Group>, r: Route)
    requires r in Flatten(groups)
    ensures exists i, k :: 0 <= i < |groups| && 0 <= k < |groups[i].endpoints| && r == Mount(groups[i], groups[i].endpoints[k])
  {
    if groups != [] {
      var first := Mounted(groups[0], groups[0].endpoints);
      if r in first {
        var k :| 0 <= k < |first| && first[k] == r;
        assert r == Mount(groups[0], groups[0].endpoints[k]);
      } else {
        assert r in Flatten(groups[1..]);
        FlattenOrigin(groups[1..], r);
        var i, k :| 0 <= i < |groups[1..]| && 0 <= k < |groups[1..][i].endpoints| && r == Mount(groups[1..][i], groups[1..][i].endpoints[k]);
        assert groups[1..][i] == groups[i + 1];
      }
    }
  }

  const RegionEndpoints: seq<Endpoint> := [
    Endpoint(POST, [], CreateRegion),
    Endpoint(GET, [], GetRegions),
    Endpoint(GET, [Id], GetRegionByID),
    Endpoint(PUT, [Id], UpdateRegion),
    Endpoint(DELETE, [Id], DeleteRegion)]

  const AdminRecommendorEndpoints: seq<Endpoint> := [
    Endpoint(POST, [], CreateRecommendor),
    Endpoint(GET, [], GetAdminRecommendors),
    Endpoint(GET, [Id], GetRecommendorByID),
    Endpoint(PUT, [Id], UpdateRecommendor),
    Endpoint(DELETE, [Id], DeleteRecommendor),
    Endpoint(POST, [Id, Lit("qrcodes")], RegenerateQRCodes)]

  const AdminDestinationEndpoints: seq<Endpoint> := [
    Endpoint(POST, [], CreateDestination),
    Endpoint(GET, [], GetAdminDestinations),
    Endpoint(GET, [Id], GetDestinationByID),
    Endpoint(PUT, [Id], UpdateDestination),
    Endpoint(DELETE, [Id], DeleteDestination)]

  /** The owner listing, which the legacy admin group registers first. */
  const OwnerListing: Endpoint := Endpoint(GET, [Id, Lit("destinations")], GetDestinationsByRecommendor)

  const PublicRecommendorEndpoints: seq<Endpoint> := [
    Endpoint(GET, [], GetRecommendors),
    Endpoint(GET, [Id], GetRecommendorByID),
    OwnerListing]

  const PublicDestinationEndpoints: seq<Endpoint> := [
    Endpoint(GET, [], GetDestinations),
    Endpoint(GET, [Id], GetDestinationByID)]

  const OpenAuthEndpoints: seq<Endpoint> := [
    Endpoint(POST, [Lit("login")], Login),
    Endpoint(POST, [Lit("refresh-token")], RefreshToken)]

  const ProtectedAuthEndpoints: seq<Endpoint> := [
    Endpoint(POST, [Lit("logout")], Logout),
    Endpoint(GET, [Lit("me")], GetCurrentUser),
    Endpoint(PUT, [Lit("change-password")], ChangePassword)]

  const V1: seq<Segment> := [Lit("api"), Lit("v1")]
  const Legacy: seq<Segment> := [Lit("api")]

  const V1Health: Group := Group(V1, [], [Endpoint(GET, [Lit("health")], Health)])
  const V1OpenAuth: Group := Group([Lit("api"), Lit("v1"), Lit("auth")], [], OpenAuthEndpoints)
  const V1Upload: Group := Group([Lit("api"), Lit("v1"), Lit("upload")], [], [
    Endpoint(POST, [Lit("avatar")], UploadAvatar),
    Endpoint(POST, [Lit("image")], UploadImage),
    Endpoint(POST, [Lit("document")], UploadDocument)])
  const V1SessionAuth: Group := Group([Lit("api"), Lit("v1"), Lit("auth")], UserGuards, ProtectedAuthEndpoints)
  const V1AdminRegions: Group := Group([Lit("api"), Lit("v1"), Lit("admin"), Lit("regions")], AdminGuards, RegionEndpoints)
  const V1AdminRecommendors: Group :=
    Group([Lit("api"), Lit("v1"), Lit("admin"), Lit("recommendors")], AdminGuards, AdminRecommendorEndpoints)
  const V1AdminDestinations: Group :=
    Group([Lit("api"), Lit("v1"), Lit("admin"), Lit("destinations")], AdminGuards, AdminDestinationEndpoints)
  const V1PublicRecommendors: Group := Group([Lit("api"), Lit("v1"), Lit("recommendors")], [], PublicRecommendorEndpoints)
  const V1PublicDestinations: Group := Group([Lit("api"), Lit("v1"), Lit("destinations")], [], PublicDestinationEndpoints)

  /** The groups under `/api/v1`, in registration order. */
  const V1Groups: seq<Group> := [
    V1Health, V1OpenAuth, V1Upload, V1SessionAuth, V1AdminRegions, V1AdminRecommendors, V1AdminDestinations,
    V1PublicRecommendors, V1PublicDestinations]

  const LegacyOpenAuth: Group := Group([Lit("api"), Lit("auth")], [], OpenAuthEndpoints)
  const LegacySessionAuth: Group := Group([Lit("api"), Lit("auth")], UserGuards, ProtectedAuthEndpoints)
  const LegacyAdminRegions: Group := Group([Lit("api"), Lit("admin"), Lit("regions")], AdminGuards, RegionEndpoints)
  const LegacyAdminRecommendors: Group :=
    Group([Lit("api"), Lit("admin"), Lit("recommendors")], AdminGuards, [OwnerListing] + AdminRecommendorEndpoints)
  const LegacyAdminDestinations: Group := Group([Lit("api"), Lit("admin"), Lit("destinations")], AdminGuards, AdminDestinationEndpoints)
  const LegacyPublicRecommendors: Group := Group([Lit("api"), Lit("recommendors")], [], PublicRecommendorEndpoints)
  const LegacyPublicDestinations: Group := Group([Lit("api"), Lit("destinations")], [], PublicDestinationEndpoints)

  /** The legacy groups under `/api`: no health check and no uploads, one extra admin route. */
  const LegacyGroups: seq<Group> := [
    LegacyOpenAuth, LegacySessionAuth, LegacyAdminRegions, LegacyAdminRecommendors, LegacyAdminDestinations,
    LegacyPublicRecommendors, LegacyPublicDestinations]

  function AllRoutes(): seq<Route> {
    Flatten(V1Groups + LegacyGroups)
  }

  /** The pattern lies under `/api/v1/admin` or `/api/admin`. */
  predicate UnderAdmin(p: seq<Segment>) {
    |p| >= 2 && p[0] == Lit("api")
    && (p[1] == Lit("admin") || (|p| >= 3 && p[1] == Lit("v1") && p[2] == Lit("admin")))
  }

  /** Handlers that change data or list every row regardless of status. */
  predicate AdminOnly(h: Handler) {
    match h
    case CreateRegion | GetRegions | GetRegionByID | UpdateRegion | DeleteRegion => true
    case CreateRecommendor | GetAdminRecommendors | UpdateRecommendor | DeleteRecommendor | RegenerateQRCodes => true
    case CreateDestination | GetAdminDestinations | UpdateDestination | DeleteDestination => true
    case _ => false
  }

  predicate SessionOnly(h: Handler) {
    match h
    case Logout | GetCurrentUser | ChangePassword => true
    case _ => false
  }

  predicate Unguarded(h: Handler) {
    match h
    case Health | Login | RefreshToken | UploadAvatar | UploadImage | UploadDocument => true
    case _ => false
  }

  /**
   * A group's guards suit one of its endpoints: both admin guards exactly
   * on a route under an admin prefix, and on every admin-only handler;
   * `AuthRequired` alone on the session handlers; none on the open ones.
   */
  predicate Fits(g: Group, e: Endpoint) {
    (UnderAdmin(g.prefix + e.path) <==> g.guards == AdminGuards)
    && (AdminOnly(e.handler) ==> g.guards == AdminGuards)
    && (SessionOnly(e.handler) ==> g.guards == UserGuards)
    && (Unguarded(e.handler) ==> g.guards == [])
  }

  predicate GroupFits(g: Group) {
    forall e :: e in g.endpoints ==> Fits(g, e)
  }

  /** A group under an admin prefix with both admin guards suits any endpoint that is neither session-only nor open. */
  lemma AdminGroupFits(prefix: seq<Segment>, es: seq<Endpoint>)
    requires UnderAdmin(prefix)
    requires forall e :: e in es ==> !SessionOnly(e.handler) && !Unguarded(e.handler)
    ensures GroupFits(Group(prefix, AdminGuards, es))
  {
    forall e | e in es ensures UnderAdmin(prefix + e.path) {
      assert (prefix + e.path)[..|prefix|] == prefix;
    }
  }

  lemma V1GroupFits0()
    ensures GroupFits(V1Health)
  {
  }

  lemma V1GroupFits1()
    ensures GroupFits(V1OpenAuth)
  {
  }

  lemma V1GroupFits2()
    ensures GroupFits(V1Upload)
  {
  }

  lemma V1GroupFits3()
    ensures GroupFits(V1SessionAuth)
  {
  }

  lemma V1GroupFits4()
    ensures GroupFits(V1AdminRegions)
  {
    AdminGroupFits([Lit("api"), Lit("v1"), Lit("admin"), Lit("regions")], RegionEndpoints);
  }

  lemma V1GroupFits5()
    ensures GroupFits(V1AdminRecommendors)
  {
    AdminGroupFits([Lit("api"), Lit("v1"), Lit("admin"), Lit("recommendors")], AdminRecommendorEndpoints);
  }

  lemma V1GroupFits6()
    ensures GroupFits(V1AdminDestinations)
  {
    AdminGroupFits([Lit("api"), Lit("v1"), Lit("admin"), Lit("destinations")], AdminDestinationEndpoints);
  }

  lemma V1GroupFits7()
    ensures GroupFits(V1PublicRecommendors)
  {
  }

  lemma V1GroupFits8()
    ensures GroupFits(V1PublicDestinations)
  {
  }

  lemma LegacyGroupFits0()
    ensures GroupFits(LegacyOpenAuth)
  {
  }

  lemma LegacyGroupFits1()
    ensures GroupFits(LegacySessionAuth)
  {
  }

  lemma LegacyGroupFits2()
    ensures GroupFits(LegacyAdminRegions)
  {
    AdminGroupFits([Lit("api"), Lit("admin"), Lit("regions")], RegionEndpoints);
  }

  lemma LegacyGroupFits3()
    ensures GroupFits(LegacyAdminRecommendors)
  {
    AdminGroupFits([Lit("api"), Lit("admin"), Lit("recommendors")], [OwnerListing] + AdminRecommendorEndpoints);
  }

  lemma LegacyGroupFits4()
    ensures GroupFits(LegacyAdminDestinations)
  {
    AdminGroupFits([Lit("api"), Lit("admin"), Lit("destinations")], AdminDestinationEndpoints);
  }

  lemma LegacyGroupFits5()
    ensures GroupFits(LegacyPublicRecommendors)
  {
  }

  lemma LegacyGroupFits6()
    ensures GroupFits(LegacyPublicDestinations)
  {
  }

  /** Every group of the table suits its endpoints. */
  lemma TableFits(i: nat)
    requires i < |V1Groups + LegacyGroups|
    ensures GroupFits((V1Groups + LegacyGroups)[i])
  {
    if i < |V1Groups| {
      if i == 0 {
        V1GroupFits0();
      } else if i == 1 {
        V1GroupFits1();
      } else if i == 2 {
        V1GroupFits2();
      } else if i == 3 {
        V1GroupFits3();
      } else if i == 4 {
        V1GroupFits4();
      } else if i == 5 {
        V1GroupFits5();
      } else if i == 6 {
        V1GroupFits6();
      } else if i == 7 {
        V1GroupFits7();
      } else {
        V1GroupFits8();
      }
    } else {
      var j := i - |V1Groups|;
      assert (V1Groups + LegacyGroups)[i] == LegacyGroups[j];
      if j == 0 {
        LegacyGroupFits0();
      } else if j == 1 {
        LegacyGroupFits1();
      } else if j == 2 {
        LegacyGroupFits2();
      } else if j == 3 {
        LegacyGroupFits3();
      } else if j == 4 {
        LegacyGroupFits4();
      } else if j == 5 {
        LegacyGroupFits5();
      } else {
        LegacyGroupFits6();
      }
    }
  }

  /**
   * The guard table: a route lies under an admin prefix iff it carries
   * `AuthRequired` then `AdminRequired`; every data-changing or
   * all-status handler is reachable only through those guards; logout,
   * me and change-password carry `AuthRequired` alone; login, refresh,
   * health and the uploads carry none.
   */
  lemma GuardTable(r: Route)
    requires r in AllRoutes()
    ensures UnderAdmin(r.pattern) <==> r.guards == AdminGuards
    ensures AdminOnly(r.handler) ==> r.guards == AdminGuards
    ensures SessionOnly(r.handler) ==> r.guards == UserGuards
    ensures Unguarded(r.handler) ==> r.guards == []
  {
    var gs := V1Groups + LegacyGroups;
    FlattenOrigin(gs, r);
    var i, k :| 0 <= i < |gs| && 0 <= k < |gs[i].endpoints| && r == Mount(gs[i], gs[i].endpoints[k]);
    TableFits(i);
    assert gs[i].endpoints[k] in gs[i].endpoints;
  }

  /** Drops the `v1` segment of a versioned prefix. */
  function Unversioned(p: seq<Segment>): seq<Segment> {
    if |p| >= 2 && p[..2] == V1 then Legacy + p[2..] else p
  }

  /**
   * The legacy table repeats the versioned one without the health check
   * and the uploads: same guards, same endpoints, except that the legacy
   * admin recommendor group also serves the owner listing.
   */
  lemma LegacyMirrorsV1()
    ensures |LegacyGroups| == |V1Groups[1..2] + V1Groups[3..]|
    ensures forall i :: 0 <= i < |LegacyGroups| ==>
              var v := (V1Groups[1..2] + V1Groups[3..])[i];
              LegacyGroups[i].prefix == Unversioned(v.prefix) && LegacyGroups[i].guards == v.guards
              && LegacyGroups[i].endpoints == (if i == 3 then [OwnerListing] + v.endpoints else v.endpoints)
  {
    var mirrored := V1Groups[1..2] + V1Groups[3..];
    forall i | 0 <= i < |LegacyGroups|
      ensures LegacyGroups[i].prefix == Unversioned(mirrored[i].prefix)
    {
      assert mirrored[i].prefix[..2] == V1;
      assert Legacy + mirrored[i].prefix[2..] == LegacyGroups[i].prefix;
    }
  }

  /** A request path, split at "/", matches a pattern segment by segment. */
  predicate Matches(pattern: seq<Segment>, path: seq<string>) {
    |pattern| == |path|
    && forall k :: 0 <= k < |path| ==> (match pattern[k] case Lit(t) => path[k] == t case Param(_) => path[k] != "")
  }

  /** The first registered route for the method whose pattern matches the path. */
  function Lookup(routes: seq<Route>, m: Verb, path: seq<string>): (r: Option<Route>)
    ensures r.Some? ==> r.value in routes && r.value.verb == m && Matches(r.value.pattern, path)
    ensures r.None? ==> forall x :: x in routes && x.verb == m ==> !Matches(x.pattern, path)
  {
    if routes == [] then None
    else if routes[0].verb == m && Matches(routes[0].pattern, path) then Some(routes[0])
    else Lookup(routes[1..], m, path)
  }

  /** Runs a route's guards in order; the first to abort answers the request. */
  function RunGuards(guards: seq<Guard>, cfg: JwtConfig, codec: Codec, header: string, now: int, ctx: Context): (o: Outcome)
    ensures guards == [] ==> o == Next(ctx)
    ensures o.Abort? ==> o.response.Fail? && o.response.status in {StatusUnauthorized, StatusForbidden, StatusInternalServerError}
    ensures o.Next? && ("user_id" in ctx || AuthGuard in guards) ==> IsAuthenticated(o.ctx)
    ensures o.Next? && AuthGuard !in guards ==> o.ctx == ctx
    decreases |guards|
  {
    if guards == [] then Next(ctx)
    else
      var step := match guards[0]
        case AuthGuard => AuthRequired(cfg, codec, header, now, ctx)
        case AdminGuard => AdminRequired(ctx);
      match step
      case Abort(resp) => Abort(resp)
      case Next(c) => RunGuards(guards[1..], cfg, codec, header, now, c)
  }

  /** The claims a well-formed bearer header carries once they validate. */
  function BearerClaims(cfg: JwtConfig, codec: Codec, header: string, now: int): (r: Option<Claims>)
    ensures r.Some? <==> AuthRequired(cfg, codec, header, now, map[]).Next?
    ensures r.Some? ==> AuthRequired(cfg, codec, header, now, map[]).ctx == SetClaims(map[], r.value)
  {
    if HasPrefix(header, BearerPrefix) then
      match ValidateToken(cfg, codec, header[|BearerPrefix|..], now)
      case Ok(c) => Some(c)
      case Err(_) => None
    else None
  }

  /**
   * The admin guard chain passes exactly the requests whose bearer token
   * validates and names the role "admin" or "super_admin".
   */
  lemma AdminChain(cfg: JwtConfig, codec: Codec, header: string, now: int, ctx: Context)
    ensures RunGuards(AdminGuards, cfg, codec, header, now, ctx).Next?
            <==> BearerClaims(cfg, codec, header, now).Some? && BearerClaims(cfg, codec, header, now).value.role in {RoleAdmin, RoleSuperAdmin}
    ensures RunGuards(UserGuards, cfg, codec, header, now, ctx).Next? <==> BearerClaims(cfg, codec, header, now).Some?
  {
    var o := AuthRequired(cfg, codec, header, now, ctx);
    if o.Next? {
      var c := BearerClaims(cfg, codec, header, now).value;
      assert o.ctx["role"] == StrVal(c.role);
      assert RunGuards(AdminGuards, cfg, codec, header, now, ctx) == RunGuards([AdminGuard], cfg, codec, header, now, o.ctx);
      assert RunGuards([AdminGuard], cfg, codec, header, now, o.ctx) == (match AdminRequired(o.ctx) case Abort(resp) => Abort(resp) case Next(c2) => Next(c2));
    }
  }

  /** What becomes of a request after the global middleware and the router. */
  datatype Disposition =
    | Preflight(headers: map<string, string>)
    | Rejected(response: Response<()>)
    | Run(handler: Handler, ctx: Context)
    | Fallback

  const AllowOrigin: string := "*"

  /**
   * The CORS middleware `SetupMiddleware` installs: a wildcard origin with
   * credentials allowed; a preflight is answered with 204 at once.
   */
  function CorsHeaders(): (h: map<string, string>)
    ensures h.Keys == {"Access-Control-Allow-Origin", "Access-Control-Allow-Credentials",
                       "Access-Control-Allow-Headers", "Access-Control-Allow-Methods"}
    ensures h["Access-Control-Allow-Origin"] == AllowOrigin && h["Access-Control-Allow-Credentials"] == "true"
  {
    map["Access-Control-Allow-Origin" := AllowOrigin,
        "Access-Control-Allow-Credentials" := "true",
        "Access-Control-Allow-Headers" := AllowHeaders,
        "Access-Control-Allow-Methods" := AllowMethods]
  }

  /**
   * A request through the engine: the CORS middleware answers every
   * preflight; otherwise the first matching route's guards run, then its
   * handler; an unmatched request gets the single-page fallback.
   */
  function Handle(cfg: JwtConfig, codec: Codec, m: Verb, path: seq<string>, header: string, now: int): (d: Disposition)
    ensures d.Preflight? <==> m == OPTIONS
    ensures d.Preflight? ==> d.headers == CorsHeaders()
    ensures d.Fallback? <==> m != OPTIONS && Lookup(AllRoutes(), m, path).None?
    ensures d.Rejected? || d.Run? ==> m != OPTIONS && Lookup(AllRoutes(), m, path).Some?
    ensures d.Rejected? ==> RunGuards(Lookup(AllRoutes(), m, path).value.guards, cfg, codec, header, now, map[]) == Abort(d.response)
    ensures d.Run? ==> d.handler == Lookup(AllRoutes(), m, path).value.handler
                       && RunGuards(Lookup(AllRoutes(), m, path).value.guards, cfg, codec, header, now, map[]) == Next(d.ctx)
  {
    if m == OPTIONS then Preflight(CorsHeaders())
    else match Lookup(AllRoutes(), m, path)
      case None => Fallback
      case Some(r) =>
        match RunGuards(r.guards, cfg, codec, header, now, map[])
        case Abort(resp) => Rejected(resp)
        case Next(ctx) => Run(r.handler, ctx)
  }

  /** A preflight never reaches a guard or a handler, whatever its path and header. */
  lemma PreflightFirst(cfg: JwtConfig, codec: Codec, path: seq<string>, header: string, now: int)
    ensures Handle(cfg, codec, OPTIONS, path, header, now).Preflight?
    ensures Handle(cfg, codec, OPTIONS, path, header, now).headers["Access-Control-Allow-Origin"] == AllowOrigin
  {
  }

  /**
   * A data-changing or all-status handler runs only for a bearer token
   * that validates with an administrator role; a session handler runs
   * only for a token that validates.
   */
  lemma HandlersRunBehindGuards(cfg: JwtConfig, codec: Codec, m: Verb, path: seq<string>, header: string, now: int)
    requires Handle(cfg, codec, m, path, header, now).Run?
    ensures var h := Handle(cfg, codec, m, path, header, now).handler;
            (AdminOnly(h) ==> BearerClaims(cfg, codec, header, now).Some?
                              && BearerClaims(cfg, codec, header, now).value.role in {RoleAdmin, RoleSuperAdmin})
            && (SessionOnly(h) ==> BearerClaims(cfg, codec, header, now).Some?)
  {
    var r := Lookup(AllRoutes(), m, path).value;
    GuardTable(r);
    AdminChain(cfg, codec, header, now, map[]);
  }

  /**
   * A request routed to login, refresh, health or an upload runs its
   * handler whatever its Authorization header says.
   */
  lemma OpenHandlersIgnoreHeader(cfg: JwtConfig, codec: Codec, m: Verb, path: seq<string>, header: string, now: int)
    requires m != OPTIONS && Lookup(AllRoutes(), m, path).Some? && Unguarded(Lookup(AllRoutes(), m, path).value.handler)
    ensures Handle(cfg, codec, m, path, header, now) == Run(Lookup(AllRoutes(), m, path).value.handler, map[])
  {
    GuardTable(Lookup(AllRoutes(), m, path).value);
  }

  /** The environment's `DEFAULT_ADMIN_*` values; "" when unset. */
  datatype SeedEnv = SeedEnv(username: string, password: string, email: string)

  const DefaultUsername: string := "admin"
  const DefaultPassword: string := "admin123456"
  const DefaultEmail: string := "admin@tourism.com"
  const SeedName: string := "超级管理员"
  const SeedPhone: string := "13800138000"

  function OrDefault(v: string, d: string): (r: string)
    ensures r == v || r == d
    ensures r == "" ==> d == ""
  {
    if v == "" then d else v
  }

  function EmailOf(a: Admin): string {
    a.email
  }

  /** The tables' unique indexes on username and email. */
  predicate Indexed(db: Table<Admin>) {
    Valid(db) && Unique(db, AuthHandlers.UsernameOf) && Unique(db, EmailOf)
  }

  /** The account the seed creates, before any password is set. */
  function SeedAccount(env: SeedEnv, now: int): Admin {
    Admin(OrDefault(env.username, DefaultUsername), "", RoleSuperAdmin, SeedName, OrDefault(env.email, DefaultEmail),
          SeedPhone, "", "active", None, now, now)
  }

  /** `db.Create`: the hook runs, then both unique indexes must admit the row. */
  function CreateAdmin(db: Table<Admin>, a: Admin, h: Hasher): (r: (Table<Admin>, Option<string>))
    requires Valid(db)
    ensures r.1.Some? ==> r.0 == db
    ensures r.1.None? <==> BeforeCreate(a, h).1.None? && !Held(db, AuthHandlers.UsernameOf, a.username) && !Held(db, EmailOf, a.email)
    ensures r.1.None? ==> r.0 == Insert(db, BeforeCreate(a, h).0).0
  {
    var (hooked, err) := BeforeCreate(a, h);
    if err.Some? then (db, err)
    else if Held(db, AuthHandlers.UsernameOf, a.username) || Held(db, EmailOf, a.email) then (db, Some(UniqueViolation))
    else (Insert(db, hooked).0, None)
  }

  /**
   * The email update of an existing account: `Save`'s error is ignored, so
   * an email another row holds leaves the table as it was.
   */
  function UpdateEmail(db: Table<Admin>, id: nat, email: string): (r: Table<Admin>)
    requires Valid(db) && Live(db, id)
    ensures Valid(r)
    ensures r == db || r == Put(db, id, db.rows[id].(email := email))
  {
    if db.rows[id].email == email || HeldByOther(db, EmailOf, email, id) then db
    else Put(db, id, db.rows[id].(email := email))
  }

  /**
   * `SeedDatabase` as written: the password is hashed by `SetPassword`
   * and the create hook hashes that hash again.
   */
  function SeedAsWritten(db: Table<Admin>, h: Hasher, env: SeedEnv, now: int): (r: (Table<Admin>, Option<string>))
    requires Valid(db)
    ensures Valid(r.0)
    ensures r.1.Some? ==> r.0 == db
  {
    var account := SeedAccount(env, now);
    match AuthHandlers.FindByUsername(db, account.username)
    case Some(id) => (UpdateEmail(db, id, account.email), None)
    case None =>
      var (withHash, err) := SetPassword(account, OrDefault(env.password, DefaultPassword), h);
      if err.Some? then (db, err) else CreateAdmin(db, withHash, h)
  }

  /**
   * The seed with the password hashed once: the account carries the plain
   * password and the create hook hashes it. If the account exists, at most
   * its email changes; otherwise one active super administrator is
   * created or the seed fails with nothing changed.
   */
  function Seed(db: Table<Admin>, h: Hasher, env: SeedEnv, now: int): (r: (Table<Admin>, Option<string>))
    requires Valid(db)
    ensures Valid(r.0)
    ensures r.1.Some? ==> r.0 == db
    ensures HeldLive(db, AuthHandlers.UsernameOf, SeedAccount(env, now).username)
            ==> r.1.None? && var id := AuthHandlers.FindByUsername(db, SeedAccount(env, now).username).value;
                (r.0 == db || r.0 == Put(db, id, db.rows[id].(email := SeedAccount(env, now).email)))
    ensures !HeldLive(db, AuthHandlers.UsernameOf, SeedAccount(env, now).username) && r.1.None?
            ==> db.nextID in r.0.rows && var a := r.0.rows[db.nextID];
                r.0 == Insert(db, a).0 && a.role == RoleSuperAdmin && AdminIsActive(a)
                && a.username == SeedAccount(env, now).username && a.email == SeedAccount(env, now).email
  {
    var account := SeedAccount(env, now);
    match AuthHandlers.FindByUsername(db, account.username)
    case Some(id) => (UpdateEmail(db, id, account.email), None)
    case None => CreateAdmin(db, account.(password := OrDefault(env.password, DefaultPassword)), h)
  }

  /** After an insert the lookup finds the new row, when no live row had its username. */
  lemma FoundAfterInsert(db: Table<Admin>, a: Admin)
    requires Valid(db) && !HeldLive(db, AuthHandlers.UsernameOf, a.username)
    ensures AuthHandlers.FindByUsername(Insert(db, a).0, a.username) == Some(db.nextID)
  {
    var t := Insert(db, a).0;
    assert Live(t, db.nextID) && AuthHandlers.UsernameOf(t.rows[db.nextID]) == a.username;
    assert forall id :: Live(t, id) && id != db.nextID ==> Live(db, id) && t.rows[id] == db.rows[id];
  }

  /** Seeding twice changes nothing the first run did not. */
  lemma SeedIdempotent(db: Table<Admin>, h: Hasher, env: SeedEnv, now: int)
    requires Valid(db)
    ensures Seed(Seed(db, h, env, now).0, h, env, now).0 == Seed(db, h, env, now).0
  {
    var account := SeedAccount(env, now);
    var once := Seed(db, h, env, now);
    match AuthHandlers.FindByUsername(db, account.username)
    case Some(id) =>
      if once.0 != db {
        AuthHandlers.SameLookupAfterPut(db, id, db.rows[id].(email := account.email));
        assert AuthHandlers.FindByUsername(once.0, account.username) == Some(id);
        assert once.0.rows[id].email == account.email;
      }
    case None =>
      if once.1.None? {
        var created := BeforeCreate(account.(password := OrDefault(env.password, DefaultPassword)), h).0;
        assert created.username == account.username && created.email == account.email;
        FoundAfterInsert(db, created);
        assert once.0.rows[db.nextID].email == account.email;
      }
  }

  /** On an empty table the seed as written inserts the account with the hook applied to the hashed password. */
  lemma SeedAsWrittenOnEmpty(h: Hasher, env: SeedEnv, now: int)
    requires SeedAsWritten(Empty(), h, env, now).1.None?
    ensures var account := SeedAccount(env, now);
            var withHash := SetPassword(account, OrDefault(env.password, DefaultPassword), h);
            var created := BeforeCreate(withHash.0, h);
            withHash.1.None? && created.1.None?
            && SeedAsWritten(Empty(), h, env, now).0 == Insert(Empty(), created.0).0
  {
    var empty: Table<Admin> := Empty();
    assert AuthHandlers.FindByUsername(empty, SeedAccount(env, now).username).None?;
  }

  /**
   * As written, the seeded administrator cannot log in with the seeded
   * password: on an empty table with a sound hasher, the seed succeeds
   * only by storing a hash of the hash, which refuses the password.
   */
  lemma SeedAsWrittenLocksOut(h: Hasher, env: SeedEnv, cfg: JwtConfig, codec: Codec, now: int)
    requires SoundHasher(h)
    requires SeedAsWritten(Empty(), h, env, now).1.None?
    ensures var db := SeedAsWritten(Empty(), h, env, now).0;
            AuthHandlers.Login(db, cfg, codec, h, SeedAccount(env, now).username, OrDefault(env.password, DefaultPassword), now)
            == (db, Fail(StatusUnauthorized, AuthHandlers.InvalidCredentials))
  {
    var empty: Table<Admin> := Empty();
    var account := SeedAccount(env, now);
    var p := OrDefault(env.password, DefaultPassword);
    SeedAsWrittenOnEmpty(h, env, now);
    HookRehashesHash(account, p, h);
    var stored := BeforeCreate(SetPassword(account, p, h).0, h).0;
    assert !CheckPassword(stored, p, h);
    assert AdminIsActive(stored) && stored.username == account.username;
    var db := SeedAsWritten(empty, h, env, now).0;
    FoundAfterInsert(empty, stored);
    assert db.rows[1] == stored;
    AuthHandlers.LoginDecidedByPassword(db, 1, account.username, cfg, codec, h, p, now);
  }

  /** The corrected seed: on an empty table the default administrator logs in with the seeded password. */
  lemma SeedLetsAdminLogIn(h: Hasher, env: SeedEnv, cfg: JwtConfig, codec: Codec, now: int)
    requires SoundHasher(h)
    requires |Utf8(OrDefault(env.password, DefaultPassword))| <= MaxPasswordBytes
    ensures Seed(Empty(), h, env, now).1.None?
    ensures var db := Seed(Empty(), h, env, now).0;
            AuthHandlers.Login(db, cfg, codec, h, SeedAccount(env, now).username, OrDefault(env.password, DefaultPassword), now).1.Reply?
  {
    var empty: Table<Admin> := Empty();
    var account := SeedAccount(env, now);
    var p := OrDefault(env.password, DefaultPassword);
    assert AuthHandlers.FindByUsername(empty, account.username).None?;
    HookHashesPlainPasswordOnce(account, p, h);
    var stored := BeforeCreate(account.(password := p), h).0;
    var db := Seed(empty, h, env, now).0;
    assert db == Insert(empty, stored).0;
    FoundAfterInsert(empty, stored);
    AuthHandlers.LoginDecidedByPassword(db, 1, account.username, cfg, codec, h, p, now);
  }
}
