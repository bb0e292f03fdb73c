/**
 * The authentication handlers: login, logout, the current user, password
 * change and token refresh, over the administrator table.
 */
module AuthHandlers {
  import opened Wrappers
  import opened Text
  import opened Http
  import opened Store
  import opened Models
  import opened Jwt
  import opened Middleware

  /** The account as the handlers return it: everything but the password hash. */
  datatype AdminInfo = AdminInfo(id: nat, username: string, name: string, email: string, phone: string,
                                 avatar: string, role: string, status: string)

  datatype LoginResponse = LoginResponse(token: string, expiresAt: int, user: AdminInfo)

  function InfoOf(id: nat, a: Admin): (i: AdminInfo)
    ensures i.id == id && i.username == a.username && i.role == a.role && i.status == a.status
  {
    AdminInfo(id, a.username, a.name, a.email, a.phone, a.avatar, a.role, a.status)
  }

  const InvalidFormat: string := "Invalid request format"
  const InvalidCredentials: string := "Invalid username or password"
  const NotActive: string := "Account is not active"
  const UserNotFound: string := "User not found"

  function UsernameOf(a: Admin): string {
    a.username
  }

  /** `Where("username = ?").First`: the live account with that username and the lowest key. */
  function FindByUsername(db: Table<Admin>, username: string): (r: Option<nat>)
    requires Valid(db)
    ensures r.None? <==> !HeldLive(db, UsernameOf, username)
    ensures r.Some? ==> Live(db, r.value) && db.rows[r.value].username == username
    ensures r.Some? ==> forall id :: Live(db, id) && db.rows[id].username == username ==> r.value <= id
  {
    var rows := Select(db, (a: Admin) => a.username == username);
    if |rows| == 0 then
      assert forall id :: Live(db, id) && db.rows[id].username == username ==> Row(id, db.rows[id]) in rows;
      None
    else
      assert forall id :: Live(db, id) && db.rows[id].username == username ==> Row(id, db.rows[id]) in rows;
      assert forall k :: 0 <= k < |rows| ==> rows[0].id <= rows[k].id;
      Some(rows[0].id)
  }

  /**
   * `Login`: both fields required; an unknown username and a wrong
   * password get the same answer; an inactive account is refused before
   * its password is checked. On success the login time is stored and a
   * token for the account is returned with its expiry.
   */
  function Login(db: Table<Admin>, cfg: JwtConfig, codec: Codec, h: Hasher, username: string, password: string, now: int)
    : (r: (Table<Admin>, Response<LoginResponse>))
    requires Valid(db)
    ensures Valid(r.0)
    ensures username == "" || password == "" ==> r == (db, Fail(StatusBadRequest, InvalidFormat))
    ensures username != "" && password != "" && !HeldLive(db, UsernameOf, username) ==> r == (db, Fail(StatusUnauthorized, InvalidCredentials))
    ensures r.1.Fail? ==> r.0 == db
    ensures r.1.Reply? <==> username != "" && password != "" && FindByUsername(db, username).Some?
                            && AdminIsActive(db.rows[FindByUsername(db, username).value])
                            && CheckPassword(db.rows[FindByUsername(db, username).value], password, h)
    ensures r.1.Reply? ==> var id := FindByUsername(db, username).value;
                           var a := db.rows[id];
                           r.1.status == StatusOK
                           && r.1.body.token == GenerateToken(cfg, codec, id, a.username, a.role, now)
                           && r.1.body.expiresAt == now + cfg.expiration
                           && r.1.body.user == InfoOf(id, a.(lastLogin := Some(now)))
                           && r.0 == Put(db, id, a.(lastLogin := Some(now)))
  {
    if username == "" || password == "" then (db, Fail(StatusBadRequest, InvalidFormat))
    else match FindByUsername(db, username)
      case None => (db, Fail(StatusUnauthorized, InvalidCredentials))
      case Some(id) =>
        var a := db.rows[id];
        if !AdminIsActive(a) then (db, Fail(StatusForbidden, NotActive))
        else if !CheckPassword(a, password, h) then (db, Fail(StatusUnauthorized, InvalidCredentials))
        else
          var token := GenerateToken(cfg, codec, id, a.username, a.role, now);
          var a2 := a.(lastLogin := Some(now));
          (Put(db, id, a2), Reply(StatusOK, LoginResponse(token, now + cfg.expiration, InfoOf(id, a2))))
  }

  /** For an active account, a wrong password is answered exactly like an unknown username. */
  lemma LoginHidesWhichPartFailed(db: Table<Admin>, cfg: JwtConfig, codec: Codec, h: Hasher, username: string, password: string,
                                  unknown: string, now: int)
    requires Valid(db) && username != "" && password != "" && unknown != ""
    requires HeldLive(db, UsernameOf, username) && !HeldLive(db, UsernameOf, unknown)
    requires AdminIsActive(db.rows[FindByUsername(db, username).value])
    requires !CheckPassword(db.rows[FindByUsername(db, username).value], password, h)
    ensures Login(db, cfg, codec, h, username, password, now) == Login(db, cfg, codec, h, unknown, password, now)
  {
  }

  /** A found account that is not active is refused with 403 whatever the password, and nothing is stored. */
  lemma InactiveAccountRefused(db: Table<Admin>, cfg: JwtConfig, codec: Codec, h: Hasher, username: string, password: string, now: int)
    requires Valid(db) && username != "" && password != ""
    requires FindByUsername(db, username).Some? && !AdminIsActive(db.rows[FindByUsername(db, username).value])
    ensures Login(db, cfg, codec, h, username, password, now) == (db, Fail(StatusForbidden, NotActive))
  {
  }

  /** The token a login returns authenticates its account until it expires. */
  lemma LoginTokenAuthenticates(db: Table<Admin>, cfg: JwtConfig, codec: Codec, h: Hasher, username: string, password: string,
                                now: int, ctx: Context)
    requires Valid(db) && Sound(codec) && cfg.expiration > 0
    requires Login(db, cfg, codec, h, username, password, now).1.Reply?
    ensures var res := Login(db, cfg, codec, h, username, password, now).1.body;
            var o := AuthRequired(cfg, codec, BearerPrefix + res.token, now, ctx);
            o.Next? && GetUserID(o.ctx) == Ok(res.user.id) && GetRole(o.ctx) == Ok(res.user.role)
  {
    var id := FindByUsername(db, username).value;
    var a := db.rows[id];
    AuthAcceptsIssuedToken(cfg, codec, id, a.username, a.role, now, ctx);
  }

  /** `GetCurrentUser`: the account the context's user id names. */
  function GetCurrentUser(db: Table<Admin>, ctx: Context): (r: Response<AdminInfo>)
    ensures GetUserID(ctx).Err? ==> r == Fail(StatusUnauthorized, "Unauthorized")
    ensures GetUserID(ctx).Ok? && !Live(db, GetUserID(ctx).value) ==> r == Fail(StatusNotFound, UserNotFound)
    ensures r.Reply? <==> GetUserID(ctx).Ok? && Live(db, GetUserID(ctx).value)
    ensures r.Reply? ==> r == Reply(StatusOK, InfoOf(GetUserID(ctx).value, db.rows[GetUserID(ctx).value]))
  {
    match GetUserID(ctx)
    case Err(_) => Fail(StatusUnauthorized, "Unauthorized")
    case Ok(id) => if Live(db, id) then Reply(StatusOK, InfoOf(id, db.rows[id])) else Fail(StatusNotFound, UserNotFound)
  }

  /** `Logout` is stateless: the token stays valid until it expires. */
  function Logout(): (r: Response<string>)
    ensures r.Reply? && r.status == StatusOK
  {
    Reply(StatusOK, "Logout successful")
  }

  const MinNewPasswordLength: nat := 6

  /**
   * `ChangePassword`: the old password must check, the new one must have
   * at least six characters and differ from the old; the new hash is
   * saved.
   */
  function ChangePassword(db: Table<Admin>, ctx: Context, h: Hasher, oldPassword: string, newPassword: string)
    : (r: (Table<Admin>, Response<string>))
    requires Valid(db)
    ensures Valid(r.0)
    ensures oldPassword == "" || |newPassword| < MinNewPasswordLength ==> r == (db, Fail(StatusBadRequest, InvalidFormat))
    ensures r.1.Fail? ==> r.0 == db
    ensures r.1.Reply? <==> oldPassword != "" && |newPassword| >= MinNewPasswordLength && GetUserID(ctx).Ok?
                            && Live(db, GetUserID(ctx).value) && CheckPassword(db.rows[GetUserID(ctx).value], oldPassword, h)
                            && oldPassword != newPassword && h.hash(newPassword).Ok?
    ensures r.1.Reply? ==> var id := GetUserID(ctx).value;
                           r.1 == Reply(StatusOK, "Password changed successfully")
                           && r.0 == Put(db, id, db.rows[id].(password := h.hash(newPassword).value))
  {
    if oldPassword == "" || |newPassword| < MinNewPasswordLength then (db, Fail(StatusBadRequest, InvalidFormat))
    else match GetUserID(ctx)
      case Err(_) => (db, Fail(StatusUnauthorized, "Unauthorized"))
      case Ok(id) =>
        if !Live(db, id) then (db, Fail(StatusNotFound, UserNotFound))
        else
          var a := db.rows[id];
          if !CheckPassword(a, oldPassword, h) then (db, Fail(StatusBadRequest, "Old password is incorrect"))
          else if oldPassword == newPassword then (db, Fail(StatusBadRequest, "New password must be different from old password"))
          else match SetPassword(a, newPassword, h)
            case (_, Some(_)) => (db, Fail(StatusInternalServerError, "Failed to update password"))
            case (a2, None) => (Put(db, id, a2), Reply(StatusOK, "Password changed successfully"))
  }

  /**
   * After a password change the account logs in with the new password,
   * and with the old one exactly when bcrypt derives the same key from
   * both; between passwords of at most 72 bytes without a NUL character
   * the old one no longer works (for an active account with a non-empty
   * username that the lookup finds).
   */
  lemma ChangeThenLogin(db: Table<Admin>, ctx: Context, h: Hasher, cfg: JwtConfig, codec: Codec,
                        oldPassword: string, newPassword: string, now: int)
    requires Valid(db) && SoundHasher(h)
    requires ChangePassword(db, ctx, h, oldPassword, newPassword).1.Reply?
    requires AdminIsActive(db.rows[GetUserID(ctx).value]) && db.rows[GetUserID(ctx).value].username != ""
    requires FindByUsername(db, db.rows[GetUserID(ctx).value].username) == Some(GetUserID(ctx).value)
    ensures var after := ChangePassword(db, ctx, h, oldPassword, newPassword).0;
            var name := db.rows[GetUserID(ctx).value].username;
            Login(after, cfg, codec, h, name, newPassword, now).1.Reply?
            && (Login(after, cfg, codec, h, name, oldPassword, now).1.Reply? <==> BcryptKey(oldPassword) == BcryptKey(newPassword))
            && (BcryptKey(oldPassword) != BcryptKey(newPassword) ==>
                  Login(after, cfg, codec, h, name, oldPassword, now) == (after, Fail(StatusUnauthorized, InvalidCredentials)))
    ensures |Utf8(oldPassword)| <= MaxPasswordBytes && '\0' !in oldPassword && '\0' !in newPassword ==>
              Login(ChangePassword(db, ctx, h, oldPassword, newPassword).0, cfg, codec, h, db.rows[GetUserID(ctx).value].username, oldPassword, now).1.Fail?
  {
    var id := GetUserID(ctx).value;
    var after := ChangePassword(db, ctx, h, oldPassword, newPassword).0;
    var name := db.rows[id].username;
    var a2 := db.rows[id].(password := h.hash(newPassword).value);
    assert after == Put(db, id, a2);
    SameLookupAfterPut(db, id, a2);
    SetThenCheck(db.rows[id], newPassword, oldPassword, h);
    assert SetPassword(db.rows[id], newPassword, h).0 == a2;
    assert after.rows[id] == a2 && AdminIsActive(a2);
    assert CheckPassword(a2, newPassword, h);
    assert CheckPassword(a2, oldPassword, h) <==> BcryptKey(oldPassword) == BcryptKey(newPassword);
    if |Utf8(oldPassword)| <= MaxPasswordBytes && '\0' !in oldPassword && '\0' !in newPassword {
      ShortPasswordKey(oldPassword, newPassword);
    }
    assert FindByUsername(after, name) == Some(id);
    LoginDecidedByPassword(after, id, name, cfg, codec, h, newPassword, now);
    LoginDecidedByPassword(after, id, name, cfg, codec, h, oldPassword, now);
  }

  /** Once the username lookup finds an active account, the password alone decides the login. */
  lemma LoginDecidedByPassword(db: Table<Admin>, id: nat, name: string, cfg: JwtConfig, codec: Codec, h: Hasher,
                               password: string, now: int)
    requires Valid(db) && name != "" && password != ""
    requires FindByUsername(db, name) == Some(id) && AdminIsActive(db.rows[id])
    ensures Login(db, cfg, codec, h, name, password, now).1.Reply? <==> CheckPassword(db.rows[id], password, h)
    ensures !CheckPassword(db.rows[id], password, h) ==> Login(db, cfg, codec, h, name, password, now) == (db, Fail(StatusUnauthorized, InvalidCredentials))
  {
  }

  /** Saving an account without renaming it leaves every username lookup as it was. */
  lemma SameLookupAfterPut(db: Table<Admin>, id: nat, a: Admin)
    requires Valid(db) && Live(db, id) && a.username == db.rows[id].username
    ensures forall name :: FindByUsername(Put(db, id, a), name) == FindByUsername(db, name)
  {
    var t := Put(db, id, a);
    forall name ensures FindByUsername(t, name) == FindByUsername(db, name) {
      var r1 := FindByUsername(t, name);
      var r2 := FindByUsername(db, name);
      assert forall k :: Live(t, k) <==> Live(db, k);
      assert forall k :: Live(t, k) ==> t.rows[k].username == db.rows[k].username;
      if r1.Some? && r2.Some? {
        assert r1.value <= r2.value && r2.value <= r1.value;
      }
    }
  }

  /** The length of the scheme word and the space that must follow it. */
  const SchemeLength: nat := |BearerScheme| + 1

  /**
   * The refresh handler cuts the first seven bytes off the header without
   * looking at them. A header of fewer bytes makes the slice panic, which
   * the recovery middleware turns into a bare 500; a cut inside a
   * multi-byte character leaves a token that starts with a continuation
   * byte.
   */
  function ExtractTokenAsWritten(header: string): (r: ByteCut)
    ensures r.PastEnd? <==> |Utf8(header)| < SchemeLength
    ensures r.AtChar? ==> Utf8(r.rest) == Utf8(header)[SchemeLength..] && |r.rest| <= |header|
    ensures r.MidChar? ==> SchemeLength < |Utf8(header)| && 0x80 <= Utf8(header)[SchemeLength] < 0xC0
  {
    CutBytes(header, SchemeLength)
  }

  /** Token extraction as the authentication middleware does it: the "Bearer " prefix must be there. */
  function ExtractToken(header: string): (r: Option<string>)
    ensures r.Some? <==> HasPrefix(header, BearerPrefix)
    ensures r.Some? ==> BearerPrefix + r.value == header
  {
    TrimBearerChanges(header);
    if HasPrefix(header, BearerPrefix) then
      assert header == header[..|BearerPrefix|] + header[|BearerPrefix|..];
      Some(header[|BearerPrefix|..])
    else None
  }

  /** The steps of `RefreshToken` after the token has been cut out of the header. */
  function RefreshWith(db: Table<Admin>, cfg: JwtConfig, codec: Codec, token: string, now: int): (r: Response<LoginResponse>)
    ensures token == "" ==> r == Fail(StatusUnauthorized, "Invalid authorization header format")
    ensures token != "" && ValidateToken(cfg, codec, token, now).Err? ==> r == Fail(StatusUnauthorized, "Invalid or expired token")
    ensures token != "" && Jwt.RefreshToken(cfg, codec, token, now).Ok? ==>
            var v := ValidateToken(cfg, codec, Jwt.RefreshToken(cfg, codec, token, now).value, now);
            (v.Err? ==> r == Fail(StatusInternalServerError, "Failed to validate new token"))
            && (v.Ok? && !Live(db, v.value.userID) ==> r == Fail(StatusNotFound, UserNotFound))
            && (v.Ok? && Live(db, v.value.userID) && !AdminIsActive(db.rows[v.value.userID]) ==> r == Fail(StatusForbidden, NotActive))
            && (r.Reply? <==> v.Ok? && Live(db, v.value.userID) && AdminIsActive(db.rows[v.value.userID]))
            && (r.Reply? ==> r.body.user.id == v.value.userID)
    ensures r.Reply? ==> r.status == StatusOK && token != ""
                         && r.body.token == Jwt.RefreshToken(cfg, codec, token, now).value
                         && r.body.expiresAt == now + cfg.expiration
                         && Live(db, r.body.user.id) && AdminIsActive(db.rows[r.body.user.id])
                         && r.body.user == InfoOf(r.body.user.id, db.rows[r.body.user.id])
  {
    if token == "" then Fail(StatusUnauthorized, "Invalid authorization header format")
    else match Jwt.RefreshToken(cfg, codec, token, now)
      case Err(_) => Fail(StatusUnauthorized, "Invalid or expired token")
      case Ok(newToken) =>
        match ValidateToken(cfg, codec, newToken, now)
        case Err(_) => Fail(StatusInternalServerError, "Failed to validate new token")
        case Ok(c) =>
          if !Live(db, c.userID) then Fail(StatusNotFound, UserNotFound)
          else if !AdminIsActive(db.rows[c.userID]) then Fail(StatusForbidden, NotActive)
          else Reply(StatusOK, LoginResponse(newToken, now + cfg.expiration, InfoOf(c.userID, db.rows[c.userID])))
  }

  /**
   * `RefreshToken` as written: an empty header is refused; a header of
   * fewer than seven bytes panics; a cut inside a character leaves bytes
   * that are not UTF-8 and so not base64url, which the JWT parser rejects
   * (a compact JWS is ASCII, section 7.1 of RFC 7515).
   */
  function RefreshTokenAsWritten(db: Table<Admin>, cfg: JwtConfig, codec: Codec, header: string, now: int): (r: Response<LoginResponse>)
    ensures header == "" ==> r == Fail(StatusUnauthorized, "Authorization header is required")
    ensures header != "" && |Utf8(header)| < SchemeLength ==> r == Aborted(StatusInternalServerError)
    ensures header != "" && ExtractTokenAsWritten(header).MidChar? ==> r == Fail(StatusUnauthorized, "Invalid or expired token")
    ensures header != "" && ExtractTokenAsWritten(header).AtChar? ==> r == RefreshWith(db, cfg, codec, ExtractTokenAsWritten(header).rest, now)
  {
    if header == "" then Fail(StatusUnauthorized, "Authorization header is required")
    else match ExtractTokenAsWritten(header)
      case PastEnd => Aborted(StatusInternalServerError)
      case MidChar => Fail(StatusUnauthorized, "Invalid or expired token")
      case AtChar(token) => RefreshWith(db, cfg, codec, token, now)
  }

  /** The header "Bearer" (no space, no token) crashes the handler instead of being refused with 401. */
  lemma RefreshAsWrittenPanics(db: Table<Admin>, cfg: JwtConfig, codec: Codec, now: int)
    ensures RefreshTokenAsWritten(db, cfg, codec, BearerScheme, now) == Aborted(StatusInternalServerError)
  {
    Utf8Ascii(BearerScheme);
  }

  /**
   * The header "日本語" is nine bytes: the cut after the seventh lands inside
   * the last character, and the handler answers 401 rather than 500.
   */
  lemma RefreshAsWrittenCutsBytes(db: Table<Admin>, cfg: JwtConfig, codec: Codec, now: int)
    ensures |"日本語"| < SchemeLength
    ensures ExtractTokenAsWritten("日本語") == MidChar
    ensures RefreshTokenAsWritten(db, cfg, codec, "日本語", now) == Fail(StatusUnauthorized, "Invalid or expired token")
  {
    var h := "日本語";
    assert Utf8(h) == EncodeChar(h[0]) + (EncodeChar(h[1]) + (EncodeChar(h[2]) + Utf8(h[3..])));
    assert |EncodeChar(h[0])| == 3 && |EncodeChar(h[1])| == 3 && |EncodeChar(h[2])| == 3;
    assert CutBytes(h, 7) == CutBytes(h[1..], 4) == CutBytes(h[1..][1..], 1);
  }

  /** `RefreshToken` with the header read as the middleware reads it: never a crash, always a 401 for a bad header. */
  function RefreshToken(db: Table<Admin>, cfg: JwtConfig, codec: Codec, header: string, now: int): (r: Response<LoginResponse>)
    ensures !r.Aborted?
    ensures header == "" ==> r == Fail(StatusUnauthorized, "Authorization header is required")
    ensures header != "" && !HasPrefix(header, BearerPrefix) ==> r == Fail(StatusUnauthorized, "Invalid authorization header format")
    ensures HasPrefix(header, BearerPrefix) ==> r == RefreshWith(db, cfg, codec, header[|BearerPrefix|..], now)
  {
    if header == "" then Fail(StatusUnauthorized, "Authorization header is required")
    else match ExtractToken(header)
      case None => Fail(StatusUnauthorized, "Invalid authorization header format")
      case Some(token) => RefreshWith(db, cfg, codec, token, now)
  }

  /** On every well-formed "Bearer <token>" header the corrected handler answers as the original does. */
  lemma RefreshAgreesOnBearerHeaders(db: Table<Admin>, cfg: JwtConfig, codec: Codec, header: string, now: int)
    requires HasPrefix(header, BearerPrefix)
    ensures RefreshToken(db, cfg, codec, header, now) == RefreshTokenAsWritten(db, cfg, codec, header, now)
  {
    var token := header[|BearerPrefix|..];
    assert header == BearerPrefix + token;
    Utf8Ascii(BearerPrefix);
    CutBytesAfterPrefix(BearerPrefix, token);
  }

  /**
   * With a sound codec and a positive lifetime, refreshing a valid token of
   * a live, active account succeeds, and the new token authenticates the
   * same account: the "failed to validate new token" branch cannot be taken.
   */
  lemma RefreshKeepsSession(db: Table<Admin>, cfg: JwtConfig, codec: Codec, token: string, now: int, ctx: Context)
    requires Sound(codec) && cfg.expiration > 0 && token != ""
    requires ValidateToken(cfg, codec, token, now).Ok?
    requires Live(db, ValidateToken(cfg, codec, token, now).value.userID)
    requires AdminIsActive(db.rows[ValidateToken(cfg, codec, token, now).value.userID])
    ensures var r := RefreshToken(db, cfg, codec, BearerPrefix + token, now);
            r.Reply? && r.body.user.id == ValidateToken(cfg, codec, token, now).value.userID
            && AuthRequired(cfg, codec, BearerPrefix + r.body.token, now, ctx).Next?
  {
    var header := BearerPrefix + token;
    assert header[..|BearerPrefix|] == BearerPrefix;
    assert header[|BearerPrefix|..] == token;
    RefreshPreservesIdentity(cfg, codec, token, now);
    var prev := ValidateToken(cfg, codec, token, now).value;
    AuthAcceptsIssuedToken(cfg, codec, prev.userID, prev.username, prev.role, now, ctx);
  }

  /**
   * With a sound codec, a valid token is re-checked against the account
   * table: a removed account gets 404 and an account that is no longer
   * active gets 403, as at login.
   */
  lemma RefreshRechecksAccount(db: Table<Admin>, cfg: JwtConfig, codec: Codec, token: string, now: int)
    requires Sound(codec) && cfg.expiration > 0 && token != ""
    requires ValidateToken(cfg, codec, token, now).Ok?
    ensures var id := ValidateToken(cfg, codec, token, now).value.userID;
            var r := RefreshToken(db, cfg, codec, BearerPrefix + token, now);
            (!Live(db, id) ==> r == Fail(StatusNotFound, UserNotFound))
            && (Live(db, id) && !AdminIsActive(db.rows[id]) ==> r == Fail(StatusForbidden, NotActive))
  {
    var header := BearerPrefix + token;
    assert header[..|BearerPrefix|] == BearerPrefix;
    assert header[|BearerPrefix|..] == token;
    RefreshPreservesIdentity(cfg, codec, token, now);
  }
}
