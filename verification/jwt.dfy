/**
 * Issuing and checking the HS256 session token. Signing and decoding are
 * a codec passed in; the registered-claim time checks are written out.
 * Times are whole Unix seconds (the library truncates claim times to
 * seconds, so comparing the floor of the clock is exact).
 */
module Jwt {
  import opened Wrappers

  const Issuer: string := "tourism-recommender"
  const DefaultSecret: string := "your-secret-key-change-this-in-production"
  const DefaultExpiration: int := 24 * 60 * 60

  /** The process-wide signing key and token lifetime in seconds. */
  datatype JwtConfig = JwtConfig(secret: string, expiration: int)

  const DefaultConfig: JwtConfig := JwtConfig(DefaultSecret, DefaultExpiration)

  datatype Claims = Claims(
    userID: nat,
    username: string,
    role: string,
    expiresAt: Option<int>,
    issuedAt: Option<int>,
    notBefore: Option<int>,
    issuer: string)

  /**
   * The token library: `sign` serialises and signs, `parse` checks the
   * HMAC signature under a key and decodes, `peek` decodes without
   * checking anything.
   */
  datatype Codec = Codec(
    sign: (string, Claims) -> string,
    parse: (string, string) -> Option<Claims>,
    peek: string -> Option<Claims>)

  /** What the library guarantees: a token signed under a key decodes to its claims. */
  ghost predicate Sound(codec: Codec) {
    forall secret: string, c: Claims ::
      codec.parse(secret, codec.sign(secret, c)) == Some(c) && codec.peek(codec.sign(secret, c)) == Some(c)
  }

  /** Claims for a fresh session: expiry `expiration` seconds from now, issued and valid from now. */
  function NewClaims(cfg: JwtConfig, userID: nat, username: string, role: string, now: int): (c: Claims)
    ensures c.userID == userID && c.username == username && c.role == role
    ensures c.expiresAt == Some(now + cfg.expiration) && c.issuedAt == Some(now) && c.notBefore == Some(now)
    ensures c.issuer == "tourism-recommender"
  {
    Claims(userID, username, role, Some(now + cfg.expiration), Some(now), Some(now), Issuer)
  }

  function GenerateToken(cfg: JwtConfig, codec: Codec, userID: nat, username: string, role: string, now: int): (t: string)
    ensures Sound(codec) ==> codec.peek(t) == Some(NewClaims(cfg, userID, username, role, now))
  {
    codec.sign(cfg.secret, NewClaims(cfg, userID, username, role, now))
  }

  datatype TokenError = Malformed | Expired | NotValidYet

  /** Registered-claim checks: `exp`, when present, must lie strictly after now; `nbf`, when present, at or before now. */
  predicate TimeValid(c: Claims, now: int) {
    (c.expiresAt.None? || now < c.expiresAt.value) && (c.notBefore.None? || now >= c.notBefore.value)
  }

  /** Signature under the current key, then the expiry and not-before checks. */
  function ValidateToken(cfg: JwtConfig, codec: Codec, token: string, now: int): (r: Result<Claims, TokenError>)
    ensures r.Ok? <==> codec.parse(cfg.secret, token).Some? && TimeValid(codec.parse(cfg.secret, token).value, now)
    ensures r.Ok? ==> r.value == codec.parse(cfg.secret, token).value
  {
    match codec.parse(cfg.secret, token)
    case None => Err(Malformed)
    case Some(c) =>
      if c.expiresAt.Some? && now >= c.expiresAt.value then Err(Expired)
      else if c.notBefore.Some? && now < c.notBefore.value then Err(NotValidYet)
      else Ok(c)
  }

  /**
   * A token issued at `issued` validates exactly during
   * `[issued, issued + expiration)` and carries the user it was issued for.
   */
  lemma GeneratedTokenLifetime(cfg: JwtConfig, codec: Codec, userID: nat, username: string, role: string, issued: int, now: int)
    requires Sound(codec)
    ensures var r := ValidateToken(cfg, codec, GenerateToken(cfg, codec, userID, username, role, issued), now);
            (r.Ok? <==> issued <= now < issued + cfg.expiration)
            && (r.Ok? ==> r.value.userID == userID && r.value.username == username && r.value.role == role)
  {
    var c := NewClaims(cfg, userID, username, role, issued);
    assert codec.parse(cfg.secret, codec.sign(cfg.secret, c)) == Some(c);
  }

  /** A fresh token for the same user, role and name, with new times. */
  function RefreshToken(cfg: JwtConfig, codec: Codec, token: string, now: int): (r: Result<string, TokenError>)
    ensures r.Err? <==> ValidateToken(cfg, codec, token, now).Err?
    ensures r.Err? ==> r.error == ValidateToken(cfg, codec, token, now).error
  {
    match ValidateToken(cfg, codec, token, now)
    case Err(e) => Err(e)
    case Ok(c) => Ok(GenerateToken(cfg, codec, c.userID, c.username, c.role, now))
  }

  /** The refreshed token is valid now (for a positive lifetime) and names the same user with the same role. */
  lemma RefreshPreservesIdentity(cfg: JwtConfig, codec: Codec, token: string, now: int)
    requires Sound(codec) && cfg.expiration > 0
    requires ValidateToken(cfg, codec, token, now).Ok?
    ensures var prev := ValidateToken(cfg, codec, token, now).value;
            var r := ValidateToken(cfg, codec, RefreshToken(cfg, codec, token, now).value, now);
            r.Ok? && r.value.userID == prev.userID && r.value.username == prev.username && r.value.role == prev.role
            && r.value.expiresAt == Some(now + cfg.expiration)
  {
    var prev := ValidateToken(cfg, codec, token, now).value;
    GeneratedTokenLifetime(cfg, codec, prev.userID, prev.username, prev.role, now, now);
    var c := NewClaims(cfg, prev.userID, prev.username, prev.role, now);
    assert codec.parse(cfg.secret, codec.sign(cfg.secret, c)) == Some(c);
  }

  function GetUserIDFromToken(cfg: JwtConfig, codec: Codec, token: string, now: int): (r: Result<nat, TokenError>)
    ensures r.Err? <==> ValidateToken(cfg, codec, token, now).Err?
    ensures r.Ok? ==> r.value == codec.parse(cfg.secret, token).value.userID
  {
    match ValidateToken(cfg, codec, token, now)
    case Err(e) => Err(e)
    case Ok(c) => Ok(c.userID)
  }

  function GetUsernameFromToken(cfg: JwtConfig, codec: Codec, token: string, now: int): (r: Result<string, TokenError>)
    ensures r.Err? <==> ValidateToken(cfg, codec, token, now).Err?
    ensures r.Ok? ==> r.value == codec.parse(cfg.secret, token).value.username
  {
    match ValidateToken(cfg, codec, token, now)
    case Err(e) => Err(e)
    case Ok(c) => Ok(c.username)
  }

  function GetRoleFromToken(cfg: JwtConfig, codec: Codec, token: string, now: int): (r: Result<string, TokenError>)
    ensures r.Err? <==> ValidateToken(cfg, codec, token, now).Err?
    ensures r.Ok? ==> r.value == codec.parse(cfg.secret, token).value.role
  {
    match ValidateToken(cfg, codec, token, now)
    case Err(e) => Err(e)
    case Ok(c) => Ok(c.role)
  }

  /** The outcome of the unverified expiry check; a token without `exp` dereferences nil. */
  datatype ExpiryCheck = Checked(expired: bool) | NilExpiryPanic

  /** Undecodable tokens count as expired; otherwise expired iff now is strictly after `exp`. */
  function IsTokenExpired(codec: Codec, token: string, now: int): (r: ExpiryCheck)
    ensures codec.peek(token).None? ==> r == Checked(true)
    ensures codec.peek(token).Some? && codec.peek(token).value.expiresAt.None? ==> r == NilExpiryPanic
    ensures codec.peek(token).Some? && codec.peek(token).value.expiresAt.Some?
            ==> r == Checked(now > codec.peek(token).value.expiresAt.value)
  {
    match codec.peek(token)
    case None => Checked(true)
    case Some(c) =>
      if c.expiresAt.None? then NilExpiryPanic
      else Checked(now > c.expiresAt.value)
  }

  /**
   * At the expiry second itself the token is already rejected by
   * validation but not yet reported expired by the unverified check.
   */
  lemma ExpiryBoundaryDisagreement(cfg: JwtConfig, codec: Codec, userID: nat, username: string, role: string, issued: int)
    requires Sound(codec) && cfg.expiration >= 0
    ensures var t := GenerateToken(cfg, codec, userID, username, role, issued);
            var at := issued + cfg.expiration;
            ValidateToken(cfg, codec, t, at).Err? && IsTokenExpired(codec, t, at) == Checked(false)
  {
    var c := NewClaims(cfg, userID, username, role, issued);
    assert codec.parse(cfg.secret, codec.sign(cfg.secret, c)) == Some(c);
  }

  /** An empty secret is ignored. */
  function SetJWTSecret(cfg: JwtConfig, secret: string): (r: JwtConfig)
    ensures r.expiration == cfg.expiration
    ensures secret == "" ==> r == cfg
    ensures secret != "" ==> r.secret == secret
  {
    if secret != "" then cfg.(secret := secret) else cfg
  }

  /** A non-positive lifetime is ignored. */
  function SetTokenExpiration(cfg: JwtConfig, expiration: int): (r: JwtConfig)
    ensures r.secret == cfg.secret
    ensures expiration <= 0 ==> r == cfg
    ensures expiration > 0 ==> r.expiration == expiration
  {
    if expiration > 0 then cfg.(expiration := expiration) else cfg
  }

  /** One call to either setter. */
  datatype Setting = Secret(secret: string) | Lifetime(expiration: int)

  /** The configuration after a run of setter calls, in order. */
  function ApplySettings(cfg: JwtConfig, calls: seq<Setting>): (r: JwtConfig)
    decreases |calls|
  {
    if calls == [] then cfg
    else
      var next := match calls[0]
        case Secret(s) => SetJWTSecret(cfg, s)
        case Lifetime(e) => SetTokenExpiration(cfg, e);
      ApplySettings(next, calls[1..])
  }

  /** Starting from a positive lifetime, the lifetime stays positive under any sequence of setter calls. */
  lemma {:induction false} SettersKeepLifetimePositive(cfg: JwtConfig, calls: seq<Setting>)
    requires cfg.expiration > 0
    ensures ApplySettings(cfg, calls).expiration > 0
    decreases |calls|
  {
    if calls != [] {
      var next := match calls[0]
        case Secret(s) => SetJWTSecret(cfg, s)
        case Lifetime(e) => SetTokenExpiration(cfg, e);
      SettersKeepLifetimePositive(next, calls[1..]);
    }
  }
}
