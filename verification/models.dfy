/**
 * The persisted entities and the behaviour attached to them: account
 * state and password hashing for administrators, the validity window and
 * derived URLs of recommendors. Database ids are the keys of the tables
 * in `Store`, so the records here carry no id of their own.
 */
module Models {
  import opened Wrappers
  import opened Text

  const RoleSuperAdmin: string := "super_admin"
  const RoleAdmin: string := "admin"

  /**
   * The password-hashing library: `hash` salts and hashes a password or
   * fails, `compare` checks a candidate password against a stored hash.
   */
  datatype Hasher = Hasher(hash: string -> Result<string, string>, compare: (string, string) -> bool)

  const MaxPasswordBytes: nat := 72

  /**
   * The key bcrypt derives from a password: its bytes with a NUL byte
   * appended, repeated and cut to 72 bytes. Only this key enters the
   * hash, so bytes past the 72nd are ignored.
   */
  function BcryptKey(p: string): (k: seq<Byte>)
    ensures |k| == MaxPasswordBytes
    ensures forall i :: 0 <= i < |Utf8(p)| && i < MaxPasswordBytes ==> k[i] == Utf8(p)[i]
    ensures |Utf8(p)| < MaxPasswordBytes ==> k[|Utf8(p)|] == 0
  {
    Repeat(Utf8(p) + [0], MaxPasswordBytes)
  }

  /** `b` repeated until `n` bytes are written. */
  function Repeat(b: seq<Byte>, n: nat): (r: seq<Byte>)
    requires |b| > 0
    ensures |r| == n
    ensures forall i :: 0 <= i < n && i < |b| ==> r[i] == b[i]
    decreases n
  {
    if n <= |b| then b[..n] else b + Repeat(b, n - |b|)
  }

  /**
   * What bcrypt guarantees: passwords over 72 bytes are refused; a hash
   * is non-empty and its own key differs from the password's; a stored
   * hash accepts exactly the candidates with the same key as the password
   * it was made from.
   */
  ghost predicate SoundHasher(h: Hasher) {
    (forall p :: h.hash(p).Err? <==> |Utf8(p)| > MaxPasswordBytes)
    && (forall p :: h.hash(p).Ok? ==> h.hash(p).value != "" && BcryptKey(h.hash(p).value) != BcryptKey(p))
    && (forall p, q {:trigger h.compare(h.hash(q).value, p)} ::
          h.hash(q).Ok? ==> (h.compare(h.hash(q).value, p) <==> BcryptKey(p) == BcryptKey(q)))
  }

  /** Past 72 bytes a password's key stops changing: anything appended is ignored. */
  lemma LongPasswordKey(p: string, extra: string)
    requires |Utf8(p)| >= MaxPasswordBytes
    ensures BcryptKey(p + extra) == BcryptKey(p)
  {
    Utf8Concat(p, extra);
  }

  /** Two passwords of at most 72 bytes without a NUL character share a key only when they are equal. */
  lemma ShortPasswordKey(p: string, q: string)
    requires |Utf8(p)| <= MaxPasswordBytes && |Utf8(q)| <= MaxPasswordBytes
    requires '\0' !in p && '\0' !in q
    ensures BcryptKey(p) == BcryptKey(q) <==> p == q
  {
    if BcryptKey(p) == BcryptKey(q) {
      var bp, bq := Utf8(p), Utf8(q);
      Utf8Zero(p);
      Utf8Zero(q);
      if |bp| < |bq| {
        assert false;
      } else if |bq| < |bp| {
        assert false;
      }
      assert forall i :: 0 <= i < |bp| ==> bp[i] == BcryptKey(p)[i] == bq[i];
      assert bp == bq;
      Utf8Injective(p, q);
    }
  }

  const HashPrefix: string := "$2a$10$"

  /**
   * A deterministic stand-in with bcrypt's length limit and key, showing
   * `SoundHasher` can be met: a tag character that differs from the key's
   * first byte, then one character per key byte.
   */
  function StandInText(k: seq<Byte>): (t: string)
    requires |k| > 0
    ensures |t| == |k| + 1 && t[0] as int < 0x80 && t[0] as int != k[0]
    ensures forall i :: 0 <= i < |k| ==> t[i + 1] as int == k[i] as int + 0x100
  {
    [if k[0] == '$' as int then '#' else '$'] + seq(|k|, i requires 0 <= i < |k| => (k[i] as int + 0x100) as char)
  }

  function StandInHash(p: string): Result<string, string> {
    if |Utf8(p)| > MaxPasswordBytes then Err("bcrypt: password length exceeds 72 bytes") else Ok(StandInText(BcryptKey(p)))
  }

  predicate StandInCompare(hashed: string, p: string) {
    hashed == StandInText(BcryptKey(p))
  }

  const StandIn: Hasher := Hasher(StandInHash, StandInCompare)

  lemma StandInIsSound()
    ensures SoundHasher(StandIn)
  {
    forall p, q | StandIn.hash(q).Ok? && StandIn.compare(StandIn.hash(q).value, p)
      ensures BcryptKey(p) == BcryptKey(q)
    {
      var kp, kq := BcryptKey(p), BcryptKey(q);
      assert forall i :: 0 <= i < |kp| ==> kp[i] == kq[i];
    }
    forall p | StandIn.hash(p).Ok?
      ensures BcryptKey(StandIn.hash(p).value) != BcryptKey(p)
    {
      var t := StandIn.hash(p).value;
      assert Utf8(t) == EncodeChar(t[0]) + Utf8(t[1..]);
      assert BcryptKey(t)[0] == t[0] as int;
    }
  }

  datatype Admin = Admin(
    username: string,
    password: string,
    role: string,
    name: string,
    email: string,
    phone: string,
    avatar: string,
    status: string,
    lastLogin: Option<int>,
    createdAt: int,
    updatedAt: int)

  /** Only the status "active" lets an account in; "inactive" and "locked" do not. */
  function AdminIsActive(a: Admin): (active: bool)
    ensures active <==> a.status == "active"
    ensures a.status == "inactive" || a.status == "locked" ==> !active
  {
    a.status == "active"
  }

  /** Only the role "super_admin"; a plain "admin" is not a super admin. */
  function AdminIsSuperAdmin(a: Admin): (superAdmin: bool)
    ensures superAdmin <==> a.role == RoleSuperAdmin
    ensures a.role == RoleAdmin ==> !superAdmin
  {
    a.role == RoleSuperAdmin
  }

  /** Stores the hash of `password`; on a hashing error the account is returned unchanged with the error. */
  function SetPassword(a: Admin, password: string, h: Hasher): (r: (Admin, Option<string>))
    ensures h.hash(password).Err? ==> r == (a, Some(h.hash(password).error))
    ensures h.hash(password).Ok? ==> r.1 == None && r.0 == a.(password := h.hash(password).value)
  {
    match h.hash(password)
    case Err(e) => (a, Some(e))
    case Ok(hashed) => (a.(password := hashed), None)
  }

  /**
   * `CheckPassword` succeeds (returns no error) iff the library accepts
   * the candidate against the stored hash; with bcrypt, a stored hash of
   * the candidate itself is accepted.
   */
  function CheckPassword(a: Admin, password: string, h: Hasher): (ok: bool)
    ensures SoundHasher(h) && h.hash(password).Ok? && a.password == h.hash(password).value ==> ok
  {
    h.compare(a.password, password)
  }

  /**
   * After a successful `SetPassword(p)`, `CheckPassword` accepts exactly
   * the candidates with `p`'s bcrypt key; a password over 72 bytes is
   * refused and leaves the account as it was.
   */
  lemma SetThenCheck(a: Admin, p: string, q: string, h: Hasher)
    requires SoundHasher(h)
    ensures |Utf8(p)| <= MaxPasswordBytes ==> SetPassword(a, p, h).1.None? && CheckPassword(SetPassword(a, p, h).0, p, h)
    ensures |Utf8(p)| <= MaxPasswordBytes ==> (CheckPassword(SetPassword(a, p, h).0, q, h) <==> BcryptKey(q) == BcryptKey(p))
    ensures |Utf8(p)| > MaxPasswordBytes ==> SetPassword(a, p, h).0 == a && SetPassword(a, p, h).1.Some?
  {
  }

  /**
   * Between passwords of at most 72 bytes with no NUL character, the
   * stored hash of `p` accepts `p` and no other.
   */
  lemma SetThenCheckShort(a: Admin, p: string, q: string, h: Hasher)
    requires SoundHasher(h)
    requires |Utf8(p)| <= MaxPasswordBytes && |Utf8(q)| <= MaxPasswordBytes && '\0' !in p && '\0' !in q
    ensures CheckPassword(SetPassword(a, p, h).0, q, h) <==> q == p
  {
    SetThenCheck(a, p, q, h);
    ShortPasswordKey(p, q);
  }

  /** A stored hash of a password of 72 bytes or more also accepts that password with anything appended. */
  lemma SetThenCheckLong(a: Admin, p: string, extra: string, h: Hasher)
    requires SoundHasher(h)
    requires |Utf8(p)| == MaxPasswordBytes
    ensures CheckPassword(SetPassword(a, p, h).0, p + extra, h)
  {
    SetThenCheck(a, p, p + extra, h);
    LongPasswordKey(p, extra);
  }

  /** The create hook: a non-empty stored password is hashed (again) before the insert. */
  function BeforeCreate(a: Admin, h: Hasher): (r: (Admin, Option<string>))
    ensures a.password == "" ==> r == (a, None)
    ensures a.password != "" ==> r == SetPassword(a, a.password, h)
  {
    if a.password != "" then SetPassword(a, a.password, h) else (a, None)
  }

  /**
   * Hashing a password and then inserting the account runs the hook on
   * the hash: either the insert fails or the stored value no longer
   * accepts the original password.
   */
  lemma HookRehashesHash(a: Admin, p: string, h: Hasher)
    requires SoundHasher(h)
    requires SetPassword(a, p, h).1.None?
    ensures var created := BeforeCreate(SetPassword(a, p, h).0, h);
            created.1.Some? || !CheckPassword(created.0, p, h)
  {
    var hashed := h.hash(p).value;
    assert hashed != "" && BcryptKey(hashed) != BcryptKey(p);
    if h.hash(hashed).Ok? && h.compare(h.hash(hashed).value, p) {
      assert false;
    }
  }

  /** Inserting an account that carries the plain password hashes it exactly once. */
  lemma HookHashesPlainPasswordOnce(a: Admin, p: string, h: Hasher)
    requires SoundHasher(h)
    requires p != "" && |Utf8(p)| <= MaxPasswordBytes
    ensures var created := BeforeCreate(a.(password := p), h);
            created.1.None? && CheckPassword(created.0, p, h)
            && created.0 == a.(password := created.0.password)
  {
  }

  const Genders: set<string> := {"male", "female", "other"}

  datatype Recommendor = Recommendor(
    name: string,
    gender: string,
    age: int,
    idNumber: string,
    avatar: string,
    bio: string,
    validFrom: int,
    validUntil: int,
    phone: string,
    email: string,
    provinceCode: string,
    cityCode: string,
    districtCode: string,
    regionAddress: string,
    status: string,
    rating: real,
    qrCodeWeb: string,
    qrCodeWxapp: string)

  /** Active: status "active" and `now` strictly inside the validity window. */
  function RecommendorIsActive(r: Recommendor, now: int): (active: bool)
    ensures active <==> r.status == "active" && r.validFrom < now < r.validUntil
    ensures active ==> r.validFrom < r.validUntil
    ensures now <= r.validFrom || r.validUntil <= now ==> !active
  {
    r.status == "active" && r.validFrom < now && now < r.validUntil
  }

  /**
   * The set of instants at which a recommendor is active is an open
   * interval: for an "active" status it is exactly the instants strictly
   * between `validFrom` and `validUntil`, for any other status it is empty;
   * it excludes both ends and contains every instant between two active ones.
   */
  lemma ActiveWindow(r: Recommendor, t1: int, t: int, t2: int)
    ensures RecommendorIsActive(r, t) ==> r.validFrom < r.validUntil
    ensures r.status == "active" && r.validFrom < t < r.validUntil ==> RecommendorIsActive(r, t)
    ensures r.status != "active" ==> !RecommendorIsActive(r, t)
    ensures !RecommendorIsActive(r, r.validFrom) && !RecommendorIsActive(r, r.validUntil)
    ensures RecommendorIsActive(r, t1) && RecommendorIsActive(r, t2) && t1 <= t <= t2 ==> RecommendorIsActive(r, t)
  {
  }

  const DefaultAvatarPath: string := "/images/default-avatar.png"
  const AvatarPath: string := "/uploads/avatars/"

  function GetAvatarURL(r: Recommendor, baseURL: string): (u: string)
    ensures HasPrefix(u, baseURL)
    ensures r.avatar == "" ==> u == baseURL + DefaultAvatarPath
    ensures r.avatar != "" ==> u == baseURL + AvatarPath + r.avatar
  {
    var u := if r.avatar == "" then baseURL + DefaultAvatarPath else baseURL + AvatarPath + r.avatar;
    assert u[..|baseURL|] == baseURL;
    u
  }

  /** Reads the stored avatar back out of an avatar URL; the default image stands for "". */
  function AvatarFromURL(baseURL: string, u: string): string {
    if HasPrefix(u, baseURL + AvatarPath) then u[|baseURL + AvatarPath|..] else ""
  }

  lemma DefaultIsNotAvatarPath(baseURL: string)
    ensures !HasPrefix(baseURL + DefaultAvatarPath, baseURL + AvatarPath)
  {
    var d := baseURL + DefaultAvatarPath;
    var a := baseURL + AvatarPath;
    assert d[|baseURL| + 1] == DefaultAvatarPath[1] == 'i';
    assert a[|baseURL| + 1] == AvatarPath[1] == 'u';
  }

  /** The avatar URL determines the stored avatar: `AvatarFromURL` inverts `GetAvatarURL`. */
  lemma AvatarURLRoundTrip(r: Recommendor, baseURL: string)
    ensures AvatarFromURL(baseURL, GetAvatarURL(r, baseURL)) == r.avatar
  {
    var u := GetAvatarURL(r, baseURL);
    if r.avatar == "" {
      DefaultIsNotAvatarPath(baseURL);
    } else {
      assert u == (baseURL + AvatarPath) + r.avatar;
      assert u[..|baseURL + AvatarPath|] == baseURL + AvatarPath;
    }
  }

  /** `GetRegionInfo`: the three codes and the full address under their JSON keys. */
  function GetRegionInfo(r: Recommendor): (m: map<string, string>)
    ensures m.Keys == {"province_code", "city_code", "district_code", "full_address"}
    ensures m["province_code"] == r.provinceCode && m["city_code"] == r.cityCode && m["district_code"] == r.districtCode
    ensures m["full_address"] == r.regionAddress
  {
    map["province_code" := r.provinceCode, "city_code" := r.cityCode,
        "district_code" := r.districtCode, "full_address" := r.regionAddress]
  }

  /** The full address is the stored region address, as the region info reports it. */
  function GetFullAddress(r: Recommendor): (a: string)
    ensures a == r.regionAddress
    ensures a == GetRegionInfo(r)["full_address"]
  {
    r.regionAddress
  }

  /**
   * The region info loses nothing of the record's region: two records
   * report the same info exactly when their three codes and their address
   * agree, and the address is then also what `GetFullAddress` gives.
   */
  lemma RegionInfoDeterminesRegion(r: Recommendor, s: Recommendor)
    ensures GetRegionInfo(r) == GetRegionInfo(s)
            <==> r.provinceCode == s.provinceCode && r.cityCode == s.cityCode
                 && r.districtCode == s.districtCode && r.regionAddress == s.regionAddress
    ensures GetRegionInfo(r) == GetRegionInfo(s) ==> GetFullAddress(r) == GetFullAddress(s)
  {
    if GetRegionInfo(r) == GetRegionInfo(s) {
      assert GetRegionInfo(r)["full_address"] == GetRegionInfo(s)["full_address"];
    }
  }

  datatype Destination = Destination(
    recommendorID: nat,
    name: string,
    description: string,
    image: string,
    address: string,
    category: string,
    rating: real,
    status: string)

  datatype Region = Region(name: string, description: string)
}
