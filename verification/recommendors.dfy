/**
 * The recommendor handlers as operations on the recommendor table:
 * create with defaults and the id-number check, partial update, soft
 * delete, QR regeneration, lookup, and the public and admin lists with
 * their filters. The `id_number` column carries a unique index that also
 * covers soft-deleted rows.
 */
module Recommendors {
  import opened Wrappers
  import opened Text
  import opened Http
  import opened Pagination
  import opened Store
  import opened Models
  import opened QRCode
  import Queries

  datatype CreateRequest = CreateRequest(
    name: string,
    gender: string,
    age: int,
    idNumber: string,
    avatar: string,
    bio: string,
    validFrom: Option<int>,
    validUntil: Option<int>,
    phone: string,
    email: string,
    provinceCode: string,
    cityCode: string,
    districtCode: string,
    regionAddress: string,
    status: string)

  /**
   * The binding rules of the create request: required strings non-empty,
   * gender one of three, age within 18..100, both dates given.
   */
  predicate CreateBindingOk(req: CreateRequest) {
    req.name != "" && req.gender in Genders && 18 <= req.age <= 100 && req.idNumber != ""
    && req.validFrom.Some? && req.validUntil.Some?
    && req.provinceCode != "" && req.cityCode != "" && req.districtCode != ""
  }

  /** Every field optional: only the fields present are written. */
  datatype UpdateRequest = UpdateRequest(
    name: Option<string>,
    gender: Option<string>,
    age: Option<int>,
    idNumber: Option<string>,
    avatar: Option<string>,
    bio: Option<string>,
    validFrom: Option<int>,
    validUntil: Option<int>,
    phone: Option<string>,
    email: Option<string>,
    provinceCode: Option<string>,
    cityCode: Option<string>,
    districtCode: Option<string>,
    regionAddress: Option<string>,
    status: Option<string>,
    rating: Option<real>)

  /** The binding rules of the update request apply to the fields present. */
  predicate UpdateBindingOk(req: UpdateRequest) {
    (req.gender.Some? ==> req.gender.value in Genders)
    && (req.age.Some? ==> 18 <= req.age.value <= 100)
    && (req.rating.Some? ==> 0.0 <= req.rating.value <= 5.0)
  }

  /** The messages of `GetRecommendorByID`, which answers as `GetByKey` with these two. */
  const InvalidID: string := "Invalid recommendor ID"
  const NotFound: string := "Recommendor not found"
  const DuplicateIDNumber: string := "ID number already exists"

  function IDNumberOf(r: Recommendor): string {
    r.idNumber
  }

  /** The region address a create request stores: the given one, or the three codes joined by "/". */
  function DefaultRegionAddress(req: CreateRequest): string {
    if req.regionAddress == "" then req.provinceCode + "/" + req.cityCode + "/" + req.districtCode else req.regionAddress
  }

  /** The record a valid create request inserts, before its QR codes exist. */
  function NewRecommendor(req: CreateRequest): (r: Recommendor)
    requires CreateBindingOk(req)
    ensures r.status == (if req.status == "" then "active" else req.status)
    ensures r.regionAddress == DefaultRegionAddress(req)
    ensures r.name == req.name && r.idNumber == req.idNumber && r.gender == req.gender && r.age == req.age
    ensures r.provinceCode == req.provinceCode && r.cityCode == req.cityCode && r.districtCode == req.districtCode
    ensures r.rating == 0.0 && r.qrCodeWeb == "" && r.qrCodeWxapp == ""
  {
    Recommendor(req.name, req.gender, req.age, req.idNumber, req.avatar, req.bio,
                req.validFrom.value, req.validUntil.value, req.phone, req.email,
                req.provinceCode, req.cityCode, req.districtCode, DefaultRegionAddress(req),
                if req.status == "" then "active" else req.status, 0.0, "", "")
  }

  /** What `generateQRCodes` reads from the environment, with the encoder and the WeChat API. */
  datatype QREnv = QREnv(baseURL: string, appID: string, appPath: string, appSecret: string, encode: Encoder, api: WeChatApi)

  const DefaultBaseURL: string := "http://localhost:8080"
  const DefaultAppID: string := "your_miniprogram_appid"
  const DefaultAppPath: string := "/"

  /** Unset variables fall back to the local server, a placeholder app id and the root path; the secret has no default. */
  function QRConfigOf(env: QREnv): QRCodeConfig {
    QRCodeConfig(
      if env.baseURL == "" then DefaultBaseURL else env.baseURL,
      if env.appID == "" then DefaultAppID else env.appID,
      if env.appPath == "" then DefaultAppPath else env.appPath,
      env.appSecret)
  }

  /** Both codes for the record with key `id`; on failure the record is not touched. */
  function GenerateQRCodes(r: Recommendor, id: nat, env: QREnv): (res: Result<Recommendor, string>)
    ensures res.Ok? <==> GenerateRecommendorQRs(QRConfigOf(env), id, env.encode, env.api).1.None?
    ensures res.Ok? ==> res.value == r.(qrCodeWeb := res.value.qrCodeWeb, qrCodeWxapp := res.value.qrCodeWxapp)
    ensures res.Ok? ==> HasPrefix(res.value.qrCodeWeb, DataURLPrefix) && HasPrefix(res.value.qrCodeWxapp, DataURLPrefix)
    ensures res.Ok? ==> env.encode(WebURL(QRConfigOf(env), id)).Ok?
                        && res.value.qrCodeWeb == DataURLPrefix + env.encode(WebURL(QRConfigOf(env), id)).value
  {
    var (pair, err) := GenerateRecommendorQRs(QRConfigOf(env), id, env.encode, env.api);
    if err.Some? then Err(err.value) else Ok(r.(qrCodeWeb := pair.web, qrCodeWxapp := pair.wxapp))
  }

  /** With `BASE_URL` unset the web code points at the local server's page for the record. */
  lemma DefaultWebTarget(env: QREnv, id: nat)
    requires env.baseURL == ""
    ensures WebURL(QRConfigOf(env), id) == "http://localhost:8080/recommendors/" + NatToString(id)
  {
  }

  /**
   * `CreateRecommendor`: binding, then the id-number lookup over live rows,
   * then the insert (which the unique index refuses when a soft-deleted
   * row holds the number), then the QR codes. A QR failure answers 500
   * but the inserted row stays, without codes.
   */
  function Create(db: Table<Recommendor>, req: CreateRequest, env: QREnv): (r: (Table<Recommendor>, Response<Row<Recommendor>>))
    requires Valid(db)
    ensures Valid(r.0)
    ensures !CreateBindingOk(req) ==> r == (db, Fail(StatusBadRequest, InvalidRequestData))
    ensures CreateBindingOk(req) && HeldLive(db, IDNumberOf, req.idNumber) ==> r == (db, Fail(StatusBadRequest, DuplicateIDNumber))
    ensures CreateBindingOk(req) && !HeldLive(db, IDNumberOf, req.idNumber) && Held(db, IDNumberOf, req.idNumber)
            ==> r == (db, Fail(StatusInternalServerError, "Failed to create recommendor: " + UniqueViolation))
    ensures r.0 != db ==> CreateBindingOk(req) && !Held(db, IDNumberOf, req.idNumber)
                          && db.nextID in r.0.rows && r.0.rows == db.rows[db.nextID := r.0.rows[db.nextID]] && r.0.deleted == db.deleted
                          && r.0.rows[db.nextID].idNumber == req.idNumber
    ensures r.1.Reply? ==> r.0 != db && r.1.status == StatusCreated && r.1.body == Row(db.nextID, r.0.rows[db.nextID])
                           && GenerateQRCodes(NewRecommendor(req), db.nextID, env) == Ok(r.1.body.value)
    ensures r.0 != db && r.1.Fail? ==> r.1.status == StatusInternalServerError && r.0.rows[db.nextID] == NewRecommendor(req)
  {
    if !CreateBindingOk(req) then (db, Fail(StatusBadRequest, InvalidRequestData))
    else if HeldLive(db, IDNumberOf, req.idNumber) then (db, Fail(StatusBadRequest, DuplicateIDNumber))
    else if Held(db, IDNumberOf, req.idNumber) then (db, Fail(StatusInternalServerError, "Failed to create recommendor: " + UniqueViolation))
    else
      var rec := NewRecommendor(req);
      InsertWithCodes(db, rec, GenerateQRCodes(rec, db.nextID, env))
  }

  /**
   * The insert, then the QR codes made for the new id (`qr`): the new row
   * stays whether or not the codes are made.
   */
  function InsertWithCodes(db: Table<Recommendor>, rec: Recommendor, qr: Result<Recommendor, string>)
    : (r: (Table<Recommendor>, Response<Row<Recommendor>>))
    requires Valid(db)
    ensures Valid(r.0) && r.0 != db
    ensures db.nextID in r.0.rows && r.0.rows == db.rows[db.nextID := r.0.rows[db.nextID]] && r.0.deleted == db.deleted
    ensures qr.Ok? ==> r.0.rows[db.nextID] == qr.value && r.1 == Reply(StatusCreated, Row(db.nextID, qr.value))
    ensures qr.Err? ==> r.0.rows[db.nextID] == rec && r.1 == Fail(StatusInternalServerError, "Failed to generate QR codes: " + qr.error)
  {
    var (db1, id) := Insert(db, rec);
    match qr
    case Err(e) => (db1, Fail(StatusInternalServerError, "Failed to generate QR codes: " + e))
    case Ok(withCodes) => (Put(db1, id, withCodes), Reply(StatusCreated, Row(id, withCodes)))
  }

  /** Create keeps the id-number index unique. */
  lemma CreateKeepsIDNumbersUnique(db: Table<Recommendor>, req: CreateRequest, env: QREnv)
    requires Valid(db) && Unique(db, IDNumberOf)
    ensures Unique(Create(db, req, env).0, IDNumberOf)
  {
    var r := Create(db, req, env);
    if r.0 != db {
      var rec := NewRecommendor(req);
      InsertKeepsUnique(db, IDNumberOf, rec);
      var (db1, id) := Insert(db, rec);
      var qr := GenerateQRCodes(rec, id, env);
      if qr.Ok? {
        assert !HeldByOther(db1, IDNumberOf, qr.value.idNumber, id);
        PutKeepsUnique(db1, IDNumberOf, id, qr.value);
      }
    }
  }

  /** Present fields overwrite, absent ones keep the stored value; the QR codes are never written. */
  function Merge(r: Recommendor, req: UpdateRequest): (m: Recommendor)
    ensures m.name == req.name.GetOr(r.name) && m.gender == req.gender.GetOr(r.gender)
    ensures m.age == req.age.GetOr(r.age) && m.idNumber == req.idNumber.GetOr(r.idNumber)
    ensures m.avatar == req.avatar.GetOr(r.avatar) && m.bio == req.bio.GetOr(r.bio)
    ensures m.validFrom == req.validFrom.GetOr(r.validFrom) && m.validUntil == req.validUntil.GetOr(r.validUntil)
    ensures m.phone == req.phone.GetOr(r.phone) && m.email == req.email.GetOr(r.email)
    ensures m.provinceCode == req.provinceCode.GetOr(r.provinceCode) && m.cityCode == req.cityCode.GetOr(r.cityCode)
    ensures m.districtCode == req.districtCode.GetOr(r.districtCode) && m.regionAddress == req.regionAddress.GetOr(r.regionAddress)
    ensures m.status == req.status.GetOr(r.status) && m.rating == req.rating.GetOr(r.rating)
    ensures m.qrCodeWeb == r.qrCodeWeb && m.qrCodeWxapp == r.qrCodeWxapp
  {
    Recommendor(
      req.name.GetOr(r.name), req.gender.GetOr(r.gender), req.age.GetOr(r.age), req.idNumber.GetOr(r.idNumber),
      req.avatar.GetOr(r.avatar), req.bio.GetOr(r.bio), req.validFrom.GetOr(r.validFrom), req.validUntil.GetOr(r.validUntil),
      req.phone.GetOr(r.phone), req.email.GetOr(r.email), req.provinceCode.GetOr(r.provinceCode), req.cityCode.GetOr(r.cityCode),
      req.districtCode.GetOr(r.districtCode), req.regionAddress.GetOr(r.regionAddress), req.status.GetOr(r.status),
      req.rating.GetOr(r.rating), r.qrCodeWeb, r.qrCodeWxapp)
  }

  const EmptyUpdate: UpdateRequest := UpdateRequest(None, None, None, None, None, None, None, None, None, None, None, None, None, None, None, None)

  /** The later of two optional values wins. */
  function Later<T>(a: Option<T>, b: Option<T>): Option<T> {
    if b.Some? then b else a
  }

  /** Two successive partial updates, as one. */
  function Combine(a: UpdateRequest, b: UpdateRequest): UpdateRequest {
    UpdateRequest(
      Later(a.name, b.name), Later(a.gender, b.gender), Later(a.age, b.age), Later(a.idNumber, b.idNumber),
      Later(a.avatar, b.avatar), Later(a.bio, b.bio), Later(a.validFrom, b.validFrom), Later(a.validUntil, b.validUntil),
      Later(a.phone, b.phone), Later(a.email, b.email), Later(a.provinceCode, b.provinceCode), Later(a.cityCode, b.cityCode),
      Later(a.districtCode, b.districtCode), Later(a.regionAddress, b.regionAddress), Later(a.status, b.status),
      Later(a.rating, b.rating))
  }

  /**
   * The merge is a last-writer-wins overlay: an empty request changes
   * nothing, repeating a request changes nothing more, and two requests
   * in a row act as their combination.
   */
  lemma MergeLaws(r: Recommendor, a: UpdateRequest, b: UpdateRequest)
    ensures Merge(r, EmptyUpdate) == r
    ensures Merge(Merge(r, a), a) == Merge(r, a)
    ensures Merge(Merge(r, a), b) == Merge(r, Combine(a, b))
  {
  }

  /**
   * `UpdateRecommendor`: id, binding, lookup, the id-number check against
   * other live rows, the merge, the QR regeneration, then the save (which
   * the unique index refuses when a soft-deleted row holds the number).
   * Every failure leaves the table as it was.
   */
  function Update(db: Table<Recommendor>, idParam: string, req: UpdateRequest, env: QREnv): (r: (Table<Recommendor>, Response<Row<Recommendor>>))
    requires Valid(db)
    ensures Valid(r.0)
    ensures ParseUint32(idParam).None? ==> r == (db, Fail(StatusBadRequest, InvalidID))
    ensures ParseUint32(idParam).Some? && !UpdateBindingOk(req) ==> r == (db, Fail(StatusBadRequest, InvalidRequestData))
    ensures ParseUint32(idParam).Some? && UpdateBindingOk(req) && !Live(db, ParseUint32(idParam).value)
            ==> r == (db, Fail(StatusNotFound, NotFound))
    ensures r.1.Fail? ==> r.0 == db
    ensures r.1.Reply? ==> var id := ParseUint32(idParam).value;
                           Live(db, id) && r.1.status == StatusOK && r.0 == Put(db, id, r.1.body.value) && r.1.body.id == id
                           && GenerateQRCodes(Merge(db.rows[id], req), id, env) == Ok(r.1.body.value)
                           && !HeldByOther(db, IDNumberOf, r.1.body.value.idNumber, id)
  {
    match ParseUint32(idParam)
    case None => (db, Fail(StatusBadRequest, InvalidID))
    case Some(id) =>
      if !UpdateBindingOk(req) then (db, Fail(StatusBadRequest, InvalidRequestData))
      else if !Live(db, id) then (db, Fail(StatusNotFound, NotFound))
      else if req.idNumber.Some? && (exists other | other in db.rows && other !in db.deleted && other != id :: db.rows[other].idNumber == req.idNumber.value) then
        (db, Fail(StatusBadRequest, DuplicateIDNumber))
      else
        var merged := Merge(db.rows[id], req);
        match GenerateQRCodes(merged, id, env)
        case Err(e) => (db, Fail(StatusInternalServerError, "Failed to regenerate QR codes: " + e))
        case Ok(withCodes) =>
          if HeldByOther(db, IDNumberOf, withCodes.idNumber, id) then
            (db, Fail(StatusInternalServerError, "Failed to update recommendor: " + UniqueViolation))
          else (Put(db, id, withCodes), Reply(StatusOK, Row(id, withCodes)))
  }

  /** Update keeps the id-number index unique. */
  lemma UpdateKeepsIDNumbersUnique(db: Table<Recommendor>, idParam: string, req: UpdateRequest, env: QREnv)
    requires Valid(db) && Unique(db, IDNumberOf)
    ensures Unique(Update(db, idParam, req, env).0, IDNumberOf)
  {
    var r := Update(db, idParam, req, env);
    if r.1.Reply? {
      PutKeepsUnique(db, IDNumberOf, ParseUint32(idParam).value, r.1.body.value);
    }
  }

  /**
   * Another live row holding the requested number is answered 400; a
   * record may resubmit its own number, which then passes every check
   * up to the QR codes.
   */
  lemma UpdateIDNumberCheck(db: Table<Recommendor>, idParam: string, req: UpdateRequest, env: QREnv)
    requires Valid(db) && Unique(db, IDNumberOf)
    requires ParseUint32(idParam).Some? && UpdateBindingOk(req) && Live(db, ParseUint32(idParam).value)
    ensures var id := ParseUint32(idParam).value;
            req.idNumber.Some? && (exists other :: Live(db, other) && other != id && db.rows[other].idNumber == req.idNumber.value)
            ==> Update(db, idParam, req, env).1 == Fail(StatusBadRequest, DuplicateIDNumber)
    ensures var id := ParseUint32(idParam).value;
            req.idNumber == Some(db.rows[id].idNumber) && GenerateQRCodes(Merge(db.rows[id], req), id, env).Ok?
            ==> Update(db, idParam, req, env).1.Reply?
  {
    var id := ParseUint32(idParam).value;
    if req.idNumber == Some(db.rows[id].idNumber) {
      assert !HeldByOther(db, IDNumberOf, db.rows[id].idNumber, id);
    }
  }

  /** `DeleteRecommendor`: a soft delete of a live row. */
  function Delete(db: Table<Recommendor>, idParam: string): (r: (Table<Recommendor>, Response<string>))
    requires Valid(db)
    ensures Valid(r.0)
    ensures r.1.Reply? <==> ParseUint32(idParam).Some? && Live(db, ParseUint32(idParam).value)
    ensures r.1.Reply? ==> r.1 == Reply(StatusOK, "Recommendor deleted successfully")
                           && r.0 == SoftDelete(db, ParseUint32(idParam).value)
    ensures r.1.Fail? ==> r.0 == db
    ensures ParseUint32(idParam).None? ==> r.1 == Fail(StatusBadRequest, InvalidID)
    ensures ParseUint32(idParam).Some? && !r.1.Reply? ==> r.1 == Fail(StatusNotFound, NotFound)
  {
    match ParseUint32(idParam)
    case None => (db, Fail(StatusBadRequest, InvalidID))
    case Some(id) =>
      if Live(db, id) then (SoftDelete(db, id), Reply(StatusOK, "Recommendor deleted successfully"))
      else (db, Fail(StatusNotFound, NotFound))
  }

  /**
   * A deleted recommendor is gone for lookups, but its row keeps its id
   * number, so the index stays unique and the number cannot be reused.
   */
  lemma DeleteThenGet(db: Table<Recommendor>, idParam: string)
    requires Valid(db) && Unique(db, IDNumberOf)
    requires Delete(db, idParam).1.Reply?
    ensures var after := Delete(db, idParam).0;
            GetByKey(after, idParam, InvalidID, NotFound) == Fail(StatusNotFound, NotFound)
            && Unique(after, IDNumberOf)
            && Held(after, IDNumberOf, db.rows[ParseUint32(idParam).value].idNumber)
  {
    var id := ParseUint32(idParam).value;
    var after := Delete(db, idParam).0;
    assert id in after.rows;
  }

  /** `RegenerateQRCodes`: new codes for a live row; nothing else in it changes. */
  function RegenerateQRCodes(db: Table<Recommendor>, idParam: string, env: QREnv): (r: (Table<Recommendor>, Response<Row<Recommendor>>))
    requires Valid(db)
    ensures Valid(r.0)
    ensures ParseUint32(idParam).None? ==> r == (db, Fail(StatusBadRequest, InvalidID))
    ensures ParseUint32(idParam).Some? && !Live(db, ParseUint32(idParam).value) ==> r == (db, Fail(StatusNotFound, NotFound))
    ensures r.1.Fail? ==> r.0 == db
    ensures r.1.Reply? ==> var id := ParseUint32(idParam).value;
                           Live(db, id) && r.0 == Put(db, id, r.1.body.value)
                           && r.1.body.value == db.rows[id].(qrCodeWeb := r.1.body.value.qrCodeWeb, qrCodeWxapp := r.1.body.value.qrCodeWxapp)
  {
    match ParseUint32(idParam)
    case None => (db, Fail(StatusBadRequest, InvalidID))
    case Some(id) =>
      if !Live(db, id) then (db, Fail(StatusNotFound, NotFound))
      else
        match GenerateQRCodes(db.rows[id], id, env)
        case Err(e) => (db, Fail(StatusInternalServerError, "Failed to regenerate QR codes: " + e))
        case Ok(withCodes) => (Put(db, id, withCodes), Reply(StatusOK, Row(id, withCodes)))
  }

  /** The query string of the list endpoints; an absent key reads as "". */
  datatype ListQuery = ListQuery(
    page: string,
    pageSize: string,
    sortBy: string,
    sortOrder: string,
    name: string,
    gender: string,
    provinceCode: string,
    cityCode: string,
    districtCode: string,
    province: string,
    city: string,
    district: string,
    status: string,
    minAge: string,
    maxAge: string)

  /** The column a filter names, read from the record; unknown names read as nil. */
  function Column(r: Recommendor, f: string): FilterValue {
    if f == "name" then Str(r.name)
    else if f == "gender" then Str(r.gender)
    else if f == "age" then Num(r.age)
    else if f == "id_number" then Str(r.idNumber)
    else if f == "province_code" then Str(r.provinceCode)
    else if f == "city_code" then Str(r.cityCode)
    else if f == "district_code" then Str(r.districtCode)
    else if f == "region_address" then Str(r.regionAddress)
    else if f == "status" then Str(r.status)
    else Nil
  }

  function RecommendorColumns(r: Recommendor): Columns {
    (f: string) => Column(r, f)
  }

  lemma StatusColumn(r: Recommendor)
    ensures RecommendorColumns(r)("status") == Str(r.status)
  {
    assert "status" != "name" && "status" != "gender" && "status" != "age" && "status" != "id_number";
    assert "status" != "province_code" && "status" != "city_code" && "status" != "district_code" && "status" != "region_address";
  }

  lemma AgeColumn(r: Recommendor)
    ensures RecommendorColumns(r)("age") == Num(r.age)
  {
    assert "age" != "name" && "age" != "gender";
  }

  /** The columns the shared filters name. */
  const CommonFields: set<string> := {"name", "gender", "province_code", "city_code", "district_code"}

  /** `min_age` and `max_age` bound the age only when they parse as integers. */
  function AgeConditions(conds: seq<Condition>, q: ListQuery): (r: seq<Condition>)
    ensures Atoi(q.minAge).None? && Atoi(q.maxAge).None? ==> r == conds
    ensures |r| >= |conds| && r[..|conds|] == conds
    ensures forall i :: |conds| <= i < |r| ==> r[i].field == "age"
  {
    var withMin := if Atoi(q.minAge).Some? then conds + [AtLeast("age", Atoi(q.minAge).value)] else conds;
    if Atoi(q.maxAge).Some? then withMin + [AtMost("age", Atoi(q.maxAge).value)] else withMin
  }

  /** A region name matched anywhere in the stored address. */
  function RegionNameCondition(conds: seq<Condition>, name: string): (r: seq<Condition>)
    ensures name == "" ==> r == conds
    ensures name != "" ==> r == conds + [Like("region_address", "%" + name + "%")]
  {
    if name != "" then conds + [Like("region_address", "%" + name + "%")] else conds
  }

  /** The filters shared by both lists: name, gender and the three codes. */
  function CommonConditions(q: ListQuery): (r: seq<Condition>)
    ensures forall i :: 0 <= i < |r| ==> r[i].field in CommonFields
  {
    var c := ApplyFilter([], "name", Str(q.name));
    EqualFilterFields(c, "gender", Str(q.gender));
    var c := ApplyEqualFilter(c, "gender", Str(q.gender));
    EqualFilterFields(c, "province_code", Str(q.provinceCode));
    var c := ApplyEqualFilter(c, "province_code", Str(q.provinceCode));
    EqualFilterFields(c, "city_code", Str(q.cityCode));
    var c := ApplyEqualFilter(c, "city_code", Str(q.cityCode));
    EqualFilterFields(c, "district_code", Str(q.districtCode));
    ApplyEqualFilter(c, "district_code", Str(q.districtCode))
  }

  /** An equality filter on a shared field keeps every condition on a shared field. */
  lemma EqualFilterFields(c: seq<Condition>, field: string, value: FilterValue)
    requires field in CommonFields && forall i :: 0 <= i < |c| ==> c[i].field in CommonFields
    ensures var r := ApplyEqualFilter(c, field, value);
            forall i :: 0 <= i < |r| ==> r[i].field in CommonFields
  {
  }

  /** `GetRecommendors`: region names too, and only active records unless a status is asked for. */
  function PublicConditions(q: ListQuery): (r: seq<Condition>)
    ensures q.status == "" ==> |r| > 0 && r[|r| - 1] == Equals("status", Str("active"))
    ensures q.status != "" ==> Equals("status", Str(q.status)) in r
  {
    var c := CommonConditions(q);
    var c := RegionNameCondition(c, q.province);
    var c := RegionNameCondition(c, q.city);
    var c := RegionNameCondition(c, q.district);
    var s := ApplyEqualFilter(c, "status", Str(q.status));
    var a := AgeConditions(s, q);
    assert q.status != "" ==> s[|c|] == Equals("status", Str(q.status)) && a[|c|] == s[|c|];
    if q.status == "" then a + [Equals("status", Str("active"))] else a
  }

  /** `GetAdminRecommendors`: no region-name filters and no implicit status. */
  function AdminConditions(q: ListQuery): (r: seq<Condition>)
    ensures q.status != "" ==> Equals("status", Str(q.status)) in r
    ensures q.status == "" ==> forall i :: 0 <= i < |r| ==> r[i].field in CommonFields || r[i].field == "age"
  {
    var c := CommonConditions(q);
    var s := ApplyEqualFilter(c, "status", Str(q.status));
    var a := AgeConditions(s, q);
    assert q.status != "" ==> s[|c|] == Equals("status", Str(q.status)) && a[|c|] == s[|c|];
    assert q.status == "" ==> forall i :: 0 <= i < |c| ==> a[i] == c[i];
    a
  }

  /** The paging, size and order a list query asks for. */
  function Pages(q: ListQuery): PaginationRequest {
    ParsePaginationRequest(q.page, q.pageSize, q.sortBy, q.sortOrder)
  }

  /** One page of the live rows meeting every condition; the total counts them all. */
  function List(db: Table<Recommendor>, conds: seq<Condition>, q: ListQuery): (r: PaginationResponse<Row<Recommendor>>)
    requires Valid(db)
    ensures var rows := Queries.Where(db, RecommendorColumns, conds);
            r.data == PageOf(Queries.Ordered(rows, Pages(q).sortDesc), Pages(q)) && r.total == |rows|
    ensures forall x :: x in r.data ==> Live(db, x.id) && x.value == db.rows[x.id] && HoldsAll(conds, RecommendorColumns(x.value))
  {
    Queries.List(db, RecommendorColumns, conds, Pages(q))
  }

  /** `GetRecommendors`: the requested page of the records meeting the public filters. */
  function GetRecommendors(db: Table<Recommendor>, q: ListQuery): (r: PaginationResponse<Row<Recommendor>>)
    requires Valid(db)
    ensures var rows := Queries.Where(db, RecommendorColumns, PublicConditions(q));
            r.data == PageOf(Queries.Ordered(rows, Pages(q).sortDesc), Pages(q)) && r.total == |rows|
  {
    List(db, PublicConditions(q), q)
  }

  /** `GetAdminRecommendors`: the requested page of the records meeting the admin filters. */
  function GetAdminRecommendors(db: Table<Recommendor>, q: ListQuery): (r: PaginationResponse<Row<Recommendor>>)
    requires Valid(db)
    ensures var rows := Queries.Where(db, RecommendorColumns, AdminConditions(q));
            r.data == PageOf(Queries.Ordered(rows, Pages(q).sortDesc), Pages(q)) && r.total == |rows|
    ensures forall x :: x in r.data ==> Live(db, x.id) && x.value == db.rows[x.id]
  {
    List(db, AdminConditions(q), q)
  }

  /** The public list shows only active records unless a status is given, and then only that status. */
  lemma PublicListStatus(db: Table<Recommendor>, q: ListQuery)
    requires Valid(db)
    ensures forall x :: x in GetRecommendors(db, q).data ==> x.value.status == (if q.status == "" then "active" else q.status)
  {
    var conds := PublicConditions(q);
    var pr := Pages(q);
    var want := if q.status == "" then "active" else q.status;
    ActiveOrAskedStatusIsACondition(q);
    Queries.ListedRowsMeet(db, RecommendorColumns, conds, pr, Equals("status", Str(want)));
    forall x | x in GetRecommendors(db, q).data
      ensures x.value.status == want
    {
      StatusColumn(x.value);
    }
  }

  lemma ActiveOrAskedStatusIsACondition(q: ListQuery)
    ensures Equals("status", Str(if q.status == "" then "active" else q.status)) in PublicConditions(q)
  {
    var conds := PublicConditions(q);
    if q.status == "" {
      assert conds[|conds| - 1] == Equals("status", Str("active"));
    }
  }

  lemma RegionAddressColumn(r: Recommendor)
    ensures RecommendorColumns(r)("region_address") == Str(r.regionAddress)
  {
    assert "region_address" != "name" && "region_address" != "gender" && "region_address" != "age";
    assert "region_address" != "id_number" && "region_address" != "province_code";
    assert "region_address" != "city_code" && "region_address" != "district_code";
  }

  /** The common filters followed by the region-name filters. */
  function RegionConditions(q: ListQuery): seq<Condition> {
    RegionNameCondition(RegionNameCondition(RegionNameCondition(CommonConditions(q), q.province), q.city), q.district)
  }

  /** A region-name filter keeps the conditions before it and adds its own when the name is given. */
  lemma RegionNameConditionHolds(c: seq<Condition>, name: string)
    ensures forall x :: x in c ==> x in RegionNameCondition(c, name)
    ensures name != "" ==> Like("region_address", "%" + name + "%") in RegionNameCondition(c, name)
  {
  }

  /** Every region name given is among the region-name filters. */
  lemma RegionNamesInRegionConditions(q: ListQuery)
    ensures q.province != "" ==> Like("region_address", "%" + q.province + "%") in RegionConditions(q)
    ensures q.city != "" ==> Like("region_address", "%" + q.city + "%") in RegionConditions(q)
    ensures q.district != "" ==> Like("region_address", "%" + q.district + "%") in RegionConditions(q)
  {
    var c0 := CommonConditions(q);
    var c1 := RegionNameCondition(c0, q.province);
    var c2 := RegionNameCondition(c1, q.city);
    RegionNameConditionHolds(c0, q.province);
    RegionNameConditionHolds(c1, q.city);
    RegionNameConditionHolds(c2, q.district);
  }

  /** The public list's conditions start with the region-name filters. */
  lemma PublicStartsWithRegions(q: ListQuery)
    ensures |RegionConditions(q)| <= |PublicConditions(q)|
    ensures PublicConditions(q)[..|RegionConditions(q)|] == RegionConditions(q)
  {
    var c3 := RegionConditions(q);
    var s := ApplyEqualFilter(c3, "status", Str(q.status));
    var a := AgeConditions(s, q);
    var r := PublicConditions(q);
    assert s[..|c3|] == c3 && a[..|s|] == s;
    assert r[..|a|] == a;
  }

  /** Whatever a prefix holds, the whole sequence holds. */
  lemma PrefixMembers<T>(c: seq<T>, r: seq<T>)
    requires |c| <= |r| && r[..|c|] == c
    ensures forall x :: x in c ==> x in r
  {
    forall x | x in c ensures x in r {
      var i :| 0 <= i < |c| && c[i] == x;
      assert r[i] == x;
    }
  }

  /** Each region name given is one of the public list's conditions. */
  lemma RegionNamesAreConditions(q: ListQuery)
    ensures q.province != "" ==> Like("region_address", "%" + q.province + "%") in PublicConditions(q)
    ensures q.city != "" ==> Like("region_address", "%" + q.city + "%") in PublicConditions(q)
    ensures q.district != "" ==> Like("region_address", "%" + q.district + "%") in PublicConditions(q)
  {
    RegionNamesInRegionConditions(q);
    PublicStartsWithRegions(q);
    PrefixMembers(RegionConditions(q), PublicConditions(q));
  }

  /** The public list keeps only records whose stored address contains every region name given. */
  lemma PublicListMatchesRegionNames(db: Table<Recommendor>, q: ListQuery)
    requires Valid(db)
    ensures forall x :: x in GetRecommendors(db, q).data ==>
              (q.province != "" ==> Contains(x.value.regionAddress, q.province))
              && (q.city != "" ==> Contains(x.value.regionAddress, q.city))
              && (q.district != "" ==> Contains(x.value.regionAddress, q.district))
  {
    var conds := PublicConditions(q);
    var pr := Pages(q);
    RegionNamesAreConditions(q);
    forall x | x in GetRecommendors(db, q).data
      ensures q.province != "" ==> Contains(x.value.regionAddress, q.province)
      ensures q.city != "" ==> Contains(x.value.regionAddress, q.city)
      ensures q.district != "" ==> Contains(x.value.regionAddress, q.district)
    {
      RegionAddressColumn(x.value);
      if q.province != "" {
        Queries.ListedRowsMeet(db, RecommendorColumns, conds, pr, Like("region_address", "%" + q.province + "%"));
        LikeWrapped(q.province);
      }
      if q.city != "" {
        Queries.ListedRowsMeet(db, RecommendorColumns, conds, pr, Like("region_address", "%" + q.city + "%"));
        LikeWrapped(q.city);
      }
      if q.district != "" {
        Queries.ListedRowsMeet(db, RecommendorColumns, conds, pr, Like("region_address", "%" + q.district + "%"));
        LikeWrapped(q.district);
      }
    }
  }

  /** `%name%` matches exactly the texts containing `name`. */
  lemma LikeWrapped(name: string)
    ensures forall s :: LikeMatches(s, "%" + name + "%") <==> Contains(s, name)
  {
    var p := "%" + name + "%";
    assert p[1..|p| - 1] == name;
  }

  /** With a status given, the admin list shows only that status. */
  lemma AdminListStatus(db: Table<Recommendor>, q: ListQuery)
    requires Valid(db) && q.status != ""
    ensures forall x :: x in GetAdminRecommendors(db, q).data ==> x.value.status == q.status
  {
    var pr := Pages(q);
    Queries.ListedRowsMeet(db, RecommendorColumns, AdminConditions(q), pr, Equals("status", Str(q.status)));
    forall x | x in GetAdminRecommendors(db, q).data
      ensures x.value.status == q.status
    {
      StatusColumn(x.value);
    }
  }

  /** Without a status the admin list puts no condition on the status column, so every status is listed. */
  lemma AdminListHasNoDefaultStatus(q: ListQuery)
    requires q.status == ""
    ensures forall i :: 0 <= i < |AdminConditions(q)| ==> AdminConditions(q)[i].field != "status"
  {
    assert "status" !in CommonFields && "status" != "age";
  }

  /** A parsable `min_age`/`max_age` bounds every listed age; an unparsable one is ignored. */
  lemma AgeBounds(conds: seq<Condition>, q: ListQuery, r: Recommendor)
    requires HoldsAll(AgeConditions(conds, q), RecommendorColumns(r))
    ensures Atoi(q.minAge).Some? ==> r.age >= Atoi(q.minAge).value
    ensures Atoi(q.maxAge).Some? ==> r.age <= Atoi(q.maxAge).value
    ensures HoldsAll(conds, RecommendorColumns(r))
  {
    var col := RecommendorColumns(r);
    AgeColumn(r);
    var withMin := if Atoi(q.minAge).Some? then conds + [AtLeast("age", Atoi(q.minAge).value)] else conds;
    if Atoi(q.maxAge).Some? {
      HoldsAllSnoc(withMin, AtMost("age", Atoi(q.maxAge).value), col);
    }
    if Atoi(q.minAge).Some? {
      HoldsAllSnoc(conds, AtLeast("age", Atoi(q.minAge).value), col);
    }
  }
}
