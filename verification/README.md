# Tourism recommender — a Dafny model of its core

The tourism recommender is a content-management system for local guides
("recommendors") and the destinations they recommend. It has three parts:

- a Go backend (gin + GORM) with JWT-guarded admin routes, public list routes, file uploads and QR codes;
- a React admin console;
- a WeChat mini-program that browses recommendors and destinations.

This project models the logic of that core as immutable Dafny datatypes and
pure functions, and proves what the code promises. Database tables become
in-memory stores with soft delete. HTTP requests and replies become records.
Each handler, page action and promise chain is one atomic step from a state
to a state and an outcome. Libraries whose internals are not visible become
function parameters: bcrypt, JWT signing and parsing, base64 and JSON
decoding, the WeChat API and the QR encoder. The clock is passed in as `now`.

One module per source file or component:

| module | models |
|---|---|
| `Wrappers`, `Text`, `Http`, `Params`, `Store`, `Queries` | shared vocabulary: results, Go/JS string helpers, status codes, query maps, soft-delete tables, filtered and ordered listing |
| `Pagination` | `backend/utils/pagination.go` |
| `Upload` | `backend/utils/upload.go`, `backend/controllers/upload_controller.go` |
| `QRCode` | `backend/utils/qrcode.go` |
| `Jwt` | `backend/utils/jwt.go` |
| `Middleware` | `backend/middleware/auth.go` |
| `Models` | `backend/models/admin.go`, `backend/models/recommendor.go` |
| `Recommendors`, `Destinations`, `Regions`, `AuthHandlers` | the four controllers |
| `Routes` | `backend/routes/routes.go`: the route and guard table, CORS, the seed |
| `RegionSelector` | `frontend/src/components/RegionSelector.jsx` |
| `Session` | `frontend/src/services/auth.js` |
| `ApiClient` | `frontend/src/index.jsx` interceptors and routes, `frontend/src/services/api.js` |
| `UploadClient` | `frontend/src/services/upload.js` |
| `RecommendorManagement`, `DestinationManagement`, `Dashboard`, `RecommendorsPublic` | the four admin pages |
| `ListQueries` | how the list handlers read a query string, shared by the pages that call them |
| `WxApp` | `wxapp/app.js` |
| `Stars`, `Pager` | the mini-program's star display and append-style paging |
| `WxRecommendorList`, `WxRecommendorDetail`, `WxIndex` | the three mini-program pages |

Where a page calls a backend route, the model connects the two. A page
builds its query map, `ListQueries` parses the map as the handler does, and
the handler's result is what the page receives. This lets the lemmas state
end-to-end facts, for example "after loading every page the list holds each
matching row once, in order".

## Model

| member | source | states |
|---|---|---|
| Text.TrimPrefix | backend/middleware/auth.go:39 | strips the prefix exactly when the string starts with it, and otherwise returns the string unchanged (also backend/utils/upload.go:134, 201; backend/controllers/upload_controller.go:204) |
| Text.TrimSuffix | backend/utils/upload.go:95 | strips the suffix exactly when the string ends with it, and otherwise returns the string unchanged (also backend/utils/upload.go:202) |
| Text.ReplaceChar | backend/utils/upload.go:134 | replaces every occurrence of one character and nothing else, so the replaced character is gone afterwards (also backend/utils/upload.go:201) |
| Text.JoinThree | frontend/src/components/RegionSelector.jsx:61-76 | joining three labels puts the separator between them |
| Text.NatToString | backend/utils/qrcode.go:92-99 | a number in decimal is a non-empty string of digits |
| Text.DigitsOfNat | backend/utils/pagination.go:44-51 | reading back the decimal digits of a number gives the number |
| Text.Atoi | backend/controllers/recommendor_controller.go:208-217 | `strconv.Atoi`: a value comes only from one or more digits after an optional `+` or `-`; such text parses exactly when its value lies in the 64-bit range, to the digits' value, negated after `-` (also backend/controllers/destination_controller.go:131) |
| Text.ParseUint32 | backend/controllers/destination_controller.go:169 | `strconv.ParseUint(s, 10, 32)`: a key is parsed exactly when the text is one or more digits whose value is at most 2^32-1, and it is that value |
| Text.AtoiOfNat | backend/utils/pagination.go:44-51 | every number in the 64-bit range, written in decimal, parses back to itself |
| Text.ParseUint32OfNat | backend/controllers/destination_controller.go:169 | every 32-bit key written in decimal parses back to itself (also backend/controllers/destination_controller.go:296) |
| Text.EncodeChar | backend/models/admin.go:53 | a character takes one to four UTF-8 bytes, one exactly below 0x80 and then equal to its code; the bytes of a longer encoding are all at least 0x80, and the lead byte tells the width |
| Text.DecodeEncodeChar | backend/models/admin.go:53 | a character's UTF-8 bytes decode back to the character |
| Text.Utf8 | backend/models/admin.go:53 | `[]byte(s)` takes at least one and at most four bytes per character |
| Text.Utf8Ascii | backend/models/admin.go:53 | ASCII text takes exactly one byte per character, the character's code |
| Text.Utf8Zero | backend/models/admin.go:64-73 | the bytes hold a zero exactly when the text holds a NUL character |
| Text.Utf8Concat | backend/models/admin.go:53 | the bytes of a concatenation are the concatenated bytes |
| Text.CutBytes | backend/controllers/auth_controller.go:289 | slicing a string at byte n, as Go does: past the end exactly when the text has fewer than n bytes; inside a character only where byte n is a UTF-8 continuation byte; otherwise at a character, leaving a suffix of the text whose bytes are the bytes after the first n |
| Text.CutBytesAfterPrefix | backend/controllers/auth_controller.go:289 | cutting p + t at the byte length of p always lands on a character and leaves t |
| Text.CutBytesAscii | backend/controllers/auth_controller.go:289 | on ASCII text the byte cut is the character cut |
| Text.Utf8Injective | backend/models/admin.go:53 | two strings with the same bytes are equal |
| Text.Lower | backend/utils/pagination.go:59 | lower-casing keeps the length, turns each of `A`-`Z` into its lower-case letter and keeps every other character (also backend/utils/pagination.go:114) |
| Text.TrimStart | frontend/src/pages/RecommendorsPublic.jsx:54-55 | drops exactly the leading JavaScript white space |
| Text.TrimEnd | frontend/src/pages/RecommendorsPublic.jsx:54-55 | drops exactly the trailing JavaScript white space |
| Text.TrimEmptyIffBlank | frontend/src/pages/RecommendorsPublic.jsx:54-55 | a string trims to empty iff it is all white space |
| Text.TrimStripsSpace | wxapp/pages/recommendor/list.js:191-192 | `trim()` returns a run of the text with only white space before and after it, and the run neither starts nor ends with white space (also frontend/src/pages/RecommendorsPublic.jsx:54-55) |
| Text.LastIndexOf | frontend/src/services/upload.js:123 | returns the last position of the character, or -1 when it does not occur |
| Text.SliceFrom | frontend/src/services/upload.js:123 | a start past the end gives the empty string; otherwise the suffix from that position |
| Text.SplitFirst | wxapp/pages/recommendor/detail.js:104-106 | returns the longest prefix free of the separator, which is followed by the separator when it is shorter than the string |
| Store.Empty | backend/routes/routes.go:236-241 | a fresh table is valid and has no live rows |
| Store.Get | backend/controllers/destination_controller.go:176-181 | a lookup by key finds a row iff it is stored and not soft-deleted |
| Store.GetByKey | backend/controllers/destination_controller.go:168-184 | a path key that is not a 32-bit unsigned number gives 400 with the handler's message; it is answered with 200 and the row exactly when that row is live, and with 404 otherwise (also backend/controllers/region_controller.go:112-126; backend/controllers/recommendor_controller.go:248-264) |
| Store.Insert | backend/controllers/destination_controller.go:83 | the new row gets a fresh key, becomes live, and every other row is kept |
| Store.Put | backend/controllers/destination_controller.go:241 | saving changes only the one row and keeps every key and every soft-delete mark |
| Store.SoftDelete | backend/controllers/destination_controller.go:274 | a delete hides only that row from queries and keeps every stored row (also backend/models/destination.go:21) |
| Store.Select | backend/controllers/recommendor_controller.go:257 | a query returns exactly the live rows that pass the test, in key order |
| Store.Reverse | backend/utils/pagination.go:59-61 | descending order is the ascending one read backwards |
| Store.InsertKeepsUnique | backend/models/region.go:10 | an insert whose key is not held keeps a unique index unique |
| Store.PutKeepsUnique | backend/models/region.go:10 | a save whose key no other row holds keeps a unique index unique |
| Queries.Where | backend/utils/pagination.go:107-127 | returns exactly the live rows meeting every condition, in key order |
| Queries.Ordered | backend/utils/pagination.go:59-77 | ordering is a rearrangement of the rows, and ascending order keeps them as they are |
| Queries.List | backend/utils/pagination.go:156-170 | the page is the requested slice of the matching rows, in id order or reversed as asked; the total counts every match, and the page holds at most a page size of live, matching rows |
| Queries.ListedRowsMeet | backend/utils/pagination.go:156-170 | every condition of the query holds for every row on the page |
| Params.Clean | frontend/src/pages/RecommendorManagement.jsx:98-102 | deletes exactly the keys holding undefined or "" and keeps every other value (also frontend/src/pages/DestinationManagement.jsx:89-93) |
| Params.Spread | frontend/src/pages/RecommendorManagement.jsx:91-95 | in an object spread the later object's keys win, and every key of either object survives (also wxapp/app.js:380-389) |
| Params.ReadQuery | backend/controllers/destination_controller.go:110-115 | a missing or undefined parameter reads as the default, text as itself and a whole number in decimal |
| Pagination.NewPaginationRequest | backend/utils/pagination.go:30-37 | a fresh request is page 1 of 10, sorted by id ascending |
| Pagination.ParsePaginationRequest | backend/utils/pagination.go:40-64 | the page is the parsed integer when it is positive, else 1. The page size is the parsed integer when in 1..100, else 10. An empty sort column means "id", any other is kept. Descending iff the lowered order is "desc". The result is always well formed |
| Pagination.ParsePageRoundTrip | backend/utils/pagination.go:44-46 | every page number from 1 to 2^63-1 written in decimal parses back to itself |
| Pagination.ParsePageSizeRoundTrip | backend/utils/pagination.go:49-51 | every page size 1..100 written in decimal parses back to itself; "0" falls back to 10 |
| Pagination.WrapInt64 | backend/utils/pagination.go:68 | Go's 64-bit int: the result is in int64 range, equals its input when that fits, and differs from it by a multiple of 2^64 |
| Pagination.OrderClause | backend/utils/pagination.go:71-77 | an order clause exists iff the sort column is non-empty, and it names the column with ASC or DESC |
| Pagination.ApplyPaginationAsWritten | backend/utils/pagination.go:67-81 | offset, order and limit as the code computes them, with the offset product wrapping in 64 bits |
| Pagination.AsWrittenOffsetWraps | backend/utils/pagination.go:44-68 | a page number the parser accepts (2^62+1 with size 2) gives a negative 64-bit offset |
| Pagination.AsWrittenOffsetRepeatsFirstPage | backend/utils/pagination.go:44-68 | page 2^62+1 with size 4 wraps to offset 0 and serves page 1 again |
| Pagination.ApplyPagination | backend/utils/pagination.go:67-81 | the corrected window: offset (page-1)*pageSize, never negative, limit = page size |
| Pagination.NextPageAdjacent | backend/utils/pagination.go:68-80 | page k+1 starts exactly where page k ends |
| Pagination.AsWrittenAgreesWhenNoOverflow | backend/utils/pagination.go:68 | the code's offset equals the corrected one whenever the product fits in int64 |
| Pagination.Slice | backend/utils/pagination.go:80 | OFFSET/LIMIT keeps at most `limit` rows, exactly `limit` when enough remain, none past the end |
| Pagination.PageOfWindow | backend/utils/pagination.go:68-80 | a page holds at most pageSize rows and is the run of the rows that follows the (page-1)*pageSize rows of the pages before it; it is full while enough rows remain and empty once they are used up |
| Pagination.PagesCoverPrefix | backend/utils/pagination.go:68-80 | reading pages 1..k in order yields exactly the first k*pageSize rows, so pages are disjoint and adjacent |
| Pagination.TotalPages | backend/utils/pagination.go:92-95 | the page count covers every row and the last page is non-empty: (tp-1)*size < total <= tp*size |
| Pagination.TotalPagesUnique | backend/utils/pagination.go:92-95 | the page count is the unique ceiling of total/size and is 0 exactly when there are no rows |
| Pagination.CreatePaginationResponse | backend/utils/pagination.go:91-104 | the response echoes data, total, page and page size, and its page count is the ceiling |
| Pagination.Paginate | backend/utils/pagination.go:156-170 | the total counts every matching row, while the data is only the requested page |
| Pagination.PaginateFillsPages | backend/utils/pagination.go:156-170 | pages before the last are full, the last holds the remainder, later pages are empty |
| Pagination.PageRowsFromResult | backend/utils/pagination.go:156-170 | every row of a page is a row of the full result |
| Pagination.HoldsAllSnoc | backend/utils/pagination.go:114-126 | adding a WHERE condition ANDs it with the conditions before it |
| Pagination.ApplyFilter | backend/utils/pagination.go:107-118 | nil or "" adds nothing; otherwise exactly one condition is appended: ILIKE %s% for a string, = for any other value |
| Pagination.LikeWrapped | backend/utils/pagination.go:114 | a `%t%` pattern matches exactly the values that contain t |
| Pagination.HoldsTextConditions | backend/utils/pagination.go:114 | a LIKE '%t%' condition keeps the rows whose column is text containing t, and an ILIKE one those whose column contains t once ASCII letters are folded on both sides |
| Pagination.ApplyEqualFilter | backend/utils/pagination.go:121-127 | nil or "" adds nothing; otherwise exactly one equality condition is appended |
| Pagination.ApplyFilterSelects | backend/utils/pagination.go:107-118 | a non-blank string filter keeps exactly the rows whose column contains the value, ignoring ASCII case |
| Pagination.ApplyEqualFilterSelects | backend/utils/pagination.go:121-127 | a non-blank equality filter keeps exactly the rows whose column equals the value |
| Upload.ValidateFileType | backend/utils/upload.go:60-70 | a content type is accepted iff some allowed type is a PREFIX of it; otherwise the error names the type |
| Upload.TypeError | backend/utils/upload.go:69 | the refusal reads "file type " + the content type + " is not allowed", so the type can be read back from it |
| Upload.ParameterisedTypeAccepted | backend/utils/upload.go:63-66 | "image/png; charset=binary" passes the image list, because the check is by prefix |
| Upload.ValidateFileSize | backend/utils/upload.go:73-78 | a size is accepted iff it is at most the maximum, so the maximum itself is accepted |
| Upload.SizeError | backend/utils/upload.go:75 | the refusal starts "file size "; its first number reads back as the size and its last as the limit |
| Upload.Ext | backend/utils/upload.go:94 | `filepath.Ext`: a suffix of the path that is empty or starts at the last '.' of the final element. When it is empty, every '.' lies before some '/' |
| Upload.ExtExtend | backend/utils/upload.go:94 | appending characters other than '.' and '/' extends an extension, or keeps it absent |
| Upload.ExtOfSuffix | backend/utils/upload.go:94 | a dot followed by no dot or slash, at the end of a path, is exactly its extension |
| Upload.GenerateUniqueFileName | backend/utils/upload.go:89-99 | without generation the name is kept; with it the name is stem + "_" + timestamp + ext, where stem + ext is the original name |
| Upload.GeneratedNameKeepsExt | backend/utils/upload.go:94-98 | a generated name has the same extension as the original |
| Upload.GeneratedNameNoBackslash | backend/utils/upload.go:94-98 | a generated name introduces no backslash |
| Upload.JoinUnderDir | backend/utils/upload.go:110 | joining one of the "./"-relative upload directories and a base name drops the leading "./" |
| Upload.RelativeURL | backend/utils/upload.go:134 | the URL path has one leading '.' removed and contains no backslash |
| Upload.SaveFile | backend/utils/upload.go:102-143 | an I/O failure is an error. On success the name is the generated one, the path is the directory joined with it, size and type are the upload's, and the URL is derived from the path |
| Upload.ValidateAndSaveFile | backend/utils/upload.go:146-161 | the type check runs first and is skipped for an empty list, then the size check runs, then the save. The result succeeds iff both checks pass and the save does |
| Upload.GetFileURL | backend/utils/upload.go:199-203 | the URL starts with the base minus one trailing '/', and the rest has no backslash |
| Upload.GetFileURLOfRelativePath | backend/utils/upload.go:199-203 | for a "."-relative path without backslashes, the URL is the base followed by the path minus its dot |
| Upload.ConfigFor | backend/utils/upload.go:16-33 | avatars take the image types with 2 MiB; images take the image types with 10 MiB; documents take the seven document types with 10 MiB. All three generate names (also backend/utils/upload.go:164-196; backend/controllers/upload_controller.go:105-110) |
| Upload.AvatarAccepted | backend/utils/upload.go:164-173 | any image type within 2 MiB passes the avatar checks |
| Upload.AvatarStoredPath | backend/utils/upload.go:102-143 | a saved avatar's URL path is "uploads/avatars/" + the generated name (also backend/utils/upload.go:164-173) |
| Upload.FullURL | backend/controllers/upload_controller.go:193-210 | the scheme is https iff the request has TLS. The URL is scheme://host/ followed by the path with one leading "./" removed |
| Upload.HandleUpload | backend/controllers/upload_controller.go:28-190 | a missing file field gives 400 and an unopenable file gives 500. A validation failure gives 400 with the validator's message. Success gives 200 with the saved result and its absolute URL |
| Upload.AvatarURLShape | backend/controllers/upload_controller.go:28-70 | end to end: an accepted avatar is served at scheme://host/uploads/avatars/<stem>_<stamp><ext> |
| QRCode.IndexFrom | backend/utils/qrcode.go:271-278 | reference search: the least occurrence of the pattern at or after a start, or -1 when there is none |
| QRCode.IndexOf | backend/utils/qrcode.go:271-278 | -1 iff the pattern occurs nowhere; otherwise the least index where it occurs |
| QRCode.Index | backend/utils/qrcode.go:271-278 | the hand-written scan returns the least index at which the pattern occurs, or -1 iff there is none, and agrees with the reference search |
| QRCode.IndexOfEmpty | backend/utils/qrcode.go:272-275 | the empty pattern is found at 0 |
| QRCode.IndexOfTooLong | backend/utils/qrcode.go:272-277 | a pattern longer than the text is never found |
| QRCode.OccursAtChar | backend/utils/qrcode.go:121 | a one-character pattern occurs at i iff the text has that character at i |
| QRCode.SplitPagePath | backend/utils/qrcode.go:120-127 | with no '?' the page is the whole path and the scene is "". Otherwise page + "?" + scene == path and the page has no '?' |
| QRCode.SplitJoin | backend/utils/qrcode.go:120-127 | splitting page + "?" + scene, with no '?' in the page, gives back page and scene |
| QRCode.GenerateWebQRCode | backend/utils/qrcode.go:53-65 | success iff the encoder succeeds, and the result is "data:image/png;base64," + the encoding; an error is prefixed "failed to generate QR code: " |
| QRCode.FallbackPayload | backend/utils/qrcode.go:78 | the fallback text starts with the WeChat connect URL "https://open.weixin.qq.com/connect/qrconnect?appid=", ends with "&path=" and the path, and the app id reads back from between the two |
| QRCode.GenerateWxappCodeFromAPI | backend/utils/qrcode.go:111-182 | the code succeeds exactly when the token is fetched and the API, called with the split page and scene, answers without a call error, with error code 0 and a JPEG or PNG content type; the result is then the data-URL of its body. Each failure carries its own message: "failed to get access token: ", "failed to call WeChat API: ", "WeChat API error [code]: message" and "unexpected content type: …, expected image", checked in that order |
| QRCode.GenerateWxappQRCode | backend/utils/qrcode.go:70-87 | with a secret the API route is taken; without one the fallback payload is encoded, and the result succeeds iff that encoding does |
| QRCode.GenerateRecommendorQRs | backend/utils/qrcode.go:90-107 | on any error both codes are "". Otherwise both start with the data-URL prefix and the web code encodes BaseURL + "/recommendors/" + id. Success iff both generators succeed |
| QRCode.WebURL | backend/utils/qrcode.go:92 | the web link is BaseURL + "/recommendors/" followed by decimal digits that read back as the id |
| QRCode.WxPath | backend/utils/qrcode.go:99-100 | the mini-program path is MinAppPath + "/pages/recommendor/detail?id=" followed by decimal digits that read back as the id |
| QRCode.WxSceneCarriesId | backend/utils/qrcode.go:99-124 | for a base path without '?', the API receives the detail page as page and "id=" + id as scene |
| Jwt.NewClaims | backend/utils/jwt.go:35-45 | fresh claims carry the user's id, name and role. They expire `expiration` seconds after now, are issued and valid from now, and have issuer "tourism-recommender" |
| Jwt.GenerateToken | backend/utils/jwt.go:33-57 | under a sound codec the signed token decodes to exactly the fresh claims |
| Jwt.ValidateToken | backend/utils/jwt.go:60-81 | accepted iff the signature checks under the current key and the time claims hold (exp strictly after now, nbf at or before now); the result is the decoded claims |
| Jwt.GeneratedTokenLifetime | backend/utils/jwt.go:33-81 | a token issued at t validates exactly during [t, t + expiration) and names the user it was issued for |
| Jwt.RefreshToken | backend/utils/jwt.go:84-93 | refreshing fails iff validation fails, with the same error |
| Jwt.RefreshPreservesIdentity | backend/utils/jwt.go:84-93 | a refreshed token validates now, keeps the user id, username and role, and expires a full lifetime from now |
| Jwt.GetUserIDFromToken | backend/utils/jwt.go:96-103 | the user id claim, or an error exactly when validation fails |
| Jwt.GetUsernameFromToken | backend/utils/jwt.go:106-113 | the username claim, or an error exactly when validation fails |
| Jwt.GetRoleFromToken | backend/utils/jwt.go:116-123 | the role claim, or an error exactly when validation fails |
| Jwt.IsTokenExpired | backend/utils/jwt.go:126-140 | an undecodable token counts as expired. Otherwise it is expired iff now > exp (strict); a token without exp dereferences nil |
| Jwt.ExpiryBoundaryDisagreement | backend/utils/jwt.go:60-81 | at the expiry second a token already fails validation but is not yet reported expired (also backend/utils/jwt.go:126-140) |
| Jwt.SetJWTSecret | backend/utils/jwt.go:143-147 | an empty secret is ignored; any other replaces the key and leaves the lifetime alone |
| Jwt.SetTokenExpiration | backend/utils/jwt.go:150-154 | a non-positive lifetime is ignored; a positive one replaces it and leaves the key alone |
| Jwt.SettersKeepLifetimePositive | backend/utils/jwt.go:143-154 | starting from a positive lifetime, any sequence of `SetJWTSecret` and `SetTokenExpiration` calls leaves it positive |
| Middleware.SetClaims | backend/middleware/auth.go:60-62 | the context gains user_id (uint), username and role from the claims; every other key is kept |
| Middleware.TrimBearerChanges | backend/middleware/auth.go:39-40 | trimming "Bearer " changes the header iff the header starts with it, and then leaves exactly the rest |
| Middleware.AuthRequired | backend/middleware/auth.go:23-67 | an empty header gives 401 "Authorization header is required". A header not starting with exactly "Bearer " gives 401 "Invalid authorization header format". A failing token gives 401. The request passes iff the token after the prefix validates, and the claims then go into the context |
| Middleware.AuthAcceptsIssuedToken | backend/middleware/auth.go:39-62 | a token just issued, sent as "Bearer <token>", passes and stores its user's id, name and role |
| Middleware.AdminRequired | backend/middleware/auth.go:70-103 | a missing role gives 401 and a non-string role 500. A role other than admin or super_admin gives 403. It passes iff the role is admin or super_admin, with the context unchanged |
| Middleware.SuperAdminRequired | backend/middleware/auth.go:106-139 | as the admin guard, but only super_admin passes |
| Middleware.SuperAdminGuardStronger | backend/middleware/auth.go:92 | whatever passes the super-admin guard passes the admin guard; an admin passes only the latter (also backend/middleware/auth.go:128) |
| Middleware.GetUserID | backend/middleware/auth.go:142-160 | a missing key and a non-uint value give their two errors; otherwise the stored id |
| Middleware.GetUsername | backend/middleware/auth.go:163-181 | a missing key and a non-string value give their two errors; otherwise the stored name |
| Middleware.GetRole | backend/middleware/auth.go:184-202 | a missing key and a non-string value give their two errors; otherwise the stored role |
| Middleware.StringClaim | backend/middleware/auth.go:163-202 | a missing key gives the accessor's not-found error and a non-string value its type error; a string value is returned exactly when it is stored |
| Middleware.AccessorsReadClaims | backend/middleware/auth.go:142-202 | the accessors read back exactly the claims the guard stored (also backend/middleware/auth.go:60-62) |
| Middleware.RolePredicatesMatchGuards | backend/middleware/auth.go:211-238 | IsAdmin holds iff the admin guard passes and IsSuperAdmin iff the super-admin guard passes, so IsSuperAdmin implies IsAdmin |
| Middleware.IssuedTokenCarriesRole | backend/middleware/auth.go:106-138 | the token issued for an account passes the authentication guard; the super-admin guard then passes exactly when the account is a super admin, and the admin guard passes for every super admin (also backend/models/admin.go:46-48; backend/middleware/auth.go:23-67) |
| Middleware.IsAuthenticated | backend/middleware/auth.go:205-208 | a context is authenticated exactly when it holds a user id; one whose user id can be read always is, and one that is not has no user id at all |
| Models.AdminIsActive | backend/models/admin.go:41-43 | an account is active exactly when its status is "active"; "inactive" and "locked" accounts are not |
| Models.AdminIsSuperAdmin | backend/models/admin.go:46-48 | an account is a super admin exactly when its role is "super_admin"; a plain "admin" is not |
| Middleware.OptionalAuthAuthenticates | backend/middleware/auth.go:241-276 | behind the optional guard, a request that arrived without a user is authenticated exactly when the required guard would have let it through, and its user id can then be read (also backend/middleware/auth.go:205-208) |
| Middleware.IsAdmin | backend/middleware/auth.go:211-223 | an admin has a role of string type, and a super admin's role always counts as admin |
| Middleware.IsSuperAdmin | backend/middleware/auth.go:226-238 | a super admin is an admin, and the plain admin role is not a super admin |
| Middleware.OptionalAuth | backend/middleware/auth.go:241-276 | never aborts; fills the context exactly when the required guard would pass, and otherwise leaves it unchanged |
| Middleware.CORSMiddleware | backend/middleware/auth.go:279-300 | the request's origin is echoed and credentials are allowed. OPTIONS aborts with 204, and any other verb passes on unchanged |
| Models.StandInIsSound | backend/models/admin.go:53-66 | a hasher with bcrypt's 72-byte limit that accepts exactly the candidates with the hashed password's key exists, so the hashing assumptions can be met |
| Models.SetPassword | backend/models/admin.go:51-61 | a hashing error leaves the account unchanged and is returned. Otherwise the stored password becomes the hash and nothing else changes |
| Models.CheckPassword | backend/models/admin.go:64-73 | with bcrypt, a stored hash of the candidate itself is accepted |
| Models.SetThenCheck | backend/models/admin.go:51-73 | after a successful SetPassword(p), CheckPassword accepts exactly the candidates with p's bcrypt key, p among them. A password over 72 UTF-8 bytes is refused and leaves the account as it was |
| Models.SetThenCheckShort | backend/models/admin.go:51-73 | between passwords of at most 72 bytes without a NUL character, the stored hash of p accepts p and no other |
| Models.SetThenCheckLong | backend/models/admin.go:64-73 | the stored hash of a 72-byte password also accepts it with anything appended |
| Models.BcryptKey | backend/models/admin.go:64-73 | the key bcrypt hashes is 72 bytes long; it starts with the password's bytes, followed by a zero byte when the password is shorter than 72 bytes |
| Models.Repeat | backend/models/admin.go:64-73 | repeating bytes up to n gives n bytes, starting with the bytes themselves |
| Models.LongPasswordKey | backend/models/admin.go:64-73 | past 72 bytes, anything appended to a password leaves its key unchanged |
| Models.ShortPasswordKey | backend/models/admin.go:64-73 | two passwords of at most 72 bytes without a NUL character share a key exactly when they are equal |
| Models.BeforeCreate | backend/models/admin.go:76-82 | the create hook hashes any non-empty stored password again, and leaves an empty one alone |
| Models.HookRehashesHash | backend/models/admin.go:51-61 | SetPassword(p) followed by the create hook re-hashes the hash: either the insert fails or the stored value no longer accepts p (also backend/models/admin.go:76-82) |
| Models.HookHashesPlainPasswordOnce | backend/models/admin.go:76-82 | creating an account that carries the plain password hashes it once, and that password then checks |
| Models.ActiveWindow | backend/models/recommendor.go:61-64 | the active instants form an open interval: with status "active" they are exactly the instants strictly between validFrom and validUntil, with any other status there are none; both ends are excluded, and everything between two active instants is active |
| Models.RecommendorIsActive | backend/models/recommendor.go:61-64 | a recommendor is active exactly when its status is "active" and now lies strictly between validFrom and validUntil; so an active one has a non-empty window, and at or outside either end it is not active |
| Models.GetAvatarURL | backend/models/recommendor.go:67-74 | an empty avatar gives base + "/images/default-avatar.png", otherwise base + "/uploads/avatars/" + avatar |
| Models.DefaultIsNotAvatarPath | backend/models/recommendor.go:67-74 | the default-avatar URL never looks like an uploaded-avatar URL |
| Models.AvatarURLRoundTrip | backend/models/recommendor.go:67-74 | the avatar URL determines the stored avatar: reading it back gives the avatar, "" for the default |
| Models.GetRegionInfo | backend/models/recommendor.go:77-84 | exactly the keys province_code, city_code, district_code and full_address, holding the three codes and, under full_address, the stored region address |
| Models.RegionInfoDeterminesRegion | backend/models/recommendor.go:77-89 | two records report the same region info exactly when their three codes and region address agree, and then their full addresses agree |
| Models.GetFullAddress | backend/models/recommendor.go:87-89 | the full address is the stored region address, the same text the region info reports as "full_address" |
| Recommendors.NewRecommendor | backend/controllers/recommendor_controller.go:84-113 | the inserted record copies the request. An empty status becomes "active". An empty region address becomes province/city/district codes joined by "/". The rating and both QR codes start empty |
| Recommendors.GenerateQRCodes | backend/controllers/recommendor_controller.go:524-552 | succeeds iff both generators do; then only the two QR fields change and both are data-URLs, and on failure the record is not touched |
| Recommendors.DefaultWebTarget | backend/controllers/recommendor_controller.go:533-535 | with BASE_URL unset, the web code points at http://localhost:8080/recommendors/<id> (also backend/utils/qrcode.go:92) |
| Recommendors.Create | backend/controllers/recommendor_controller.go:69-134 | a binding failure gives 400: required fields, gender in {male, female, other}, 18 <= age <= 100. An id number held by a live row gives 400 "ID number already exists". One held only by a soft-deleted row fails at the unique index with 500. Otherwise exactly one row is added; a QR failure answers 500 but keeps the row without codes, and success answers 201 with the stored row (also backend/controllers/recommendor_controller.go:20-36) |
| Recommendors.CreateKeepsIDNumbersUnique | backend/controllers/recommendor_controller.go:77-81 | create keeps the id-number index unique (also backend/controllers/recommendor_controller.go:116-119) |
| Recommendors.Merge | backend/controllers/recommendor_controller.go:299-352 | every field present in the request overwrites, every absent field keeps its stored value, and the QR codes are untouched |
| Recommendors.MergeLaws | backend/controllers/recommendor_controller.go:299-352 | an empty update changes nothing, repeating an update changes nothing more, and two updates in a row act as their last-writer-wins combination |
| Recommendors.Update | backend/controllers/recommendor_controller.go:279-367 | a bad id gives 400, a binding failure 400, a missing row 404, and every failure leaves the table unchanged. Success replaces only that row with the merged record with fresh codes, whose id number no other row holds |
| Recommendors.UpdateKeepsIDNumbersUnique | backend/controllers/recommendor_controller.go:308-316 | update keeps the id-number index unique (also backend/controllers/recommendor_controller.go:361-364) |
| Recommendors.UpdateIDNumberCheck | backend/controllers/recommendor_controller.go:308-316 | an id number held by another live row gives 400; resubmitting the record's own number passes the check |
| Recommendors.Delete | backend/controllers/recommendor_controller.go:380-400 | soft-deletes exactly the live row named, answering 200. A bad key gives 400 and a missing row 404, with the table unchanged |
| Recommendors.DeleteThenGet | backend/controllers/recommendor_controller.go:248-264 | after a delete the lookup answers 404, but the row still holds its id number, so the index stays unique and the number cannot be reused (also backend/controllers/recommendor_controller.go:380-400) |
| Recommendors.RegenerateQRCodes | backend/controllers/recommendor_controller.go:413-439 | a bad key gives 400 and a missing row 404. Success changes only the two QR fields of that row, and every failure leaves the table unchanged |
| Recommendors.StatusColumn | backend/controllers/recommendor_controller.go:204-205 | the status filter reads the record's status |
| Recommendors.AgeColumn | backend/controllers/recommendor_controller.go:208-217 | the age filters read the record's age |
| Recommendors.AgeConditions | backend/controllers/recommendor_controller.go:208-218 | min_age and max_age add conditions only when they parse; the added conditions are on age and keep the earlier ones first |
| Recommendors.RegionNameCondition | backend/controllers/recommendor_controller.go:192-202 | an empty name adds nothing; another adds region_address LIKE %name% |
| Recommendors.CommonConditions | backend/controllers/recommendor_controller.go:169-188 | the shared filters touch only name, gender and the three code columns |
| Recommendors.PublicConditions | backend/controllers/recommendor_controller.go:169-223 | without a status the last condition is status = "active"; with one, status = it is a condition |
| Recommendors.AdminConditions | backend/controllers/recommendor_controller.go:474-509 | with a status it is a condition; without one only the shared and age columns are filtered |
| Recommendors.List | backend/controllers/recommendor_controller.go:228-235 | a list is the requested page of the live rows meeting every condition, in id order or reversed as asked, and its total counts all of them; each listed row is live and meets every condition |
| Recommendors.GetRecommendors | backend/controllers/recommendor_controller.go:156-245 | the public list is the requested page of the records meeting the public filters, with their full count as the total |
| Recommendors.GetAdminRecommendors | backend/controllers/recommendor_controller.go:461-521 | the admin list is the requested page of the records meeting the admin filters, with their full count as the total; each listed row is live |
| Recommendors.PublicListStatus | backend/controllers/recommendor_controller.go:204-223 | every row of the public list has status "active" when none is asked for, and the asked status otherwise |
| Recommendors.ActiveOrAskedStatusIsACondition | backend/controllers/recommendor_controller.go:204-223 | the public list always carries a status condition, "active" by default |
| Recommendors.RegionAddressColumn | backend/controllers/recommendor_controller.go:192-202 | the region-name filters read the stored region address |
| Recommendors.RegionNamesAreConditions | backend/controllers/recommendor_controller.go:192-202 | each non-empty province, city or district name becomes a LIKE condition on region_address |
| Recommendors.PublicListMatchesRegionNames | backend/controllers/recommendor_controller.go:192-202 | every listed record's address contains each region name given (also backend/controllers/recommendor_controller.go:228) |
| Recommendors.LikeWrapped | backend/controllers/recommendor_controller.go:193 | %name% matches exactly the texts containing name |
| Recommendors.AdminListStatus | backend/controllers/recommendor_controller.go:495-497 | with a status given, the admin list shows only that status |
| Recommendors.AdminListHasNoDefaultStatus | backend/controllers/recommendor_controller.go:461-521 | without a status the admin list puts no condition on the status column |
| Recommendors.AgeBounds | backend/controllers/recommendor_controller.go:208-218 | a parsable min_age or max_age bounds every listed age; an unparsable one is ignored |
| Destinations.NewDestination | backend/controllers/destination_controller.go:66-81 | the inserted destination copies the request, and an empty status becomes "active" |
| Destinations.Create | backend/controllers/destination_controller.go:52-89 | a binding failure gives 400: no owner key, no name, or a rating outside 0..5. An owner that is not a live recommendor gives 404 "Recommendor not found". Otherwise exactly one new row is added under a fresh key, every old row is unchanged, and the reply is 201 with the stored destination. Failures leave the table unchanged (also backend/controllers/destination_controller.go:18-26) |
| Destinations.Merge | backend/controllers/destination_controller.go:218-239 | every field present in the request overwrites and every absent one keeps its stored value; the owning recommendor can never change (also backend/controllers/destination_controller.go:30-38) |
| Destinations.MergeLaws | backend/controllers/destination_controller.go:218-239 | an empty update changes nothing, and repeating an update changes nothing more |
| Destinations.Update | backend/controllers/destination_controller.go:199-247 | a bad id gives 400 "Invalid destination ID", a rating outside 0..5 gives 400, and a missing row gives 404. It succeeds iff the id parses, the binding holds and the row is live; then only that row is replaced by the merged record, answered with 200. Failures leave the table unchanged |
| Destinations.Delete | backend/controllers/destination_controller.go:260-280 | soft-deletes exactly the live row named and no other, answering 200 "Destination deleted successfully". A bad key gives 400 and a missing row 404, with the table unchanged |
| Destinations.OwnershipKept | backend/controllers/destination_controller.go:60-64 | every destination names a stored recommendor, and create, update and delete of destinations keep that true, as does any recommendor change that keeps the recommendor keys (also backend/controllers/destination_controller.go:218-239, 274; backend/controllers/recommendor_controller.go:380-400) |
| Destinations.StatusColumn | backend/controllers/destination_controller.go:136-142 | the status filter reads the destination's status |
| Destinations.OwnerColumn | backend/controllers/destination_controller.go:130-134 | the recommendor_id filter reads the destination's owner (also backend/controllers/destination_controller.go:319) |
| Destinations.AdminConditions | backend/controllers/destination_controller.go:365-381 | a given status becomes an equality condition, and so does a recommendor_id that parses as an integer |
| Destinations.PublicConditions | backend/controllers/destination_controller.go:122-143 | the public list always carries a status condition, "active" when none is given, plus the owner condition when recommendor_id parses |
| Destinations.GetDestinations | backend/controllers/destination_controller.go:108-155 | the public list is the requested page of the destinations meeting the public filters, with their full count as the total |
| Destinations.GetAdminDestinations | backend/controllers/destination_controller.go:351-393 | the admin list is the requested page of the destinations meeting the admin filters, with their full count as the total |
| Destinations.PublicListStatus | backend/controllers/destination_controller.go:108-155 | every destination in the public list is active when no status is given, and has the given status otherwise |
| Destinations.OwnerFilter | backend/controllers/destination_controller.go:130-134 | a recommendor_id that parses restricts both the public and the admin list to that owner's destinations (also backend/controllers/destination_controller.go:373-377) |
| Destinations.GetDestinationsByRecommendor | backend/controllers/destination_controller.go:295-332 | a bad key gives 400 "Invalid recommender ID" and an owner that is not live gives 404 "Recommender not found". It answers iff the owner is live; then the data is the requested page of that owner's active destinations in the requested order, the total counts them, the page and size echo the request, and every listed one is a live active destination of that owner |
| Destinations.OwnerRows | backend/controllers/destination_controller.go:318-320 | every row of the per-owner list belongs to that owner and is active |
| Destinations.GetRecommendorWithDestinations | backend/controllers/recommendor_controller.go:248-264 | a bad key gives 400 and a missing owner 404. Otherwise the reply holds the recommendor and exactly its live destinations, whatever their status |
| Destinations.DeletedOwnerKeepsDestinationsListed | backend/controllers/destination_controller.go:108-155 | after a recommendor is deleted its own list answers 404, while its active destinations still show in the general list (also backend/controllers/destination_controller.go:295-307; backend/controllers/recommendor_controller.go:380-400) |
| Regions.Create | backend/controllers/region_controller.go:40-58 | an empty name gives 400, and a name any stored row holds (soft-deleted ones included) fails at the unique index with 500. It succeeds iff neither happens; then the one new row is answered with 201, and failures leave the table unchanged (also backend/controllers/region_controller.go:18-21; backend/models/region.go:10) |
| Regions.Merge | backend/controllers/region_controller.go:161-166 | a non-empty name or description overwrites, and an empty one keeps the stored value |
| Regions.Update | backend/controllers/region_controller.go:141-174 | a bad key gives 400 and a missing row 404. It succeeds iff the row is live and no other stored row holds the merged name; then only that row is replaced, with 200. Failures leave the table unchanged (also backend/models/region.go:10) |
| Regions.NamesStayUnique | backend/controllers/region_controller.go:52-55 | create and update keep region names unique across every stored row (also backend/controllers/region_controller.go:168-171; backend/models/region.go:10) |
| Regions.Delete | backend/controllers/region_controller.go:187-220 | a bad key gives 400 and a missing row 404. A failed usage count gives 500 and a positive one gives 400. It succeeds iff the row is live and unused; then exactly that row is soft-deleted. Failures leave the table unchanged |
| Regions.DeletedNameStaysTaken | backend/controllers/region_controller.go:52-55 | after a delete the lookup answers 404, yet creating a region of the same name still fails, because the soft-deleted row keeps the name in the index (also backend/controllers/region_controller.go:214; backend/models/region.go:10) |
| Regions.GetRegions | backend/controllers/region_controller.go:73-100 | the data is the requested page of the ordered live regions meeting the name search, the total counts every match, and the page and size echo the request; every listed region is a live stored row whose name, with a name given, contains it ignoring ASCII case (also backend/utils/pagination.go:106-111) |
| Regions.NameConditions | backend/controllers/region_controller.go:86-88 | an empty name adds no condition |
| AuthHandlers.InfoOf | backend/controllers/auth_controller.go:39-48 | the returned account carries the key, username, role and status of the stored one, and no password hash (also backend/controllers/auth_controller.go:124-133) |
| AuthHandlers.FindByUsername | backend/controllers/auth_controller.go:71 | finds a live account iff one holds the username, and then the one with the lowest key |
| AuthHandlers.Login | backend/controllers/auth_controller.go:57-140 | a missing field gives 400 and an unknown username gives 401. It succeeds iff the account is found, active and the password checks. Then the token is issued for that account, the expiry is now plus the lifetime, the login time is stored, and only that row changes. Failures leave the table unchanged (also backend/controllers/auth_controller.go:26-29) |
| AuthHandlers.InactiveAccountRefused | backend/controllers/auth_controller.go:85-91 | a found account that is not active is refused with 403 "Account is not active" whatever the password, and nothing is stored |
| AuthHandlers.LoginHidesWhichPartFailed | backend/controllers/auth_controller.go:71-77 | a wrong password for an active account is answered exactly like an unknown username (also backend/controllers/auth_controller.go:95-100) |
| AuthHandlers.LoginTokenAuthenticates | backend/controllers/auth_controller.go:103 | the token a login returns passes the authentication middleware and puts that account's key and role into the context (also backend/controllers/auth_controller.go:121-133; backend/middleware/auth.go:23-67) |
| AuthHandlers.GetCurrentUser | backend/controllers/auth_controller.go:156-198 | no user id in the context gives 401, and a missing account gives 404. It answers iff the id names a live account, and then with that account's public fields |
| AuthHandlers.Logout | backend/controllers/auth_controller.go:143-153 | always answers 200; nothing is revoked |
| AuthHandlers.ChangePassword | backend/controllers/auth_controller.go:201-275 | an empty old password or a new one shorter than six characters gives 400. It succeeds iff the context names a live account, the old password checks, the new one differs and hashing works. Then only that account's hash changes; failures leave the table unchanged (also backend/controllers/auth_controller.go:51-54) |
| AuthHandlers.ChangeThenLogin | backend/controllers/auth_controller.go:57-140 | after a password change the account logs in with the new password, and with the old one exactly when bcrypt derives the same key from both; otherwise the old one is refused, which is always so when the old password is at most 72 bytes and neither holds a NUL character (also backend/controllers/auth_controller.go:201-275) |
| AuthHandlers.LoginDecidedByPassword | backend/controllers/auth_controller.go:86-100 | once the lookup finds an active account, the login succeeds iff the password checks |
| AuthHandlers.SameLookupAfterPut | backend/controllers/auth_controller.go:71 | saving an account under the same username leaves every username lookup unchanged (also backend/controllers/auth_controller.go:114-115, 264) |
| AuthHandlers.ExtractTokenAsWritten | backend/controllers/auth_controller.go:289 | the cut works on the header's UTF-8 bytes, as a Go string slice does: it runs past the end exactly when the header has fewer than seven bytes; it lands inside a character when byte seven is a continuation byte; otherwise the rest is the text whose bytes follow the first seven |
| AuthHandlers.ExtractToken | backend/middleware/auth.go:43-52 | yields a token iff the header starts with "Bearer ", and the prefix followed by the token gives back the header |
| AuthHandlers.RefreshWith | backend/controllers/auth_controller.go:290-361 | an empty token gives 401 with the format text and an invalid or expired one gives 401. Once the token refreshes: a new token that fails validation gives 500, an account that is not live gives 404 "User not found", and one that is not active gives 403 "Account is not active". It answers iff the new token validates for a live, active account; the reply then carries the refreshed token, an expiry of now plus the lifetime, and that account's public fields |
| AuthHandlers.RefreshTokenAsWritten | backend/controllers/auth_controller.go:278-295 | an empty header gives 401; a non-empty header of fewer than seven UTF-8 bytes aborts with a bare 500; a cut inside a character leaves invalid text that the JWT parser refuses with 401; otherwise the handler goes on with the text after the seventh byte |
| AuthHandlers.RefreshAsWrittenPanics | backend/controllers/auth_controller.go:289 | the header "Bearer" crashes the handler instead of being refused |
| AuthHandlers.RefreshAsWrittenCutsBytes | backend/controllers/auth_controller.go:289 | "日本語" has three characters but nine bytes, so the slice does not crash: it cuts the third character in two and the handler answers 401 "Invalid or expired token" |
| AuthHandlers.RefreshToken | backend/controllers/auth_controller.go:278-362 | never aborts. An empty header gives 401 "Authorization header is required" and any header not starting with "Bearer " gives 401 "Invalid authorization header format" |
| AuthHandlers.RefreshAgreesOnBearerHeaders | backend/controllers/auth_controller.go:278-362 | on every "Bearer <token>" header the corrected handler answers exactly as the original |
| AuthHandlers.RefreshKeepsSession | backend/controllers/auth_controller.go:298-361 | refreshing a valid token of a live, active account succeeds for the same account, and the new token passes the middleware, so the 500 branch cannot be reached (also backend/utils/jwt.go:126-140) |
| AuthHandlers.RefreshRechecksAccount | backend/controllers/auth_controller.go:318-340 | a valid token is not enough: for a bearer header whose token validates, an account that is no longer live gives 404 "User not found" and one that is no longer active gives 403 "Account is not active" |
| Routes.Mounted | backend/routes/routes.go:63-70 | mounting a group's endpoints yields one route per endpoint, in order, each under the group's prefix with the group's guards |
| Routes.FlattenOrigin | backend/routes/routes.go:15-186 | every registered route comes from exactly one endpoint of one group, carrying that group's guards |
| Routes.TableFits | backend/routes/routes.go:24-186 | each of the sixteen groups gives its endpoints the guards they need |
| Routes.GuardTable | backend/routes/routes.go:50-60 | a route lies under /api/v1/admin or /api/admin iff its guards are AuthRequired then AdminRequired. Every data-changing or all-status handler carries both. Logout, me and change-password carry AuthRequired alone; login, refresh, health and the uploads carry none (also backend/routes/routes.go:123-133) |
| Routes.LegacyMirrorsV1 | backend/routes/routes.go:24-186 | the /api table repeats the /api/v1 table without health and uploads, with the same guards and endpoints, except that its admin recommendor group also serves the owner listing |
| Routes.Lookup | backend/routes/routes.go:15-186 | a found route is registered for that method and matches the path segment by segment; when nothing is found, no registered route of that method matches |
| Routes.AdminChain | backend/middleware/auth.go:23-103 | the admin chain passes exactly the requests whose bearer token validates with role admin or super_admin; AuthRequired alone passes exactly those whose token validates (also backend/routes/routes.go:60, 133) |
| Routes.RunGuards | backend/routes/routes.go:60 | no guards pass the context through; a refusal is a 401, 403 or 500 failure; a passing chain that includes AuthRequired leaves an authenticated context, and one without it leaves the context as it was (also backend/middleware/auth.go:23-103) |
| Routes.BearerClaims | backend/middleware/auth.go:39-62 | claims are found exactly when AuthRequired passes the header, and AuthRequired then stores those claims in the context |
| Routes.CorsHeaders | backend/routes/routes.go:218-222 | every response carries the four CORS headers, with a wildcard origin and credentials allowed |
| Routes.PreflightFirst | backend/routes/routes.go:224-227 | an OPTIONS request is answered by the CORS middleware before any guard or handler, whatever its path and header |
| Routes.Handle | backend/routes/routes.go:210-231 | every OPTIONS request, and only those, is answered by the CORS middleware with its headers; otherwise an unmatched request gets the single-page fallback, and a matched one is rejected with the first failing guard's response or runs the route's handler with the context the guards built (also backend/routes/routes.go:204-206) |
| Routes.HandlersRunBehindGuards | backend/routes/routes.go:50-60 | a data-changing or all-status handler runs only for a validated token with an administrator role, and a session handler runs only for a validated token (also backend/routes/routes.go:123-133, 204-206) |
| Routes.OpenHandlersIgnoreHeader | backend/routes/routes.go:27-47 | login, refresh, health and the uploads run whatever the Authorization header says (also backend/routes/routes.go:116-120) |
| Routes.OrDefault | backend/routes/routes.go:248-261 | an unset value takes the default, and a set one is kept |
| Routes.CreateAdmin | backend/routes/routes.go:296 | the insert succeeds iff the create hook succeeds and neither the username nor the email is held by a stored row; then it adds the hooked row, and on failure nothing changes (also backend/models/admin.go:21, 25, 76-82) |
| Routes.UpdateEmail | backend/routes/routes.go:269-272 | an existing account keeps its row or only its email changes; a failing save is ignored |
| Routes.SeedAsWritten | backend/routes/routes.go:246-301 | the seed as written keeps the table valid, and a failure leaves it unchanged |
| Routes.Seed | backend/routes/routes.go:246-301 | an existing account is kept, with at most its email changed. Otherwise a successful seed inserts one active super administrator with the configured username and email, and a failure changes nothing |
| Routes.FoundAfterInsert | backend/routes/routes.go:265 | after the insert, the username lookup finds the new row |
| Routes.SeedIdempotent | backend/routes/routes.go:246-301 | seeding a second time changes nothing |
| Routes.SeedAsWrittenOnEmpty | backend/routes/routes.go:291-296 | on an empty table the seed as written stores the create hook applied to an already hashed password (also backend/models/admin.go:76-82) |
| Routes.SeedAsWrittenLocksOut | backend/routes/routes.go:291-296 | with a sound hasher, the administrator seeded as written is refused with 401 when it logs in with the seeded password (also backend/models/admin.go:76-82) |
| Routes.SeedLetsAdminLogIn | backend/routes/routes.go:246-301 | with the password hashed once, the seeded administrator logs in with the seeded password (also backend/controllers/auth_controller.go:57-140) |
| RegionSelector.Lookup | frontend/src/components/RegionSelector.jsx:16-22 | a missing key reads as an empty list, and a present one as its list |
| RegionSelector.ChildrenOf | frontend/src/components/RegionSelector.jsx:32-39 | children are left undefined exactly when there are none |
| RegionSelector.CityNode | frontend/src/components/RegionSelector.jsx:18-34 | a city option carries the city's code and name, with one child per county listed under it, and none when there are none |
| RegionSelector.ProvinceNode | frontend/src/components/RegionSelector.jsx:12-41 | a province option carries the province's code and name, with one child per city listed under it, and none when there are none |
| RegionSelector.ProcessRegionData | frontend/src/components/RegionSelector.jsx:11-44 | one option per province, in the data's order |
| RegionSelector.ThreeLevelPaths | frontend/src/components/RegionSelector.jsx:11-44 | a three-code selection is complete in the option tree iff the city is listed under the province and the county under the city, and the county has no children |
| RegionSelector.DisplayThree | frontend/src/components/RegionSelector.jsx:60-62 | a three-level selection displays as province / city / county |
| RegionSelector.HandleChange | frontend/src/components/RegionSelector.jsx:65-80 | the reported value keeps the selected codes as they are, and its names are the labels joined with " / " |
| RegionSelector.Compact | frontend/src/components/RegionSelector.jsx:90-94 | keeps only truthy strings, never more than it was given, and keeps all of them in order when every slot is truthy |
| RegionSelector.ConvertToValue | frontend/src/components/RegionSelector.jsx:83-95 | no value selects nothing, an array is used as it is, and an object yields at most three non-empty codes |
| RegionSelector.SelectionRoundTrip | frontend/src/components/RegionSelector.jsx:65-95 | converting back a value the selector reported gives the selection it came from, for up to three non-empty codes |
| RegionSelector.ConvertInfo | frontend/src/components/RegionSelector.jsx:90-94 | an object converts slot by slot: each truthy code key contributes itself, in province, city, district order |
| Session.SetToken | frontend/src/services/auth.js:17-25 | a truthy token is stored and the user entry kept; a falsy one leaves storage unchanged |
| Session.SetUser | frontend/src/services/auth.js:46-54 | a user is stored and the token entry kept; no user leaves storage unchanged |
| Session.Clear | frontend/src/services/auth.js:27-33 | both entries are removed (also frontend/src/services/auth.js:56-62, 204-207) |
| Session.IsAuthenticated | frontend/src/services/auth.js:65-87 | true iff a token is stored, it decodes, and its exp is absent, zero or not yet past. An expired token also clears both entries; in every other case storage is unchanged |
| Session.ExpiryIsStrict | frontend/src/services/auth.js:76 | a token whose exp is exactly now still counts as signed in |
| Session.Expired | frontend/src/services/auth.js:76 | a token counts as expired only when it has an `exp` before now; a missing or zero `exp`, or one not yet past, never expires, and a non-zero `exp` before now always does |
| Session.IsAuthenticatedIdempotent | frontend/src/services/auth.js:65-87 | asking twice gives the same answer and leaves the same storage |
| Session.IsAdmin | frontend/src/services/auth.js:90-93 | true iff a user is stored whose role is exactly "admin" |
| Session.SuperAdminIsNotAdmin | frontend/src/services/auth.js:92 | a stored super_admin is not an admin for this check |
| Session.Login | frontend/src/services/auth.js:96-116 | a granted login stores the returned token and user through the two setters. A refused one keeps storage and reports the server's error text, or the fixed fallback text |
| Session.LoginAuthenticates | frontend/src/services/auth.js:65-87 | after a login that returns an unexpired token, the session counts as signed in with the returned user (also frontend/src/services/auth.js:96-116) |
| Session.Logout | frontend/src/services/auth.js:119-134 | both entries go and the page moves to /login |
| Session.LogoutIgnoresRequest | frontend/src/services/auth.js:121-133 | the outcome is the same whether or not the logout request succeeded |
| Session.InitAuth | frontend/src/services/auth.js:210-233 | without both entries the reason is "no_token" and storage is kept. The reason is "expired" iff the payload decodes and is past its exp, and then both entries are cleared. Otherwise the stored user is restored with a bearer header for the stored token |
| Session.InitAgreesWithCheck | frontend/src/services/auth.js:65-87 | with a user stored and a decodable token, start-up and the check agree on being signed in and clear storage alike. An undecodable token is restored at start-up but refused by the check (also frontend/src/services/auth.js:210-233) |
| Session.NoSessionAfterLogout | frontend/src/services/auth.js:119-134 | after a logout, both start-up and the check find no session (also frontend/src/services/auth.js:210-233) |
| ApiClient.Classify | frontend/src/index.jsx:47-70 | the shared precedence of both error handlers: 401, 403, 404 and any status from 500 up each have their own class. Any other status is classed by the body's error text, or as unexplained when there is none. No response and not sent are classes of their own (also frontend/src/services/api.js:8-29) |
| ApiClient.StatusBeatsServerText | frontend/src/index.jsx:59-62 | a 500 carrying an error text still gets the fixed server message |
| ApiClient.InterceptRequest | frontend/src/index.jsx:29-40 | a stored token sets exactly the Authorization header to "Bearer <token>"; without one the headers are unchanged |
| ApiClient.InterceptResponse | frontend/src/index.jsx:43-74 | a 401 removes the token and sends the page to /login; every other failure keeps storage and the page. A 5xx shows the fixed server message, and a reported error shows its own text |
| ApiClient.UnauthorizedKeepsUser | frontend/src/index.jsx:51-54 | a 401 removes the token but keeps the stored user |
| ApiClient.HandleError | frontend/src/services/api.js:8-32 | the wrapper's handler uses the same precedence with its own wording, and falls back to the caller's message; it never touches storage |
| ApiClient.Wrapped | frontend/src/services/api.js:41-235 | a successful call shows only the wrapper's success message, if it has one. A failed call shows the interceptor's notice and then the handler's, and rethrows the original error |
| ApiClient.FailedCallNotifiesTwice | frontend/src/index.jsx:47-73 | a failed wrapped call always shows two notices, and for 401 and 403 their wording differs (also frontend/src/services/api.js:45-48) |
| ApiClient.ProtectedRoute | frontend/src/index.jsx:77-83 | redirects to /login exactly when no token is stored |
| ApiClient.AdminRoute | frontend/src/index.jsx:86-96 | guards exactly like the protected route: the role is never checked |
| ApiClient.AdminRouteIgnoresRole | frontend/src/index.jsx:86-96 | a stored user who is not an admin still reaches the admin pages when a token is stored |
| ApiClient.LoadRegionData | frontend/src/services/api.js:240-252 | the fetched data is used when it can be read, and an empty province list otherwise |
| UploadClient.EndpointFor | frontend/src/services/upload.js:42-62 | each kind of upload posts to its own path under /v1/upload/, and different kinds never share one |
| UploadClient.UploadErrorText | frontend/src/services/upload.js:28-31 | the body's error text, else its message, else the fixed failure text; never empty |
| UploadClient.UploadFile | frontend/src/services/upload.js:14-35 | a success shows one success notice and keeps storage. A failure shows the global interceptor's notice and then the upload's own text, and rethrows the error |
| UploadClient.ValidateImageFile | frontend/src/services/upload.js:70-86 | accepts iff the size is within the bound in megabytes and the type is one of the five listed exactly. The size is checked first, and each refusal shows exactly one notice |
| UploadClient.ClientCheckImpliesServerCheck | frontend/src/services/upload.js:70-86 | an image the browser accepts under the default 2 MB bound also passes the server's avatar type and size checks (also backend/utils/upload.go:16-33, 60-78) |
| UploadClient.ServerAcceptsWhatClientRefuses | frontend/src/services/upload.js:79-83 | a parameterised image type is refused by the browser but accepted by the server, which matches types by prefix (also backend/utils/upload.go:60-70) |
| UploadClient.ToUint32 | frontend/src/services/upload.js:123 | the unsigned shift takes the value modulo 2^32, and leaves values already in range unchanged |
| UploadClient.GetFileExtension | frontend/src/services/upload.js:122-124 | the extension is always a suffix of the file name |
| UploadClient.ExtensionAfterLastDot | frontend/src/services/upload.js:122-124 | no dot, or a single leading dot, gives no extension; otherwise the extension is the text after the last dot |
| UploadClient.ExtensionMatchesServer | frontend/src/services/upload.js:122-124 | for a plain name with a dot after its first character, the browser's extension is the server's extension without its dot (also backend/utils/upload.go:94) |
| UploadClient.LastDotStartsExt | backend/utils/upload.go:94 | for a name with no '/' and a dot after its first character, the server's extension is the non-empty tail starting at the last dot |
| RecommendorManagement.ListParams | frontend/src/pages/RecommendorManagement.jsx:88-104 | no undefined or empty value is sent, and every other filter is sent unless it is page or page_size |
| RecommendorManagement.PagingReachesServer | frontend/src/pages/RecommendorManagement.jsx:91-95 | unless a filter overrides them, the handler reads the page and page size the page sent (also backend/controllers/recommendor_controller.go:461-470) |
| RecommendorManagement.Submit | frontend/src/pages/RecommendorManagement.jsx:163-189 | the uploaded avatar wins over the form's, the status falls back to "active", and the dates pass through. The region keys are sent only when the region value has a code list, and are then its three codes and its names |
| RecommendorManagement.SelectedRegionSubmitted | frontend/src/pages/RecommendorManagement.jsx:184-189 | a region picked in the selector reaches the server as its three codes and the labels joined as the selector displays them (also frontend/src/components/RegionSelector.jsx:65-80) |
| RecommendorManagement.EditRegionAsWritten | frontend/src/pages/RecommendorManagement.jsx:243-247 | the edit form's region as written carries only the code list and the address, with no code keys |
| RecommendorManagement.EditFormShowsNoRegion | frontend/src/pages/RecommendorManagement.jsx:243-260 | the edit form of every stored recommendor opens with no region selected (also frontend/src/components/RegionSelector.jsx:83-95) |
| RecommendorManagement.EditRegion | frontend/src/pages/RecommendorManagement.jsx:243-247 | the corrected edit region carries the stored codes as the code keys the selector reads, along with the code list and the address |
| RecommendorManagement.EditFormShowsStoredRegion | frontend/src/pages/RecommendorManagement.jsx:163-189 | with the code keys set, the selector shows the stored region, and submitting the form unchanged sends the stored codes and address back (also frontend/src/pages/RecommendorManagement.jsx:243-260; frontend/src/components/RegionSelector.jsx:83-95) |
| DestinationManagement.ListParamsAsWritten | frontend/src/pages/DestinationManagement.jsx:79-93 | the list request as written: no undefined or empty value is sent, the page and page size go out under "page" and "pageSize" unless a filter overrides them, and no "page_size" key is ever added |
| DestinationManagement.PageSizeIgnored | frontend/src/pages/DestinationManagement.jsx:82-86 | whatever page size the page asks for, the handler falls back to its default and serves pages of 10 (also backend/controllers/destination_controller.go:110-115) |
| DestinationManagement.ListParams | frontend/src/pages/DestinationManagement.jsx:79-93 | the corrected list request: no undefined or empty value is sent, and the page and page size go out under the keys the handler reads |
| DestinationManagement.PageSizeServed | frontend/src/pages/DestinationManagement.jsx:82-86 | with the corrected keys, any page size from 1 to 100 the page asks for is the one the handler serves (also backend/controllers/destination_controller.go:110-115) |
| DestinationManagement.UnreadFiltersIgnored | frontend/src/pages/DestinationManagement.jsx:54-60 | whatever the owner, region or tag filter holds, the admin handler serves the same list as without it, both for the request as written and for the corrected one (also backend/controllers/destination_controller.go:365-379) |
| DestinationManagement.OwnerSelectReadsFirstTen | frontend/src/pages/DestinationManagement.jsx:106-113 | the owner select's request asks for 1000 under "pageSize", which the handler does not read, so it is served page 1 of 10 recommendors by ascending id (also backend/controllers/recommendor_controller.go:463-468) |
| DestinationManagement.Submit | frontend/src/pages/DestinationManagement.jsx:230-249 | a form without a region, or whose region has no code list, throws before anything is sent; otherwise the address is the region's names or "未知地区", the county code becomes regionCode, the names become regionName, missing tags become an empty list, an uploaded image replaces the form's, and the owner, name, rating and status pass through |
| DestinationManagement.SelectedRegionSubmitted | frontend/src/pages/DestinationManagement.jsx:230-244 | a region picked in the selector always submits, with the picked county code and the text the selector displays, or "未知地区" when that text is empty (also frontend/src/components/RegionSelector.jsx:60-62, 65-80) |
| DestinationManagement.EditRegion | frontend/src/pages/DestinationManagement.jsx:159-169 | a destination without a region opens the edit form with no region; one with a region opens it with the province, city and county codes in that order |
| DestinationManagement.EditFormShowsNoRegion | frontend/src/pages/DestinationManagement.jsx:159-176 | the selector shows no region when the edit form opens, whether or not the destination has one, because the code list is not a key the selector reads (also frontend/src/components/RegionSelector.jsx:83-95) |
| Dashboard.CountActive | frontend/src/pages/Dashboard.jsx:52-57 | the number of "active" entries never exceeds the number of entries |
| Dashboard.CountActiveExtremes | frontend/src/pages/Dashboard.jsx:52-57 | every entry counts exactly when all are "active", and none counts exactly when none is |
| Dashboard.CountActiveAppend | frontend/src/pages/Dashboard.jsx:52-57 | the active count of two lists put together is the sum of their counts |
| Dashboard.AverageRating | frontend/src/pages/Dashboard.jsx:58-63 | an empty list averages 0; otherwise the average times the count is the sum of the ratings |
| Dashboard.AverageWithinScale | frontend/src/pages/Dashboard.jsx:58-63 | when every rating is within 0..5, so is the average |
| Dashboard.ActivityRate | frontend/src/pages/Dashboard.jsx:293-299 | the activity rate is 0 without recommendors, and otherwise is the active share as a percentage |
| Dashboard.ActivityRateBounds | frontend/src/pages/Dashboard.jsx:293-299 | with no more active than total recommendors, the rate is within 0..100, and 100 when all are active |
| Dashboard.Recent | frontend/src/pages/Dashboard.jsx:73-85 | the recent table keeps the first five entries (fewer when the list is shorter), in order, each stamped with its own creation time or, failing that, the current time |
| Dashboard.RecentIgnoresTail | frontend/src/pages/Dashboard.jsx:73-85 | entries after the fifth never change the recent table |
| Dashboard.LoadStatistics | frontend/src/pages/Dashboard.jsx:41-91 | a failed request leaves the view unchanged. Otherwise the totals are the lengths of the two lists, a reply without data counts as an empty list, the active counts and the average come from those same lists, and both recent tables come from their heads |
| Dashboard.LoadKeepsSound | frontend/src/pages/Dashboard.jsx:41-91 | after any load, no active count exceeds its total, each recent table holds at most five entries, and the activity rate is within 0..100; when every rating fetched is within 0..5, so is the average (also frontend/src/pages/Dashboard.jsx:293-299) |
| Dashboard.AsWrittenCountsAtMostTen | frontend/src/pages/Dashboard.jsx:44-47 | as written, a page size of 1000 is over the server's limit of 100, so each list returns at most 10 rows and reports a page size of 10 (also backend/utils/pagination.go:40-51) |
| Dashboard.AsWrittenUndercounts | frontend/src/pages/Dashboard.jsx:44-47 | with 11 recommendors stored, the dashboard as written shows a total smaller than the number the server reports (also frontend/src/pages/Dashboard.jsx:65-71; backend/utils/pagination.go:40-51) |
| Dashboard.FetchPagesArePages | backend/controllers/recommendor_controller.go:461-470 | reading pages 1..k of 100 rows in turn yields exactly the first k pages of the filtered list (also backend/utils/pagination.go:156-170) |
| Dashboard.FetchPageIsPage | backend/controllers/recommendor_controller.go:461-470 | the k-th request of the fetch loop returns page k of the matching recommendors in id order |
| Dashboard.FirstPageReportsPages | backend/utils/pagination.go:91-104 | the first page reports the full count and a page count just large enough to hold it |
| Dashboard.FetchRecommendorPages | frontend/src/pages/Dashboard.jsx:44-50 | the pages read hold only live recommendors, each as stored |
| Dashboard.FetchRecommendors | frontend/src/pages/Dashboard.jsx:44-50 | the corrected fetch returns only live recommendors, each as stored |
| Dashboard.FetchRecommendorsGetsAll | frontend/src/pages/Dashboard.jsx:44-50 | the corrected fetch, which reads the page count from page 1 and then every page of 100, gets every recommendor the server lists, once each and in order (also backend/utils/pagination.go:91-104, 156-170) |
| RecommendorsPublic.Reset | frontend/src/pages/RecommendorsPublic.jsx:97-105 | whatever the filters held, a reset leaves an empty name, no region, the "active" status and no minimum rating |
| RecommendorsPublic.CodeParam | frontend/src/pages/RecommendorsPublic.jsx:59-63 | a code position past the end of the code list is sent as undefined, and any other position as that code |
| RecommendorsPublic.WithName | frontend/src/pages/RecommendorsPublic.jsx:53-56 | the name is added, trimmed, exactly when it is set and not blank; no other key changes |
| RecommendorsPublic.WithRegion | frontend/src/pages/RecommendorsPublic.jsx:58-63 | a region value with a code list adds its first three codes as province, city and county codes; without one the parameters stay as they are |
| RecommendorsPublic.WithRating | frontend/src/pages/RecommendorsPublic.jsx:65-68 | a nonzero minimum rating adds rating_gte; otherwise the parameters stay as they are |
| RecommendorsPublic.LoadParams | frontend/src/pages/RecommendorsPublic.jsx:44-68 | the request always carries the page and page size, never the status, and only the name, the three codes and rating_gte besides, each exactly under its own condition |
| RecommendorsPublic.PublicPageIsActiveOnly | frontend/src/pages/RecommendorsPublic.jsx:37-42 | because the status filter is never sent, every recommendor the public page lists is active, whatever status the filter holds (also frontend/src/pages/RecommendorsPublic.jsx:48-68; backend/controllers/recommendor_controller.go:204-223) |
| RecommendorsPublic.MinRatingIgnored | frontend/src/pages/RecommendorsPublic.jsx:65-68 | the minimum rating never changes the query the handler reads, since no handler reads rating_gte (also backend/controllers/recommendor_controller.go:156-223) |
| RecommendorsPublic.SelectedRegionFilters | frontend/src/pages/RecommendorsPublic.jsx:58-63 | a region picked in the selector reaches the handler as exactly its province, city and county codes (also frontend/src/components/RegionSelector.jsx:65-80; backend/controllers/recommendor_controller.go:178-189) |
| RecommendorsPublic.ResetSendsPagingOnly | frontend/src/pages/RecommendorsPublic.jsx:44-68 | after a reset the request carries only the page and the page size (also frontend/src/pages/RecommendorsPublic.jsx:97-105) |
| ListQueries.RecommendorQuery | backend/controllers/recommendor_controller.go:158-216 | each field of the query is the request's value under the key the handlers read, or that key's default when the key is absent (also backend/controllers/recommendor_controller.go:463-510) |
| ListQueries.RecommendorQueryReadsOnlyItsKeys | backend/controllers/recommendor_controller.go:158-216 | two requests that agree on the keys the handlers read give the same query, whatever other keys either carries (also backend/controllers/recommendor_controller.go:463-510) |
| ListQueries.DestinationQueryReadsOnlyItsKeys | backend/controllers/destination_controller.go:353-379 | two requests that agree on the keys the destination handlers read give the same query, whatever other keys either carries (also backend/controllers/destination_controller.go:110-136) |
| ListQueries.DestinationQuery | backend/controllers/destination_controller.go:110-136 | the page, page size and status of the query are the request's values under page, page_size and status, or their defaults (also backend/controllers/destination_controller.go:353-379) |
| ListQueries.ParsePageParams | backend/controllers/recommendor_controller.go:158-163 | such a request reaches either list handler as that page of ascending ids, and a page size outside 1..100 is replaced by 10 (also backend/controllers/recommendor_controller.go:463-468; backend/controllers/destination_controller.go:110-115, 353-358; backend/utils/pagination.go:40-62) |
| WxApp.FullUrl | wxapp/app.js:191-192 | a URL that already starts with "http" is used unchanged, and any other URL is appended to the base |
| WxApp.FullUrlIdempotent | wxapp/app.js:5 | with a base that starts with "http", building the URL a second time changes nothing (also wxapp/app.js:191-192) |
| WxApp.Headers | wxapp/app.js:194-203 | the headers always carry a content type, which is JSON unless the caller sets one. With a token set, Authorization is "Bearer " and the token, whatever the caller passed; without one it is present only if the caller passed it. Every other header of the caller is kept |
| WxApp.ErrorText | wxapp/app.js:222 | the toast of a failed reply is never empty: it is the reply's error, else its message, else "请求失败" |
| WxApp.Logout | wxapp/app.js:343-356 | after a logout no token or user is stored or held, and the app relaunches at the home page |
| WxApp.Settle | wxapp/app.js:211-260 | a request resolves exactly when the server answers with a 2xx status, and then leaves the session alone. Any other answer rejects with the reply and shows its error text when toasts are on; a 401 also logs out and relaunches at home. An unreachable server rejects with the network text |
| WxApp.UnauthorizedDropsToken | wxapp/app.js:194-203 | after a 401 the next request carries no Authorization header, unless its caller passes one (also wxapp/app.js:232-234, 343-350) |
| WxApp.CheckLoginStatus | wxapp/app.js:65-76 | the session is restored exactly when both a token and a user are stored, and then both are copied into the global data; otherwise nothing changes and the login flow starts |
| WxApp.LaunchAfterLogoutLogsIn | wxapp/app.js:65-76 | after a logout the next launch always asks for a login (also wxapp/app.js:343-350) |
| WxApp.RestoredSessionSendsToken | wxapp/app.js:65-71 | once a session is restored, every request carries the stored token as a bearer header (also wxapp/app.js:200-203) |
| WxApp.RecommendorListParams | wxapp/app.js:359-370 | every parameter the caller passes is sent unchanged, and only page, page_size, sort_by and sort_order may be added |
| WxApp.DestinationListParams | wxapp/app.js:380-389 | every parameter the caller passes is sent unchanged; page 1 and a page size of 10 are added only when the caller omits them, and nothing else is added |
| WxApp.RecommendorDefaults | wxapp/app.js:359-370 | with no caller parameters, the recommendor list asks for page 1 of 10, by rating, descending |
| Stars.StarStatus | wxapp/pages/recommendor/list.js:331-343 | a star is never both filled and half. With a nonzero rating, star n is filled exactly when the rating reaches n and half exactly when the rating is within half a point below n; a zero rating shows no star |
| Stars.StarsArray | wxapp/pages/recommendor/detail.js:228-240 | the array holds five stars; star i is filled exactly when the rating reaches i and half exactly when the rating is within half a point below i |
| Stars.PagesAgree | wxapp/pages/recommendor/list.js:103-112 | the list page and the detail page show the same five stars for every rating, zero and negative ones included (also wxapp/pages/recommendor/list.js:331-343; wxapp/pages/recommendor/detail.js:228-240) |
| Stars.StarsInOrder | wxapp/pages/recommendor/detail.js:228-240 | the filled stars come first and then at most one half star; every star after a half one is empty |
| Pager.Load | wxapp/pages/recommendor/list.js:87-133 | while a request is running nothing is asked and nothing changes. Otherwise the requested page is asked for, and a failed request changes nothing. A page that arrives replaces the list, and more is expected exactly when the page was full (also wxapp/pages/recommendor/detail.js:135-175) |
| Pager.LoadMore | wxapp/pages/recommendor/list.js:138-178 | while a request is running, or when no more is expected, nothing is asked and nothing changes. Otherwise the next page is asked for. When it arrives it is appended and the page counter moves to it; more is expected exactly when the page was full. A failed request changes nothing (also wxapp/pages/recommendor/list.js:78-82; wxapp/pages/recommendor/detail.js:180-221) |
| Pager.FirstLoadReadsFirstPage | wxapp/pages/recommendor/detail.js:135-175 | a first load of page 1, served by the backend, leaves the list holding exactly the first page (also backend/utils/pagination.go:67-81) |
| Pager.LoadMoreReadsNextPage | wxapp/pages/recommendor/detail.js:180-221 | when each page arrives as the backend serves it, the list stays equal to the pages read so far, in order; once no more is expected, the list holds every row exactly once (also backend/utils/pagination.go:67-81) |
| Pager.MapReply | wxapp/pages/recommendor/list.js:98-112 | decorating a reply row by row keeps a failed request failed, and decorates each row of a reply on its own (also wxapp/pages/recommendor/list.js:151-164) |
| Pager.MapPage | wxapp/pages/recommendor/list.js:103-112 | decorating the rows of a served page gives the same page as serving the decorated rows (also wxapp/pages/recommendor/list.js:155-164; backend/utils/pagination.go:67-81) |
| Pager.LoadAsWritten | wxapp/pages/recommendor/list.js:88-96 | a load through the undefined request method leaves the spinner on and the list, its page and its "more" flag as they were (also wxapp/pages/recommendor/detail.js:146-152) |
| Pager.LoadMoreAsWritten | wxapp/pages/recommendor/list.js:139-152 | "load more" through the undefined method changes nothing while a request runs or no more is expected; otherwise it leaves the spinner on and the list, its page and its "more" flag as they were (also wxapp/pages/recommendor/detail.js:180-196) |
| Pager.RunAsWrittenShowsNothing | wxapp/pages/recommendor/list.js:87-178 | through the undefined method no sequence of loads changes the list, its page or its "more" flag; once the spinner is on nothing changes at all, and a run starting with a first load ends with the spinner on |
| WxRecommendorList.Decorate | wxapp/pages/recommendor/list.js:103-112 | each listed recommendor keeps its row and gets five stars, star i showing the list page's status of star i for its rating |
| WxRecommendorList.Picked | wxapp/pages/recommendor/list.js:239-242 | a level of the picker that holds a real choice contributes its name to the filters, and any other level contributes "" |
| WxRecommendorList.RegionText | wxapp/pages/recommendor/list.js:226-235 | without a real province the picker shows the prompt "选择地区" |
| WxRecommendorList.RealProvince | wxapp/pages/recommendor/list.js:239 | a province counts as chosen iff it is set, non-empty and not the placeholder "省" |
| WxRecommendorList.RealCity | wxapp/pages/recommendor/list.js:240 | a city counts as chosen iff it is set, non-empty and not the placeholder "市" |
| WxRecommendorList.RealDistrict | wxapp/pages/recommendor/list.js:241-242 | a district counts as chosen iff it is set, non-empty and neither placeholder "区" nor "县" |
| WxRecommendorList.OnRegionChange | wxapp/pages/recommendor/list.js:221-250 | picking a region stores the pick and its text, sets each region filter to the picked name or "" for a placeholder, keeps the name and status filters, and restarts the list at page 1 with more expected |
| WxRecommendorList.RegionTextNamesFilters | wxapp/pages/recommendor/list.js:226-244 | the picker text agrees with the filters: the prompt when no province is set, text starting with the province when one is, and all three names when all three are set |
| WxRecommendorList.WithNameFilter | wxapp/pages/recommendor/list.js:190-193 | the name is added, trimmed, exactly when it is not blank; no other key changes |
| WxRecommendorList.WithPlace | wxapp/pages/recommendor/list.js:195-204 | a region name is added under its key exactly when it is set; no other key changes |
| WxRecommendorList.FilterParams | wxapp/pages/recommendor/list.js:190-204 | the optional keys are only name, province, city and district; each is present exactly when its filter is set, and then holds that filter (the name trimmed) |
| WxRecommendorList.BuildRequestParams | wxapp/pages/recommendor/list.js:183-207 | the request always carries the page, a page size of 12 and the status (even an empty one), plus exactly the optional filters that are set, and no other key |
| WxRecommendorList.NextPageParams | wxapp/pages/recommendor/list.js:141-146 | the "load more" request equals the ordinary request built for the next page (also wxapp/pages/recommendor/list.js:183-207) |
| WxRecommendorList.RequestQuery | wxapp/pages/recommendor/list.js:183-207 | the handler reads the page, 12 per page, the status, the trimmed name and the three region names, no region codes, and ascending ids (also backend/controllers/recommendor_controller.go:158-216) |
| WxRecommendorList.ListMatchesFilters | wxapp/pages/recommendor/list.js:183-207 | every recommendor listed has the requested status ("active" when it is empty), and an address containing each region name chosen (also backend/controllers/recommendor_controller.go:190-223) |
| WxRecommendorList.Reload | wxapp/pages/recommendor/list.js:87-133 | a load keeps the filters and the picker, asks for the current page with the current filters unless a request is running, clears the spinner, and replaces the list with the decorated reply without moving the page; a failed request changes nothing |
| WxRecommendorList.ReloadAsWritten | wxapp/pages/recommendor/list.js:87-96 | as written the load keeps the filters and the picker, leaves the list as it was, and sets the spinner for good; while a request runs it changes nothing |
| WxRecommendorList.ListStaysEmptyAsWritten | wxapp/pages/recommendor/list.js:40-43 | after `onLoad` as written, any later loads leave the list empty with the spinner on, and even the intended load and "load more" would ask for nothing and change nothing (also wxapp/pages/recommendor/list.js:88, 139) |
| WxRecommendorList.LoadMoreRecommendors | wxapp/pages/recommendor/list.js:138-178 | unless a request is running or no more is expected, the next page is asked for with the current filters; it is appended decorated and the page moves to it; a failed request changes nothing |
| WxRecommendorList.OnReachBottom | wxapp/pages/recommendor/list.js:78-82 | reaching the bottom loads more exactly when no request is running and more is expected |
| WxRecommendorList.OnReset | wxapp/pages/recommendor/list.js:279-298 | a reset restores the default filters, clears the pick, shows the prompt, and restarts at page 1 with more expected |
| WxRecommendorList.ResetRequest | wxapp/pages/recommendor/list.js:183-207 | after a reset the request is page 1 of 12 active recommendors and carries nothing else (also wxapp/pages/recommendor/list.js:279-298) |
| WxRecommendorList.UnsetRequest | wxapp/pages/recommendor/list.js:183-207 | with no name and no region set, the request carries only the page, the page size and the status |
| WxRecommendorList.OnSearch | wxapp/pages/recommendor/list.js:270-274 | a search keeps the filters and the pick and restarts at page 1 with more expected |
| WxRecommendorList.ClearRegionAsWritten | wxapp/pages/recommendor/list.js:255-265 | as written, clearing the region empties the region filters and the pick and shows the prompt, but leaves the page number where it was |
| WxRecommendorList.ClearRegionSkipsFirstPage | wxapp/pages/recommendor/list.js:255-265 | cleared on page 2 with more than one page of matches, the reload asks for page 2, and the list no longer holds the pages read from the start (also wxapp/pages/recommendor/list.js:87-133) |
| WxRecommendorList.ClearRegion | wxapp/pages/recommendor/list.js:255-265 | corrected: clearing the region also restarts at page 1 with more expected, like the other filter handlers |
| WxRecommendorList.ClearRegionReadsFirstPage | wxapp/pages/recommendor/list.js:255-265 | after the corrected clear, the reload asks for page 1 and the list holds exactly the first page of the wider result (also wxapp/pages/recommendor/list.js:87-133) |
| WxRecommendorList.LoadMoreKeepsPagesInOrder | wxapp/pages/recommendor/list.js:138-178 | when each page arrives as served, "load more" keeps the list equal to the decorated pages read so far; once no more is expected it holds every match exactly once, in order |
| WxRecommendorDetail.DateText | wxapp/pages/recommendor/detail.js:104-106 | a date shown is never empty and never contains "T": it is either "-" or a prefix of the timestamp |
| WxRecommendorDetail.DateTextOfTimestamp | wxapp/pages/recommendor/detail.js:104-106 | a timestamp of the form day, "T", time shows as exactly its day |
| WxRecommendorDetail.DateTextIdempotent | wxapp/pages/recommendor/detail.js:104-106 | cutting a shown date a second time changes nothing |
| WxRecommendorDetail.ShowDetail | wxapp/pages/recommendor/detail.js:98-109 | the record is shown as loaded, with the detail page's five stars for its rating and its three dates cut to the day |
| WxRecommendorDetail.LoadRecommendorDetail | wxapp/pages/recommendor/detail.js:93-130 | the page goes back exactly when the request fails, and then keeps what it showed; otherwise it shows the loaded record |
| WxRecommendorDetail.DetailMatchesList | wxapp/pages/recommendor/detail.js:98-103 | a loaded record's stars agree star by star with those the list page shows for the same rating (also wxapp/pages/recommendor/list.js:331-343) |
| WxRecommendorDetail.Decorate | wxapp/pages/recommendor/detail.js:155-160 | each destination keeps its row and gets the detail page's five stars for its rating (also wxapp/pages/recommendor/detail.js:202-207) |
| WxRecommendorDetail.LoadDestinations | wxapp/pages/recommendor/detail.js:135-175 | unless a request is running, page 1 of ten is asked for; a reply replaces the list with its decorated rows, with more expected exactly after a full page; a failure changes nothing |
| WxRecommendorDetail.LoadMoreDestinations | wxapp/pages/recommendor/detail.js:180-221 | unless a request is running or no more is expected, the next page of ten is asked for, and when it arrives it is appended decorated and the page moves to it; a failure changes nothing |
| WxRecommendorDetail.ServedIsPage | backend/controllers/destination_controller.go:295-332 | for a live owner, the handler serves page k as the k-th page of ten of the owner's active destinations in id order |
| WxRecommendorDetail.UnknownOwnerChangesNothing | backend/controllers/destination_controller.go:295-308 | a malformed id, or the id of no live recommendor, is served nothing, so neither load changes the list (also wxapp/pages/recommendor/detail.js:169-171, 215-217) |
| WxRecommendorDetail.FirstLoadReadsFirstDestinations | wxapp/pages/recommendor/detail.js:135-175 | the first load, served by the handler, leaves the list holding the owner's first page of destinations (also backend/controllers/destination_controller.go:295-332) |
| WxRecommendorDetail.LoadMoreReadsNextDestinations | wxapp/pages/recommendor/detail.js:180-221 | each "load more" served by the handler keeps the list equal to the pages read so far; once no more is expected it holds every active destination of the owner, in id order, each once (also backend/controllers/destination_controller.go:295-332) |
| WxRecommendorDetail.OnLoad | wxapp/pages/recommendor/detail.js:36-39 | `onLoad` as intended clears the spinner, sends the user back exactly when the record fails to load, shows the loaded record otherwise, and asks for and reads page 1 of ten destinations unless a destination request runs |
| WxRecommendorDetail.LoadRecommendorDetailAsWritten | wxapp/pages/recommendor/detail.js:93-97 | as written the load keeps the record shown and the destination list, and leaves the spinner on |
| WxRecommendorDetail.DetailStaysEmptyAsWritten | wxapp/pages/recommendor/detail.js:32-49 | after `onLoad` as written, no sequence of pull-down refreshes and reaching the bottom ever shows a record or a destination, and the spinner stays on (also wxapp/pages/recommendor/detail.js:73-87) |
| WxRecommendorDetail.EventsShowNothing | wxapp/pages/recommendor/detail.js:73-87 | with the spinner on, later refreshes and reaching the bottom, as written, keep the record shown, the spinner and the destinations as they were |
| WxRecommendorDetail.DestinationsStayEmptyAsWritten | wxapp/pages/recommendor/detail.js:136-152 | `loadDestinations` as written would leave the list's spinner on and its rows unchanged through any later loads |
| WxIndex.OnLoad | wxapp/pages/index/index.js:55-82 | the home page starts on page 1 with an empty list, more expected and no request running, filtered by the category option exactly when that option is set |
| WxIndex.FilterParams | wxapp/pages/index/index.js:65-78 | the filter is the category alone when one is set, and empty otherwise |
| WxIndex.LoadData | wxapp/pages/index/index.js:122-150 | a load never moves the page or the category and always ends with no request running. When both lists arrive they replace the shown lists, the total is the destination count, and more is expected exactly when that count exceeds one page of ten. When either request fails nothing else changes |
| WxIndex.RefreshData | wxapp/pages/index/index.js:175-181 | a refresh is a load of page 1 with more expected |
| WxIndex.LoadMoreAsWritten | wxapp/pages/index/index.js:184-215 | as written, the page moves on before the request, and the request has no sort. A reply is appended, with more expected while the total exceeds the list; a failure leaves the page moved on |
| WxIndex.MoreParamsDropSort | wxapp/pages/index/index.js:190-194 | as written, "load more" asks for what a first load of the next page asks for, minus `sort_by` and `sort_order` |
| WxIndex.OnReachBottomAsWritten | wxapp/pages/index/index.js:106-110 | as written, reaching the bottom loads more exactly when more is expected and no request is running (also wxapp/pages/index/index.js:184-215) |
| WxIndex.LoadMore | wxapp/pages/index/index.js:184-215 | corrected: the next page is asked for with the same sort as the first load; a reply is appended and only then does the page move, with more expected while the total exceeds the list; a failure changes nothing (also wxapp/pages/index/index.js:164-172) |
| WxIndex.OnReachBottom | wxapp/pages/index/index.js:106-110 | reaching the bottom runs the corrected load exactly when more is expected and no request is running |
| WxIndex.FirstQuery | wxapp/pages/index/index.js:164-172 | the first-load request reaches the handler as the current page of ten, sorted descending, filtered by the category alone (also wxapp/app.js:380-389; backend/controllers/destination_controller.go:110-143) |
| WxIndex.MoreQueryAsWritten | wxapp/pages/index/index.js:190-194 | the "load more" request as written reaches the handler as the next page of ten in ascending order (also wxapp/app.js:380-389; backend/controllers/destination_controller.go:110-143) |
| WxIndex.RecommendorParams | wxapp/pages/index/index.js:153-161 | the top-recommendor request asks for page 1 of five, best rated first, with the chosen category |
| WxIndex.DestinationParams | wxapp/pages/index/index.js:164-172 | the destination request asks for the current page of ten, best rated first, with the chosen category |
| WxIndex.Serve | wxapp/pages/index/index.js:164-172 | the public handler serves the parameters sent as the requested page of the matching destinations, with their full count as the total (also backend/controllers/destination_controller.go:108-155) |
| WxIndex.ServedFirst | wxapp/pages/index/index.js:164-172 | the first load is served from the matching destinations in descending order, with their full count as the total (also backend/controllers/destination_controller.go:108-155) |
| WxIndex.ServedMoreAsWritten | wxapp/pages/index/index.js:190-194 | "load more" as written is served from the matching destinations in ascending order (also backend/controllers/destination_controller.go:108-155) |
| WxIndex.AsWrittenRepeatsARow | wxapp/pages/index/index.js:122-150 | with eleven matching destinations, the first load followed by "load more" as written shows one destination twice, never shows the first one in id order, and expects no more (also wxapp/pages/index/index.js:184-215; backend/controllers/destination_controller.go:108-155) |
| WxIndex.LoadDataReadsFirstPage | wxapp/pages/index/index.js:122-150 | a first load served by the handler leaves the page holding exactly the first page of the matches in descending order |
| WxIndex.LoadMoreReadsNextPage | wxapp/pages/index/index.js:184-215 | with the corrected "load more", each page served keeps the list equal to the pages read so far; once no more is expected it holds every match exactly once, best first |
| WxIndex.FailedLoadMoreRetriesPage | wxapp/pages/index/index.js:184-188 | after a failed "load more" the corrected page stays where it was, so the same page is asked for again, while the page as written has already moved on (also wxapp/pages/index/index.js:206-214) |
| WxIndex.FirstImage | wxapp/pages/index/index.js:273-283 | a missing, empty or "[]" value shows the default image, as does text that does not parse as a non-empty array; otherwise the array's first entry is shown |
| WxIndex.FirstImageOfStored | wxapp/pages/index/index.js:273-283 | for an image list stored through an encoding that parsing inverts, the page shows the list's first image, or the default for an empty list |
| WxIndex.CategoryName | wxapp/pages/index/index.js:286-294 | the four known categories show their Chinese names, and any other category shows as it is |
| WxIndex.CategoryNamesDistinct | wxapp/pages/index/index.js:286-294 | two known categories with the same shown name are the same category |

## Left out

- Database errors: every GORM call is modelled as succeeding, except for the unique-index conflicts the handlers report. The 500 replies for other failures are not modelled.
- `Preload("Recommendor")` on destination lists is not modelled: a listed destination carries its owner's id, not the owner record. The recommendor detail's `Preload("Destinations")` is modelled as a selection from the destination table (`Store.Select`).
- Sorting by a column other than the id: `ApplyPagination` orders by id, ascending or reversed. `sort_by` is read and carried, but a request sorted by rating is served in id order. The home-page lemmas are therefore about id order.
- SQL `LIKE` is modelled as a case-sensitive substring test. Case-insensitive collations, and `%` or `_` inside a filter value, are not modelled.
- Pagination.ApplyFilterSelects: PostgreSQL's `ILIKE` folds case by the database's locale, which covers letters outside ASCII. The model folds only A–Z, so it promises nothing about how non-ASCII letters such as "É" match.
- Pagination.HoldsTextConditions: the `ILIKE` half states the same ASCII-only folding.
- Regions.GetRegions: the name search ignores ASCII case only, for the same reason.
- AuthHandlers.RefreshTokenAsWritten: a token cut inside a UTF-8 character is modelled as refused by the JWT parser with 401. Go would pass the broken text on; a compact JWS is ASCII by section 7.1 of RFC 7515, so parsing it fails.
- `ApplyDateRangeFilter` and `ApplyInFilter` are not modelled: no handler calls them.
- The `rating_gte` parameter is sent by the public admin page but read by no handler. The model shows that it is ignored rather than modelling a filter.
- Region deletion counts recommendors by a `region_id` column that the recommendor model no longer has. That usage count is a parameter of `Regions.Delete`.
- Floating point is modelled as exact reals: `toFixed(1)`, the file-size texts and `calculateDistance`. The JSON rating is a real; the byte sizes are integers.
- Time: the clock is a parameter, and RFC 3339 text is not parsed or printed. The detail page's date cut works on the timestamp text as given.
- `JSON.parse` is a parameter, and only arrays of strings are considered. A non-array value such as a number or an object is not modelled.
- bcrypt, JWT signing and parsing, base64 decoding, QR encoding and the WeChat HTTP API are parameters. Their internal formats are not modelled.
- Models.SoundHasher: bcrypt itself is a parameter. What the model assumes of it is the 72-byte limit and the key it derives (`Models.BcryptKey`). A stored hash is taken to accept a candidate exactly when the keys agree, and a hash's own key is taken to differ from its password's. Hash collisions are not modelled.
- Models.SetThenCheck no longer promises that every candidate other than `p` is rejected. bcrypt accepts any candidate with the same key: one that agrees with `p` in its first 72 bytes, or one that differs only in a NUL-and-repeat pattern. `Models.SetThenCheckShort` states when the promise holds.
- AuthHandlers.ChangeThenLogin no longer promises that the old password always stops working. It stops working unless both passwords have the same bcrypt key.
- QRCode.GenerateWxappCodeFromAPI: the "failed to read response body: " error is not modelled, because reading the body is part of the API parameter. "failed to marshal request body: " cannot occur: the request body is a fixed map of strings, numbers and booleans.
- The WeChat access-token cache is not modelled: its mutex and expiry are concurrency and clock state. As written, `getAccessToken` (`backend/utils/qrcode.go:187`) is declared to return `(string, error)`, but its double-checked branch at `backend/utils/qrcode.go:208` returns only `tokenCache.token`, so the `utils` package does not compile as written. The model's `token` parameter of the WeChat API stands for the evidently intended `return tokenCache.token, nil`.
- File system I/O is not modelled: creating directories, writing and deleting uploaded files, and serving them. The upload handlers' file names and paths are modelled; the bytes written are not.
- The mini-program's `uploadFile`, toasts, spinners and navigation are outcomes recorded in the returned state, or not at all. `wx.stopPullDownRefresh` is not modelled.
- `onPullDownRefresh` on the recommendor list page calls `.then` on the value of `loadRecommendors`. That value is `undefined` while a load is running, which throws. This path is not modelled.
- `getCategoryName` looks up a plain object. An inherited key such as "constructor" would return a function. Only string keys outside the prototype are modelled.
- `fileToBase64` in `frontend/src/services/upload.js` is not modelled: it wraps the browser's `FileReader`.
- The admin pages' table rendering, modals and drawers are not modelled. Nor are the remaining UI-only pages: the login form, layout, the detail pages and the webpack configuration.
- Start-up and configuration are not modelled: `main.go`, the database connection, environment variables, and the `cmd/seed` and `cmd/reset-admin` tools. `AutoMigrate` is modelled as empty tables.
- Three request wrappers in `frontend/src/services/auth.js` are not modelled: `verifyToken`, `refreshToken` and `getCurrentUser`. They only call the API; the token and user storage around them is modelled.
- The login handler ignores the error of its `Save`. The last-login time it stores is modelled; a failing save is not.
- `getPublicRecommendors`, `getPublicRecommendorDetail` and `getDestinationsByRecommendor` are called by the mini-program's list and detail pages, but `wxapp/app.js` does not define them. As written, each call throws (see "## Findings"). The intended members connect those pages directly to the backend handlers they evidently mean: `GET /api/recommendors`, `GET /api/recommendors/:id` and `GET /api/recommendors/:id/destinations`.
- Dashboard.CountActive: its own contract is only the bound; the exact meaning is stated by `Dashboard.CountActiveExtremes` and `Dashboard.CountActiveAppend`.
- WxRecommendorList.RegionText: its own contract covers only the prompt; how the text follows the filters is stated by `WxRecommendorList.RegionTextNamesFilters`.

## Code and documentation

Where the project's documentation and the code disagree, the model follows the code:

- A 401 reply makes the admin console remove only the stored token, not the stored user (`frontend/src/index.jsx`). `ApiClient.UnauthorizedKeepsUser` states this.
- A failed wrapped API call shows two notices, not one: one from the response interceptor and one from `handleError`. `ApiClient.FailedCallNotifiesTwice` states this.
- The destination edit form in `DestinationManagement.jsx` reads `detail.region`, but the destination record carries no such key. The form always opens with no region, and its required-field rule then asks for a new pick. `DestinationManagement.EditFormShowsNoRegion` states this.
- The admin recommendor page keeps `minAge`, `maxAge` and `regionCode` filters. The handler reads `min_age` and `max_age` and no `regionCode`, so those filters have no effect. `ListQueries.RecommendorQueryReadsOnlyItsKeys` states that unread keys change nothing.
- The admin destination page keeps `recommendorId`, `regionCode` and `tags` filters. The handler reads `recommendor_id` and none of the others, so the owner, region and tag filters have no effect. `DestinationManagement.UnreadFiltersIgnored` states this. The page also fills its owner select with `getAdminRecommendors({ pageSize: 1000 })`. The handler reads no `pageSize`, so the select offers only the first ten recommendors. `DestinationManagement.OwnerSelectReadsFirstTen` states this.

## Findings

| source | as written | input that shows it | evidently intended | confidence | as-written member | corrected member |
|---|---|---|---|---|---|---|
| backend/routes/routes.go:291-296 | the seed hashes the default password with `SetPassword`, and the `BeforeCreate` hook then hashes the hash again (also backend/models/admin.go:76-82) | an empty admin table, seeded, then a login as the default administrator with the default password | the stored hash is the password's own hash, so the default administrator can log in | not executed | Routes.SeedAsWritten, Routes.SeedAsWrittenLocksOut | Routes.Seed, Routes.SeedLetsAdminLogIn |
| backend/utils/pagination.go:44-68 | the offset `(page-1)*pageSize` is computed in 64-bit arithmetic on a page number bounded only by the parser | page 2^62+1 with page size 4 (offset wraps to 0, page 1 is served again); page 2^62+1 with size 2 (negative offset) | the offset is the exact product, or the page is refused, so page k+1 always starts where page k ends | not executed | Pagination.ApplyPaginationAsWritten, Pagination.AsWrittenOffsetWraps, Pagination.AsWrittenOffsetRepeatsFirstPage | Pagination.ApplyPagination, Pagination.NextPageAdjacent |
| backend/controllers/auth_controller.go:289 | `RefreshToken` slices `authHeader[7:]` after testing only that the header is not empty | the header "Bearer" (six bytes) | a header without the "Bearer " prefix is refused with 401, as the auth middleware does | not executed | AuthHandlers.RefreshTokenAsWritten, AuthHandlers.RefreshAsWrittenPanics | AuthHandlers.RefreshToken, AuthHandlers.RefreshAgreesOnBearerHeaders |
| frontend/src/pages/RecommendorManagement.jsx:243-247 | the edit form's region value has only `codes` and `names`, but the selector reads `provinceCode`, `cityCode` and `districtCode` | any stored recommendor opened for editing | the selector shows the stored region, and an unchanged form sends the stored codes back | not executed | RecommendorManagement.EditRegionAsWritten, RecommendorManagement.EditFormShowsNoRegion | RecommendorManagement.EditRegion, RecommendorManagement.EditFormShowsStoredRegion |
| frontend/src/pages/Dashboard.jsx:44-47 | the statistics ask for `page_size` 1000, over the server's limit of 100, so the server falls back to 10 | eleven recommendors stored: the dashboard counts 10 | the statistics count every row, by reading every page of at most 100 | not executed | Dashboard.AsWrittenCountsAtMostTen, Dashboard.AsWrittenUndercounts | Dashboard.FetchRecommendors, Dashboard.FetchRecommendorsGetsAll |
| frontend/src/pages/DestinationManagement.jsx:82-86 | the list request sends its page size as `pageSize`, a key the handler does not read | any page size other than 10 chosen in the table | the handler serves the page size the table shows | not executed | DestinationManagement.ListParamsAsWritten, DestinationManagement.PageSizeIgnored | DestinationManagement.ListParams, DestinationManagement.PageSizeServed |
| wxapp/pages/index/index.js:184-194 | `loadMore` drops the `sort_by` and `sort_order` of the first load, and moves the page before the request | eleven matching destinations whose ratings rise with their ids: page 1 comes best first, page 2 in ascending order | every page is read in the first load's order, so each destination is shown once | not executed | WxIndex.LoadMoreAsWritten, WxIndex.AsWrittenRepeatsARow | WxIndex.LoadMore, WxIndex.LoadMoreReadsNextPage |
| wxapp/pages/recommendor/list.js:255-265 | `clearRegion` reloads without resetting the page to 1, unlike every other filter handler | the region cleared while page 2 is shown, with more than twelve matches | the list restarts at page 1 of the wider result | not executed | WxRecommendorList.ClearRegionAsWritten, WxRecommendorList.ClearRegionSkipsFirstPage | WxRecommendorList.ClearRegion, WxRecommendorList.ClearRegionReadsFirstPage |
| wxapp/pages/recommendor/list.js:92-96 | `loadRecommendors` sets `loading` and then calls `app.getPublicRecommendors`, which `wxapp/app.js` does not define; the throw rejects the promise before `.finally` is attached, and `loadMoreRecommendors` throws the same way (also wxapp/pages/recommendor/list.js:88, 139-152) | opening the list page | the list is read from `GET /api/recommendors` and the spinner clears, so later loads and "load more" go through | not executed | Pager.LoadAsWritten, Pager.RunAsWrittenShowsNothing, WxRecommendorList.ReloadAsWritten, WxRecommendorList.ListStaysEmptyAsWritten | WxRecommendorList.Reload, WxRecommendorList.LoadMoreKeepsPagesInOrder |
| wxapp/pages/recommendor/detail.js:94-97 | `loadRecommendorDetail` sets `loading` and then calls `app.getPublicRecommendorDetail`, which `wxapp/app.js` does not define; the throw ends `onLoad` before `loadDestinations`, shows nothing and never sends the user back; `loadDestinations` and `loadMoreDestinations` call the undefined `app.getDestinationsByRecommendor` past their guards (also wxapp/pages/recommendor/detail.js:38-39, 146-152, 186-196) | opening the detail page of any recommendor | the record is read from `GET /api/recommendors/:id`, or the user is sent back, the spinner clears, and the first page of destinations is read | not executed | WxRecommendorDetail.LoadRecommendorDetailAsWritten, WxRecommendorDetail.DetailStaysEmptyAsWritten, WxRecommendorDetail.DestinationsStayEmptyAsWritten | WxRecommendorDetail.OnLoad, WxRecommendorDetail.FirstLoadReadsFirstDestinations |
