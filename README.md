# Blog backend: session gate and blog store

This project models the core of an Express/Mongoose blog backend in Dafny and proves
properties of the model. The core has three parts:

- **The session gate `verifyJWT`** (`AuthMiddleware`, `AuthProperties`). It takes the access
  token from the `accessToken` cookie, or else from the `Authorization` header with the
  first "Bearer " removed. A valid token attaches the user to the request, with password,
  refresh token and PIN withheld. An expired token falls back to the `refreshToken`
  cookie. That cookie must verify and must equal the token stored on the user. Then a new
  pair is signed, the stored refresh token is overwritten, both cookies are set and the
  `tokenRefreshed` flag is raised. `addTokenRefreshHeaders` is meant to turn that flag into the
  `X-Token-Refreshed: true` response header. Every failure is a 401.
- **The blog handlers** (`BlogController`) over an in-memory table of blogs keyed by id:
  - create, with the 400 check and its defaults;
  - lookup, with 404;
  - update and delete, with 404 and 403 ownership checks;
  - the two paginated listings, with skip/limit, a sort and the ceiling page count.
- **The blog schema** (`BlogModel`). It has the `trim` setters, the `status` default and the
  validators: title required with at most 200 characters; content and author required;
  status in {draft, published}.

Modules:

- `Base` holds `Option` and `Result`.
- `JsString` models the ECMAScript string operations the code relies on: `trim`, `replace`
  with a string pattern, and UTF-16 `length`.
- `Jwt` models the JSON Web Token library (RFC 7519) in the ideal-signature style. A
  registry of the tokens the server has signed, each with its claims, replaces the
  cryptography. Every signed token carries a fresh generation number, so a new token
  never equals an earlier one.

Stateful code is modelled as classes:

- `AuthMiddleware.Gate` holds the user map, the signer and the request/response record.
- `BlogController.BlogStore` holds the blog table.

`Gate.VerifyJwt` and `Gate.RefreshAccessToken` are proved equal to the pure functions
`VerifyJwtSpec` and `RefreshSpec`, `Gate.GenerateAccessAndRefreshTokens` to `GenerateTokens`,
`UpdateBlog` to `ValidatedUpdate` and `CreateBlog` to `NewBlog`. The properties of the source
are then proved as lemmas about those functions. `GetBlog` and `DeleteBlog` state their
results and the new table directly in their contracts.

The security invariant of the rotation is proved in `AuthProperties`:

- Only the refresh token currently stored for its subject can mint new credentials
  (`OnlyStoredTokenMints`).
- A superseded token is rejected at once (`SupersededTokenRejected`).
- A superseded token stays rejected after any sequence of later calls of the gate
  (`RetiredForever`).

Three behaviours of the code are easy to misread, and the model follows the code:

- The header is used whenever the `accessToken` cookie is missing *or empty*, not only
  when it is missing.
- "Bearer " is removed at its first occurrence, wherever it stands.
- A failure inside token generation, which the code first raises as a 500, is caught by
  the refresh branch and ends as 401 "Invalid refresh token".

## Model

| member | source | states |
|---|---|---|
| JsString.Trim | src/models/blog.model.js:8 | `trim` yields a string with no ECMAScript whitespace at either end, and that string is an infix of its input starting after the leading whitespace |
| JsString.TrimStartDropsWhitespace | src/models/blog.model.js:8 | everything `trimStart` drops is whitespace |
| JsString.TrimEndDropsWhitespace | src/models/blog.model.js:8 | everything `trimEnd` drops is whitespace |
| JsString.TrimFixesTrimmed | src/models/blog.model.js:8 | trimming an already trimmed string changes nothing, so the setter is idempotent |
| JsString.TrimEmptyIff | src/models/blog.model.js:7-8 | a string trims to the empty string exactly when it is all whitespace |
| JsString.Utf16Length | src/models/blog.model.js:9 | the length counted for `maxLength` is UTF-16 units: between the number of code points and twice that |
| JsString.IndexOfFrom | src/middlewares/auth.middleware.js:25 | the position found is an occurrence of the pattern and no earlier position is; None means there is no occurrence |
| JsString.ReplaceFirst | src/middlewares/auth.middleware.js:25 | without an occurrence of the pattern the string is unchanged; when the least position holding an occurrence is `i`, the result is the text before `i`, the replacement, then the text after that occurrence |
| JsString.ReplacePrefix | src/middlewares/auth.middleware.js:25 | for a header that starts with the prefix, removing the prefix leaves exactly the rest of the header |
| Jwt.MintInjective | src/middlewares/auth.middleware.js:9-10 | distinct kind, subject or generation give distinct token texts |
| Jwt.Signer.Decode | src/middlewares/auth.middleware.js:33 | verification succeeds exactly for a token signed for this kind before its expiry, yielding its subject; it reports expiry exactly for such a token at or after `exp`; anything else, including a token signed with the other secret, is "invalid signature" |
| Jwt.Signer.Issue | src/middlewares/auth.middleware.js:9-10 | signing gives a token never signed before that verifies for its subject (or is already expired for a zero lifetime), keeps the registry well-formed and changes the verdict on no earlier token |
| Jwt.SecretsNotMixed | src/middlewares/auth.middleware.js:55 | no token verifies under both the access and the refresh secret |
| Jwt.ExpiryIsFinal | src/middlewares/auth.middleware.js:47 | an expired token stays expired later, and a token valid later was valid earlier for the same subject |
| Jwt.ForgedTokenMalformed | src/middlewares/auth.middleware.js:33 | a string the server never signed is a bad signature, never "expired" |
| AuthMiddleware.Cookie | src/middlewares/auth.middleware.js:24 | a cookie is read as present exactly when it is set and non-empty; a present cookie has the request's value, which is never empty |
| AuthMiddleware.WithoutSecrets | src/middlewares/auth.middleware.js:35-37 | the attached user has no password, refresh token or PIN, and keeps its id and profile |
| AuthMiddleware.PresentedAccessToken | src/middlewares/auth.middleware.js:23-25 | a non-empty access cookie is the token presented; with no such cookie the token is the `Authorization` header with its first "Bearer " removed, and there is none when that is empty or the header is absent; a presented token is never empty |
| AuthMiddleware.Unauthorized | src/middlewares/auth.middleware.js:92-93 | the outer `catch` rethrows every failure as a 401 with a non-empty message, the error's own when it has one |
| AuthMiddleware.AccessCookieOptions | src/middlewares/auth.middleware.js:66-71 | the access cookie is http-only, same-site strict, secure exactly in production, and kept 86,400,000 ms |
| AuthMiddleware.RefreshCookieOptions | src/middlewares/auth.middleware.js:75-78 | the refresh cookie has the access cookie's options except a lifetime ten times as long, 864,000,000 ms |
| AuthMiddleware.MessageOrFallback | src/middlewares/auth.middleware.js:89-93 | the 401 message is the error's own when non-empty and "Invalid access token" exactly when the error's message is empty; it is never empty |
| AuthMiddleware.GenerateTokens | src/middlewares/auth.middleware.js:6-19 | rotation succeeds exactly when the user exists and the save succeeds, and fails with 500 otherwise; on success the two new tokens are fresh and distinct and verify for the user, only that user's stored refresh token changes, and no earlier token's verdict changes |
| AuthMiddleware.RefreshSpec | src/middlewares/auth.middleware.js:47-87 | the expired-access branch keeps the signer registry well-formed; what it decides is stated by the lemmas of `AuthProperties` |
| AuthMiddleware.VerifyJwtSpec | src/middlewares/auth.middleware.js:21-95 | the whole gate keeps the signer registry well-formed; what it decides is stated by the lemmas of `AuthProperties` |
| AuthMiddleware.Gate.constructor | src/middlewares/auth.middleware.js:21 | a request arrives with no user attached, no flag, no cookies set and no headers |
| AuthMiddleware.Gate.GenerateAccessAndRefreshTokens | src/middlewares/auth.middleware.js:6-19 | the in-place rotation leaves store, signer and result exactly as `GenerateTokens` says; on failure the store is unchanged |
| AuthMiddleware.Gate.VerifyJwt | src/middlewares/auth.middleware.js:21-95 | the step-by-step gate ends in exactly the state and outcome of `VerifyJwtSpec` on the state before the call |
| AuthMiddleware.Gate.RefreshAccessToken | src/middlewares/auth.middleware.js:47-87 | the step-by-step expired-access branch ends in exactly the state and outcome of `RefreshSpec` on the state before the call |
| AuthMiddleware.SetHeader | src/middlewares/auth.middleware.js:101 | `res.setHeader` throws `ERR_HTTP_HEADERS_SENT` exactly when the response is finished, and otherwise sets that one header |
| AuthMiddleware.FinishListenerAsWritten | src/middlewares/auth.middleware.js:99-103 | the listener as written throws exactly when the flag is set, and otherwise leaves the response unchanged |
| AuthMiddleware.WithRefreshHeader | src/middlewares/auth.middleware.js:99-103 | written while the response is still open, the header is `true` when the flag is set, absent from the change otherwise, and no other header, cookie or request field changes |
| AuthMiddleware.Gate.AddTokenRefreshHeaders | src/middlewares/auth.middleware.js:98-105 | the response gets `X-Token-Refreshed: true` exactly when the flag is set, and nothing else changes |
| AuthProperties.RefreshCookieNotAccessCredential | src/middlewares/auth.middleware.js:23-25 | changing or removing the refresh cookie never changes which access token is presented |
| AuthProperties.AccessTokenSources | src/middlewares/auth.middleware.js:23-29 | a non-empty access cookie wins; otherwise a "Bearer " header yields the rest of the header; no credential exactly when both sources are falsy; a presented token is never empty |
| AuthProperties.NoCredentialRejected | src/middlewares/auth.middleware.js:23-29 | with neither cookie nor header the result is 401 "Unauthorized request", and nothing is attached, set or stored |
| AuthProperties.ValidAccessTokenPasses | src/middlewares/auth.middleware.js:33-44 | a valid access token of an existing user calls `next()` with the user attached without password, PIN or refresh token; no cookie, flag or store change, whatever the refresh cookie holds |
| AuthProperties.NonExpiryFailureRejected | src/middlewares/auth.middleware.js:39-90 | a bad access token, or one naming no user, is a 401 with "invalid signature" or "Invalid Access Token", whatever the refresh cookie holds, and changes nothing |
| AuthProperties.ExpiredWithoutRefreshRejected | src/middlewares/auth.middleware.js:47-52 | an expired access token without a refresh cookie is 401 "Access token expired and no refresh token provided", and nothing changes |
| AuthProperties.InvalidRefreshRejected | src/middlewares/auth.middleware.js:54-87 | a refresh cookie that fails verification, names no user or differs from the stored token is 401 "Invalid refresh token", and nothing changes |
| AuthProperties.GenerationFailureRejected | src/middlewares/auth.middleware.js:64-87 | a failed save during rotation is 401 "Invalid refresh token", never a success, and nothing is stored |
| AuthProperties.RotationOnExpiry | src/middlewares/auth.middleware.js:63-84 | an accepted refresh replaces the stored token with a fresh one different from the presented one, appends the two cookies with max-age 86,400,000 and 864,000,000 ms, http-only and same-site strict, attaches the user without secrets and raises the flag |
| AuthProperties.FailuresAre401AndChangeNothing | src/middlewares/auth.middleware.js:92-94 | every failure is a 401 that leaves store, signer and exchange unchanged; every success has a user attached |
| AuthProperties.OnlyStoredTokenMints | src/middlewares/auth.middleware.js:59-64 | any change to the store, flag or cookies implies an expired access token and a refresh cookie equal to the token stored for its subject; only that user's record changes |
| AuthProperties.RetiredNeverAccepted | src/middlewares/auth.middleware.js:59-61 | a signed token that is no longer the stored one never passes the refresh check |
| AuthProperties.RotationRetiresPresented | src/middlewares/auth.middleware.js:12-13 | after a rotation the presented refresh token is no longer the stored one |
| AuthProperties.RetiredStaysRetired | src/middlewares/auth.middleware.js:59-64 | no request makes a superseded token the stored one again |
| AuthProperties.RetiredForever | src/middlewares/auth.middleware.js:59-64 | a superseded token stays superseded, and is refused by the refresh check, after any sequence of later calls of the gate |
| AuthProperties.SupersededTokenRejected | src/middlewares/auth.middleware.js:59-60 | right after a rotation, presenting the previous refresh token with an expired access token is 401 "Invalid refresh token" |
| AuthProperties.IssuedAccessTokenAuthenticates | src/middlewares/auth.middleware.js:33-44 | a freshly issued access token in the cookie authenticates its user until its expiry |
| AuthProperties.RefreshHeaderIffRotation | src/middlewares/auth.middleware.js:98-105 | the finished response carries `X-Token-Refreshed: true` exactly when the gate rotated the tokens, and no other header appears or disappears |
| AuthProperties.RotationBreaksFinishListener | src/middlewares/auth.middleware.js:99-103 | every request the gate answers by rotating the tokens makes the listener as written throw `ERR_HTTP_HEADERS_SENT` |
| BlogModel.TrimAll | src/models/blog.model.js:20-25 | each tag is trimmed, and the list keeps its length and order |
| BlogModel.ValidBlog | src/models/blog.model.js:5-30 | a valid blog has a non-empty title of at most 200 characters |
| BlogModel.SchemaViolations | src/models/blog.model.js:5-30 | on a document whose title and tags have passed the setters, no validator fails exactly when it is a valid blog; no failure implies an allowed status and non-empty title and content |
| BlogModel.TitleRequiredIff | src/models/blog.model.js:7 | the required check on the title fails exactly for the empty title |
| BlogModel.TrimAllTrimmed | src/models/blog.model.js:20-25 | setting already trimmed tags changes nothing |
| BlogModel.Cast | src/models/blog.model.js:3-34 | the built document has a trimmed title and trimmed tags, as many tags as given, and an allowed status when none is given |
| BlogModel.CastValidIff | src/models/blog.model.js:5-30 | a built document passes every validator exactly when it is a valid blog |
| BlogModel.CastTitleRequired | src/models/blog.model.js:5-10 | the required check on the title fails exactly for a whitespace-only title |
| BlogModel.DefaultStatusAllowed | src/models/blog.model.js:26-30 | the default status is one of the allowed values |
| BlogController.Truthy | src/controllers/blog.controller.js:77 | an optional string is falsy exactly when it is missing or empty |
| BlogController.Or | src/controllers/blog.controller.js:123-126 | the JavaScript or-with-fallback is never empty when the fallback is not |
| BlogController.NewBlog | src/controllers/blog.controller.js:74-87 | 400 exactly when title or content is falsy; a success is a valid blog by the current user with trimmed title, tags defaulting to `[]` and status defaulting to "published", stamped now |
| BlogController.CreateAcceptedIff | src/controllers/blog.controller.js:77-87 | with title and content present, a create succeeds exactly when the title is not blank, fits in 200 units, there is an author and the status is allowed |
| BlogController.MergeUpdate | src/controllers/blog.controller.js:119-128 | the update as written stores a trimmed title and trimmed tags, keeps id, author and creation time, stamps `updatedAt`, and never empties a stored content |
| BlogController.MergeFieldFallback | src/controllers/blog.controller.js:119-128 | each field takes the new value when truthy and keeps the stored one otherwise; id, author and creation time never change; `updatedAt` is the update time |
| BlogController.MergeUpdateStoresUnknownStatus | src/controllers/blog.controller.js:119-130 | the update as written turns a valid blog into one whose status is outside the enumeration |
| BlogController.MergeUpdateStoresBlankTitle | src/controllers/blog.controller.js:119-130 | the update as written turns a valid blog into one with an empty title |
| BlogController.ValidatedUpdate | src/controllers/blog.controller.js:119-130 | the validated update succeeds exactly when the merged document is a valid blog, and then gives exactly that document |
| BlogController.Listing | src/controllers/blog.controller.js:163 | every listed entry is a stored blog below the bound, under its own id |
| BlogController.ListingCompleteAndOrdered | src/controllers/blog.controller.js:163 | the listing holds every stored blog below the bound, in increasing id order |
| BlogController.SearchFilter | src/controllers/blog.controller.js:19-21 | an empty search matches every blog; otherwise a blog matches exactly when the text search accepts it |
| BlogController.AuthorFilter | src/controllers/blog.controller.js:163 | the filter matches exactly the blogs of that author |
| BlogController.Filter | src/controllers/blog.controller.js:19-21 | the filtered listing holds exactly the elements that match |
| BlogController.CountMatches | src/controllers/blog.controller.js:39 | `countDocuments` equals the number of blogs the same query lists |
| BlogController.Insert | src/controllers/blog.controller.js:35 | inserting into a sorted listing keeps it sorted and adds exactly that element |
| BlogController.Sort | src/controllers/blog.controller.js:35 | the sorted listing is ordered on the chosen field and direction and is a permutation of its input |
| BlogController.Skip | src/controllers/blog.controller.js:37 | the entries skipped before a page are one page of `limit` fewer than `page * limit`, and none before the first page |
| BlogController.Window | src/controllers/blog.controller.js:36-37 | a page skips `(page-1)*limit` entries and holds the next `limit` of them, or fewer at the end, or none past the end |
| BlogController.CeilDiv | src/controllers/blog.controller.js:50 | `totalPages` is the least number of pages of `limit` that hold `total` |
| BlogController.PageNonEmptyIff | src/controllers/blog.controller.js:36-50 | a page has entries exactly when its number is at most `totalPages` |
| BlogController.WindowSorted | src/controllers/blog.controller.js:35-37 | a page cut from a sorted listing is sorted |
| BlogController.WindowMembers | src/controllers/blog.controller.js:35-37 | every entry of a page cut from the sorted matches is one of the matches |
| BlogController.PageOfListing | src/controllers/blog.controller.js:33-39 | a page of the filtered table holds stored blogs that match, and its total is the number of matching ids |
| BlogController.Paginate | src/controllers/blog.controller.js:33-51 | the page is exactly the matches sorted, with `(page-1)*limit` skipped and the next `limit` kept; it holds exactly `limit` entries, fewer on the last page, none past it; it reports the total and the ceiling page count, and is non-empty exactly up to the last page |
| BlogController.AuthorMatches | src/controllers/blog.controller.js:163-169 | the author filter matches exactly the current user's blogs |
| BlogController.BlogStore.constructor | src/models/blog.model.js:40 | the table starts empty and valid |
| BlogController.BlogStore.CreateBlog | src/controllers/blog.controller.js:74-101 | a create adds exactly one valid blog under a fresh id; a rejected create changes nothing |
| BlogController.BlogStore.GetBlog | src/controllers/blog.controller.js:59-71 | the stored blog under that id, or 404 "Blog not found" |
| BlogController.BlogStore.UpdateBlog | src/controllers/blog.controller.js:104-135 | 404 for a missing id and 403 for someone else's blog, both changing nothing; otherwise the validated merge replaces exactly that blog, and the table stays valid |
| BlogController.BlogStore.DeleteBlog | src/controllers/blog.controller.js:138-157 | 404 for a missing id and 403 for someone else's blog, both changing nothing; otherwise exactly that blog is removed |
| BlogController.BlogStore.GetBlogs | src/controllers/blog.controller.js:7-56 | the page is the filtered listing sorted as asked, with `(page-1)*limit` skipped and the next `limit` kept, so exactly `limit` entries before the last page; each is a stored blog that matches the search; `total` counts every match and `totalPages` is its ceiling over `limit` |
| BlogController.BlogStore.GetUserBlogs | src/controllers/blog.controller.js:160-186 | the page is the current user's blogs, newest first, with `(page-1)*limit` skipped and the next `limit` kept, so exactly `limit` entries before the last page; `total` counts that user's blogs only and `totalPages` is its ceiling over `limit` |

## Findings

| source | as written | input that shows it | evidently intended | confidence | as-written member | corrected member |
|---|---|---|---|---|---|---|
| src/controllers/blog.controller.js:119-130 | `findByIdAndUpdate` runs without `runValidators`, so the enum, required and maxLength validators are skipped, while the `trim` setter still applies | updating a valid blog with body `{ status: "archived" }` stores status "archived"; with body `{ title: "   " }` it stores an empty title | an update is rejected when the merged document would break the schema, as a create is | medium, not executed | BlogController.MergeUpdate | BlogController.ValidatedUpdate |
| src/middlewares/auth.middleware.js:99-103 | the header is set inside the response's `finish` listener, after the headers have been sent, so `res.setHeader` throws `ERR_HTTP_HEADERS_SENT` | a request with an expired access token and a refresh cookie equal to the stored token: the gate rotates, the flag is set, and the listener throws once the response has finished | the header is set before the response is sent, so the client sees it | high (Node http semantics of `setHeader`), not executed | AuthProperties.RotationBreaksFinishListener | AuthMiddleware.WithRefreshHeader |

`BlogController.MergeUpdateStoresUnknownStatus` and `BlogController.MergeUpdateStoresBlankTitle`
are the counterexamples for the first row.
`BlogController.BlogStore.UpdateBlog` uses the corrected update, which keeps the table's
schema invariant. `AuthMiddleware.FinishListenerAsWritten` models the listener of the second
row as written, and `AuthMiddleware.Gate.AddTokenRefreshHeaders` writes the header through
the corrected `WithRefreshHeader`.

## Left out

- Signing and verifying tokens: the `jsonwebtoken` library, its secrets and token layout are replaced by `Jwt.Signer`.
- Jwt.Signer.Decode: every failure other than expiry yields "invalid signature". The library's other messages are not distinguished: for example `Authorization: Basic abc` is "jwt malformed" in the library but "invalid signature" in the model, so that is the 401 message the model states for it.
- Jwt.Signer.Issue: freshness of each new token is built into the model through the generation counter; real tokens signed in the same second for the same user could coincide.
- Token lifetimes, which the user model sets, are `Config` parameters. `secure` on the cookies is `Config.production`, which stands for `NODE_ENV === "production"`.
- I/O failures of the user store are reduced to one `saveFails` parameter for the rotation's save. Failing reads, and the reload of the user at src/middlewares/auth.middleware.js:81, are modelled as the in-memory lookup.
- `next()` raising an error after the gate has called it is not modelled. Neither is a route handler failing.
- AuthMiddleware.Gate.AddTokenRefreshHeaders: writes the header while the response is still open, which is the corrected behaviour of the second finding. The source registers it on `finish`, where `res.setHeader` throws `ERR_HTTP_HEADERS_SENT` for every rotated response; that uncaught exception is modelled by `FinishListenerAsWritten` and not propagated further.
- Concurrent requests racing on one user's rotation are not modelled. The source reads and saves without atomicity.
- Query strings are taken as already parsed: `parseInt`, the defaults `page = 1`, `limit = 10`, and non-numeric values are left out.
- BlogController.BlogStore.GetBlogs: requires `page >= 1` and `limit >= 1`. For other values MongoDB rejects a negative skip, treats limit 0 as no limit, and `Math.ceil(total / 0)` is not a whole number.
- BlogController.BlogStore.GetUserBlogs: requires `page >= 1` and `limit >= 1`, for the same reason.
- BlogController.BlogStore.GetBlogs: `$text` search is the `textMatch` parameter; MongoDB's text index semantics are not modelled. Sorting is modelled only on `createdAt` and `updatedAt`; another `sortBy` field is not modelled. MongoDB fixes no order among equal sort keys; the model's stable insertion sort keeps increasing id order among them, which is one of the orders MongoDB may return. The same holds for `GetUserBlogs`.
- `populate("author", "userId email")` is left out. A blog's author is kept as the user id.
- The reload after insertion in `createBlog`, and its 500 "Something went wrong while creating the blog", cannot fail in the in-memory table and are left out.
- Malformed ids, which Mongoose reports as cast errors, are left out. Ids are natural numbers handed out in order, and MongoDB's ObjectId generation is not modelled.
- How the error handler turns a validation error into an HTTP status is not part of this model. A validation error stays a `ValidationError` result.
- Request bodies whose fields are not strings, or whose tags are not a list, are not modelled. The body is typed.
