# User sessions of the complete backend project, modelled in Dafny

This project models the user-session logic of the `complete_Backend_Project`
backend: registration, login with access and refresh tokens, token refresh
with rotation, logout, password and account changes, avatar and cover-image
replacement, the access guard that runs before the authenticated handlers,
and the two media-host helpers those handlers call.

The user collection is a map from user id to a record holding `userName`,
`email`, `fullName`, the stored password, `avatar`, `coverImage` and an optional
`refreshToken`. New ids are handed out in increasing order.

The collaborators become parameters that say what they would answer:
- `jwt.verify` is a function from token to claimed id or error message.
- Token signing together with the save that follows is an optional token pair; None means it throws.
- `isPasswordCorrect` is a predicate on the stored and the submitted password.
- The media host's upload reply is an optional asset; its destroy call is a flag saying whether it throws.

Files:
- `strings.dfy` (module `Strings`): JavaScript `trim`, ASCII `toLowerCase`, `replace` with a string pattern, `split` on one character, with their properties.
- `media.dfy` (module `Media`): the upload and delete wrappers and the public-id expression.
- `users.dfy` (module `Users`): records, projections, the `findOne` lookup, replies.
- `session.dfy` (module `Session`): each handler as a transition from the collection and the request to a reply and a new collection.
- `session_properties.dfy` (module `SessionProperties`): what the handlers promise, as lemmas over those transitions.
- `controller.dfy` (module `Controller`): class `UserController`, whose map of users the handler methods change in place. Each method runs the handler's store calls in order and is proved to end exactly as its transition says.
- `auth.dfy` (module `Auth`): token selection and the guard `VerifyJwt`.

The handlers' quirks are modelled as written, not repaired:
- Refresh destructures `newRefreshToken`, which the generator never returns. So the rotated token is stored, but the body and the `refreshToken` cookie get `undefined`.
- Refresh falls back to the whole request body when there is no cookie. A body is an object, and `jwt.verify` rejects it, so the answer is 401.
- Login projects `-Password` with a capital P, so the returned user still carries the stored password.
- The avatar and cover handlers build their 400 errors without throwing them. A missing upload then reads `url` of null, which is a 500.
- Both image handlers update the store before checking for an old image. A user whose cover image is `""` (registered without one) gets a 400 although the new cover is stored.
- The cover handler answers with the record fetched before the update, password and refresh token included.
- A multipart registration without an `avatar` field is a 500, because `req.files.avatar[0]` reads index 0 of undefined (user.controller.js:52).
- The delete helper returns `response` outside the block that declares it. So every destroy that gets through ends in a reference error, and the image handler answers 500 after the store was updated. Only a destroy that throws, and is swallowed, leads to 200.

## Model

| member | source | states |
|---|---|---|
| `Strings.TrimEmptyIff` | complete_Backend_Project/src/controllers/user.controller.js:34-37 | `trim` gives "" exactly when the string is made of ECMAScript whitespace only |
| `SessionProperties.BlankIsAllWhiteSpace` | complete_Backend_Project/src/controllers/user.controller.js:34-37 | a field is blank exactly when it is present and all whitespace; `undefined` is never blank |
| `SessionProperties.RegisterRejectsBlankFields` | complete_Backend_Project/src/controllers/user.controller.js:34-40 | registration answers 400 "All fields are required" exactly when one of the four fields is blank, and then changes nothing; all-absent fields do not trip it |
| `Users.FirstMatchIff` | complete_Backend_Project/src/controllers/user.controller.js:43-45 | the `$or` lookup finds a record exactly when one has the given userName or email, and finds the earliest |
| `Controller.UserController.FindOne` | complete_Backend_Project/src/controllers/user.controller.js:43-45 | the scan over stored records returns the first one matching userName or email, or none |
| `SessionProperties.RegisterRejectsTakenNameOrEmail` | complete_Backend_Project/src/controllers/user.controller.js:43-49 | registration answers 409 exactly when no field is blank and a stored user has the userName as sent or the email; the store is unchanged |
| `SessionProperties.RegisterCreatesOneRecord` | complete_Backend_Project/src/controllers/user.controller.js:51-96 | 201 exactly when every check passes; then one record is added under a fresh id, with the userName lowercased, no refresh token, the uploaded cover's URL after a working cover upload and "" otherwise, and the reply holds it without password or refresh token; any other answer changes nothing |
| `Strings.ToLowerCaseCharwise` | complete_Backend_Project/src/controllers/user.controller.js:80 | lowercasing keeps the length, maps character by character and leaves no upper-case ASCII letter |
| `SessionProperties.RegisterAdmitsCaseVariantOfStoredName` | complete_Backend_Project/src/controllers/user.controller.js:43-80 | a userName differing from a stored one only in case passes the uniqueness check, and two records then share the lowercased userName |
| `Controller.UserController.RegisterUser` | complete_Backend_Project/src/controllers/user.controller.js:24-97 | the handler's steps answer and change the store exactly as the registration transition says |
| `SessionProperties.GenerationPersistsRefreshToken` | complete_Backend_Project/src/controllers/user.controller.js:9-22 | generation succeeds exactly for a stored user when signing works; the stored refresh token is then the returned one and nothing else changes; every failure is a 500 that changes nothing |
| `Controller.UserController.GenerateAccessAndRefreshTokens` | complete_Backend_Project/src/controllers/user.controller.js:9-22 | the fetch, token assignment and save end exactly as the generation transition says |
| `SessionProperties.LoginFailures` | complete_Backend_Project/src/controllers/user.controller.js:106-131 | 400 exactly when neither userName nor email is given, 404 exactly when no record matches, 401 exactly on a wrong password, 500 exactly when generation fails; no failure changes the store |
| `SessionProperties.LoginPersistsIssuedRefreshToken` | complete_Backend_Project/src/controllers/user.controller.js:134-156 | login succeeds exactly when a userName or email is given, a record matches, the password is correct and generation works; then it stores on the matched user the refresh token it returns in the body and the `refreshToken` cookie, and changes nothing else; the returned user lacks the refresh token but carries the password |
| `Controller.UserController.LoginUser` | complete_Backend_Project/src/controllers/user.controller.js:99-157 | the handler's steps answer and change the store exactly as the login transition says |
| `SessionProperties.LogOutRevokesOnlyCaller` | complete_Backend_Project/src/controllers/user.controller.js:159-181 | logout always answers 200 and clears both cookies; only the caller's refresh token is removed |
| `SessionProperties.LogOutIdempotent` | complete_Backend_Project/src/controllers/user.controller.js:159-170 | logging out twice gives the same answer and store as logging out once |
| `SessionProperties.LogOutEndsRefresh` | complete_Backend_Project/src/controllers/user.controller.js:159-170 | after logout no refresh token naming the caller is accepted |
| `Controller.UserController.LogOutUser` | complete_Backend_Project/src/controllers/user.controller.js:159-181 | the update and the reply are exactly the logout transition |
| `SessionProperties.RefreshFailuresAre401` | complete_Backend_Project/src/controllers/user.controller.js:183-225 | every refresh failure, a failed generation included, is a 401 that changes nothing |
| `SessionProperties.RefreshRotatesStoredToken` | complete_Backend_Project/src/controllers/user.controller.js:184-211 | refresh succeeds exactly when the cookie token is non-empty, verifies, names a stored user and equals its stored token, and generation works; the stored token is then replaced by the new one, nothing else changes |
| `SessionProperties.RefreshWithholdsRotatedToken` | complete_Backend_Project/src/controllers/user.controller.js:211-222 | on success the new access token is sent, while the body's refresh token and the `refreshToken` cookie value are undefined |
| `SessionProperties.RefreshReplayRejected` | complete_Backend_Project/src/controllers/user.controller.js:202-204 | after a successful refresh that stored a different token, the old token is refused with 401 "refresh token is expired or used" |
| `Controller.UserController.RefreshAcessToken` | complete_Backend_Project/src/controllers/user.controller.js:183-226 | the handler's steps answer and change the store exactly as the refresh transition says |
| `SessionProperties.ChangePasswordOnlyPassword` | complete_Backend_Project/src/controllers/user.controller.js:228-244 | a wrong old password is a 401 that changes nothing; success (exactly a stored caller with a correct old password) changes only the password and keeps the refresh token |
| `SessionProperties.ChangePasswordKeepsSession` | complete_Backend_Project/src/controllers/user.controller.js:239-240 | after a password change every refresh answers as before |
| `Controller.UserController.ChangeCurrentPassword` | complete_Backend_Project/src/controllers/user.controller.js:228-244 | the handler's steps end exactly as the password-change transition says |
| `SessionProperties.UpdateAccountChangesNameAndEmail` | complete_Backend_Project/src/controllers/user.controller.js:251-273 | 400 exactly unless both fields are given, changing nothing; 200 exactly when both are given, and then only the caller's fullName and email change |
| `Controller.UserController.UpdateAccountUser` | complete_Backend_Project/src/controllers/user.controller.js:251-273 | the update and reply are exactly the account-update transition |
| `SessionProperties.ImageUpdateWithoutUploadFails` | complete_Backend_Project/src/controllers/user.controller.js:276-287 | without a file, or when the host refuses it, both image handlers answer 500 and change nothing; the built 400 errors are not thrown |
| `SessionProperties.AvatarStoredBeforeOldAvatarCheck` | complete_Backend_Project/src/controllers/user.controller.js:293-318 | after a working upload the caller's avatar is replaced whatever the answer; no old avatar gives 400, a destroy that returns gives 500, and only a destroy that throws gives 200 with the updated record without secrets |
| `Controller.UserController.UpdateUserAvatar` | complete_Backend_Project/src/controllers/user.controller.js:275-319 | the handler's steps answer and change the store exactly as the avatar transition says |
| `SessionProperties.CoverStoredBeforeOldCoverCheck` | complete_Backend_Project/src/controllers/user.controller.js:334-359 | the cover is replaced whatever the answer, with the same 400/500/200 conditions; the 200 reply holds the record from before the update, password included |
| `SessionProperties.FirstCoverImageIsReportedMissing` | complete_Backend_Project/src/controllers/user.controller.js:351-355 | a user registered without a cover who uploads one gets 400 "Old coverImage not found" while the new cover is stored |
| `Controller.UserController.UpdateUserCoverImage` | complete_Backend_Project/src/controllers/user.controller.js:321-360 | the handler's steps answer and change the store exactly as the cover transition says |
| `Auth.SelectTokenPrefersCookie` | complete_Backend_Project/src/middlewares/auth.middleware.js:9 | a non-empty cookie wins; otherwise the header is used with its first "Bearer " cut out, wherever it is, keeping the text on both sides, or unchanged if it has none; no header gives no token |
| `Strings.ReplaceFirstRemoves` | complete_Backend_Project/src/middlewares/auth.middleware.js:9 | `replace(pat, "")` cuts the first occurrence of the pattern out and keeps both sides; an absent pattern changes nothing |
| `Strings.ReplaceFirstOfPrefix` | complete_Backend_Project/src/middlewares/auth.middleware.js:9 | replacing a leading pattern by "" leaves exactly the rest |
| `Auth.BearerHeaderYieldsToken` | complete_Backend_Project/src/middlewares/auth.middleware.js:9 | without a cookie, the header "Bearer t" yields the token t |
| `Auth.BearerExample` | complete_Backend_Project/src/middlewares/auth.middleware.js:9 | "Bearer abc" yields "abc" |
| `Auth.VerifyJwt` | complete_Backend_Project/src/middlewares/auth.middleware.js:7-30 | the guard passes exactly when a non-empty token verifies to a stored user, then attaches that user without password and refresh token; every rejection is a 401, no token gives "Unauthorized request"; it only reads the store |
| `Users.WithoutSecrets` | complete_Backend_Project/src/middlewares/auth.middleware.js:17-19 | the projection `-password -refreshToken` drops exactly those two fields |
| `Media.UploadOnCloudinary` | complete_Backend_Project/src/utils/cloudinary.js:10-27 | an absent or empty path gives null without contacting the host; otherwise the host is asked, the local file is removed, and the result is the host's asset or null on failure |
| `Media.DeleteFromCloudinary` | complete_Backend_Project/src/utils/cloudinary.js:29-46 | an absent or empty URL gives null without contacting the host; otherwise the public id is destroyed and the call ends in null if the host throws, else in the reference error of line 45 |
| `Strings.SplitJoin` | complete_Backend_Project/src/utils/cloudinary.js:34 | joining the pieces of a split with the separator gives back the string |
| `Strings.SplitLastIsSuffix` | complete_Backend_Project/src/utils/cloudinary.js:34 | the last piece of a split is the text after the last separator |
| `Strings.SplitFirstIsPrefix` | complete_Backend_Project/src/utils/cloudinary.js:34 | the first piece of a split is the text before the first separator |
| `Media.PublicIdShape` | complete_Backend_Project/src/utils/cloudinary.js:34 | the public id has no `/` and no `.`, is the prefix of the URL's last segment up to its first `.`, and that segment is the text after the URL's last `/` |
| `Media.PublicIdExample` | complete_Backend_Project/src/utils/cloudinary.js:34 | any URL ending in "/img.v2.png" has public id "img" |
| `Session.GenerateAccessAndRefreshTokens` | complete_Backend_Project/src/controllers/user.controller.js:9-22 | the generation transition; no contract of its own, `SessionProperties.GenerationPersistsRefreshToken` states what it does |
| `Session.RegisterUser` | complete_Backend_Project/src/controllers/user.controller.js:24-97 | the registration transition; its properties are the `SessionProperties.Register…` rows |
| `Session.LoginUser` | complete_Backend_Project/src/controllers/user.controller.js:99-157 | the login transition; `SessionProperties.LoginFailures` and `LoginPersistsIssuedRefreshToken` state what it does |
| `Session.LogOutUser` | complete_Backend_Project/src/controllers/user.controller.js:159-181 | the logout transition; the `SessionProperties.LogOut…` rows state what it does |
| `Session.IncomingRefreshToken` | complete_Backend_Project/src/controllers/user.controller.js:184 | `req.cookies.refreshToken || req.body`: the cookie when it is a non-empty string, else the body if there is one, else undefined; used by the refresh rows |
| `Session.RefreshAcessToken` | complete_Backend_Project/src/controllers/user.controller.js:183-226 | the refresh transition; the `SessionProperties.Refresh…` rows state what it does |
| `Session.ChangeCurrentPassword` | complete_Backend_Project/src/controllers/user.controller.js:228-244 | the password-change transition; the `SessionProperties.ChangePassword…` rows state what it does |
| `Session.UpdateAccountUser` | complete_Backend_Project/src/controllers/user.controller.js:251-273 | the account-update transition; `SessionProperties.UpdateAccountChangesNameAndEmail` states what it does |
| `Session.UpdateUserAvatar` | complete_Backend_Project/src/controllers/user.controller.js:275-319 | the avatar transition; `SessionProperties.ImageUpdateWithoutUploadFails` and `AvatarStoredBeforeOldAvatarCheck` state what it does |
| `Session.UpdateUserCoverImage` | complete_Backend_Project/src/controllers/user.controller.js:321-360 | the cover transition; `SessionProperties.ImageUpdateWithoutUploadFails`, `CoverStoredBeforeOldCoverCheck` and `FirstCoverImageIsReportedMissing` state what it does |
| `Controller.UserController.FindById` | complete_Backend_Project/src/controllers/user.controller.js:11 | `User.findById`: returns the stored record for the id, or none when no record has it |
| `Controller.UserController.Create` | complete_Backend_Project/src/controllers/user.controller.js:74 | `User.create`: stores the record under the fresh id `nextId`, which no record had, bumps `nextId` and changes no other record |
| `Controller.UserController.UpdateById` | complete_Backend_Project/src/controllers/user.controller.js:160 | `save` or `findByIdAndUpdate`: replaces the record when the id is stored and otherwise changes nothing; also used for lines 16, 240, 258, 296 and 338 |
| `Auth.SelectToken` | complete_Backend_Project/src/middlewares/auth.middleware.js:9 | picks the access token; `Auth.SelectTokenPrefersCookie` states what it does |
| `Media.PublicId` | complete_Backend_Project/src/utils/cloudinary.js:34 | the public-id expression; `Media.PublicIdShape` states what it gives |
| `Strings.Trim` | complete_Backend_Project/src/controllers/user.controller.js:36 | JavaScript `trim`; `Strings.TrimEmptyIff` states what it does |
| `Session.IsBlank` | complete_Backend_Project/src/controllers/user.controller.js:36 | `field?.trim() === ""`; `SessionProperties.BlankIsAllWhiteSpace` states what it does |
| `Strings.ToLowerCase` | complete_Backend_Project/src/controllers/user.controller.js:80 | `toLowerCase` on ASCII letters; `Strings.ToLowerCaseCharwise` states what it does |
| `Session.CoverUrl` | complete_Backend_Project/src/controllers/user.controller.js:77 | `coverImage?.url || ""`; `SessionProperties.RegisterCreatesOneRecord` states what it gives in both cases |
| `Users.FirstMatch` | complete_Backend_Project/src/controllers/user.controller.js:43-45 | `findOne` with `$or` on userName and email, also used at lines 111-120; `Users.FirstMatchIff` states what it does |
| `Users.Select` | complete_Backend_Project/src/controllers/user.controller.js:137 | the `select` projections at lines 84, 137, 306 and 348 and at auth.middleware.js:17; `Users.WithoutSecrets` states the `-password -refreshToken` case, and `SessionProperties.LoginPersistsIssuedRefreshToken` the `-Password` case, which keeps the password |
| `Strings.IndexOf` | complete_Backend_Project/src/middlewares/auth.middleware.js:9 | the first occurrence of a pattern, as `replace` finds it; its own contract states that the index is an occurrence, that no earlier one exists, or that none exists at all |
| `Strings.ReplaceFirst` | complete_Backend_Project/src/middlewares/auth.middleware.js:9 | `replace` with a string pattern; `Strings.ReplaceFirstRemoves` and `Strings.ReplaceFirstOfPrefix` state what it does |
| `Strings.Split` | complete_Backend_Project/src/utils/cloudinary.js:34 | `split` on one character, never empty; `Strings.SplitJoin`, `SplitFirstIsPrefix` and `SplitLastIsSuffix` state what it does |

## Left out

- JWT signing and verification, token expiry and the secrets: `jwt.verify` is a parameter giving a claimed id or an error message. Signing plus the save after it is a parameter giving a token pair, or nothing when it throws.
- Password hashing and `isPasswordCorrect`: `user.model.js` is not part of this model. The check is a parameter, and the stored password stands for whatever the schema keeps. A login or password-change body without a password is outside the model, because that value goes straight into the schema's methods.
- Required fields of the schema: registration with an absent fullName, email or password is modelled as a 500 from `User.create`. This assumes the schema requires those fields; the schema is not part of this model. An absent userName is a 500 from `userName.toLowerCase()`, which the controller shows.
- Mongoose library behaviour: how `undefined` inside `$or` is treated (here it matches nothing) and `validateBeforeSave`. The package version is not part of this model.
- SessionProperties.LogOutRevokesOnlyCaller and SessionProperties.LogOutEndsRefresh: these assume that `$set: {refreshToken: undefined}` (lines 163-165) unsets the field. Mongoose 6 and later strip an `undefined` key from an update, so the logout then changes nothing. Under such a version, neither lemma holds of the real program.
- SessionProperties.RegisterAdmitsCaseVariantOfStoredName: this holds only under two conditions on the schema, which `user.model.js` would decide and is not part of this model. The `userName` path must have no `lowercase` option, since Mongoose applies that option to query values too. And it must have no unique index.
- Session.UpdateAccountUser: the projection `"-password refreshToken"` (line 267) is assumed to be accepted, so the update is applied and the answer is 200. MongoDB refuses a projection that mixes an exclusion with an inclusion. If it does so here, the whole `findByIdAndUpdate` rejects: the real handler answers 500 and changes nothing, which the model does not capture.
- The order of `findOne` results: an unsorted `findOne` returns the first match in the database's natural order. The model takes that order to be insertion order, that is, the smallest matching id.
- Failing store calls: `findOne`, `create`, `findById`, `findByIdAndUpdate` and `save` never fail in the model. In the source, any of them rejecting makes the handler answer 500 (401 inside the refresh handler's `try` and 401 in the guard, whose `User.findById` at auth.middleware.js:17 is inside its `try`). Only inside token generation does the model have such a failure path, given by the `issued` parameter.
- Express plumbing: `asyncHandler`, `res.status().json()` and cookie attributes (`httpOnly`, `secure`). A reply is a status, a payload and the cookies set or cleared. An error that reaches the wrapper is its `ApiError` status, or 500 for other errors. A cookie set to `undefined` is kept as None rather than the text Express would write. The HTTP status is modelled; the `statusCode` inside the response body is not.
- `req.user`: the authenticated handlers receive the id the guard attached, because every route puts the guard first. So the `!req.user?._id` branch of the avatar handler (lines 289-291) cannot be taken and is not modelled.
- Non-string body fields: the model's request types hold strings, so a body field of another JSON type is outside the model. For example, a number in a registration field makes `field?.trim` at line 36 throw, which is a 500.
- Media host and file system I/O: the host answers are parameters. A failing `fs.unlinkSync` is not modelled. At the handler level, the removal of local files is not tracked.
- Strings.ToLowerCaseCharwise: `Strings.ToLowerCase` lowercases ASCII letters only, because Dafny strings have no Unicode case mapping; other characters are kept, whereas JavaScript maps all of Unicode and can change the length.
- `getCurrentUser` (lines 246-249): it names its response parameter `re` but uses `res`, so it can only fail with a reference error. It is not modelled.
- Concurrency: two logins racing on the single stored refresh token, last writer wins; handlers here run one at a time.
- The rest of the repository: the route table, the video and order schemas, the entry files and the joke-list demo with its frontend.
