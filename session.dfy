/** The user handlers as transitions of the user collection: each takes the
    collection, the request and what the collaborators would answer (the
    token verifier, the token signer, the password check, the media host) and
    gives the reply and the new collection. The lemmas state what the
    handlers promise. */
module Session {
  import opened Strings
  import opened Media
  import opened Users

  /** One handler run: the reply sent and the collection afterwards. */
  datatype Step = Step(reply: Reply, db: Db)

  /** `generateAccessAndRefreshTokens`: the tokens, or the 500 error any
      failure inside it becomes, and the collection afterwards. */
  datatype Generation = Generation(result: Result<TokenPair>, db: Db)

  /** What `jwt.verify` decodes from a token: the id it carries, or the
      message of the error it throws. */
  datatype Claim = Verified(id: UserId) | Rejected(message: string)

  /** The fields of the registration body; None is `undefined`. */
  datatype RegisterForm = RegisterForm(
    fullName: Option<string>, email: Option<string>, userName: Option<string>, password: Option<string>)

  /** `req.files`: absent (not a multipart request), or the path of the first
      file of each field, None when that field was not sent. */
  datatype Uploads = NoFiles | Files(avatar: Option<string>, coverImage: Option<string>)

  /** The login body; the password goes straight to the schema's check. */
  datatype LoginForm = LoginForm(email: Option<string>, userName: Option<string>, password: string)

  /** What the refresh handler can see: the `refreshToken` cookie and
      whether a parsed body (an object, never a string) is present. */
  datatype RefreshRequest = RefreshRequest(cookie: Option<string>, hasBody: bool)

  /** The value `req.cookies.refreshToken || req.body` evaluates to. */
  datatype Incoming = Undefined | TokenText(token: string) | BodyObject

  const GenerationFailed := "Something went wrong while generating the refresh and access token"
  const AllFieldsRequired := "All fields are required"
  const UserExists := "User with email or username already exist"
  const AvatarRequired := "Avatar file is required"
  const AvatarUploadMissing := "avatar file is required"
  const EntryFailed := "Something went wrong while entering the user"
  const NameOrEmailRequired := "username or email is required"
  const UserMissing := "User not exit"
  const InvalidCredentials := "Invalid user credentials"
  const LoggedOut := "User logged Out"
  const UnauthorisedRequest := "unauthorised request"
  const InvalidRefreshToken := "Invalid refresh token"
  const StaleRefreshToken := "refresh token is expired or used"
  const RefreshFallback := "Error refreshed token"
  const JwtNotString := "jwt must be a string"
  const InvalidOldPassword := "Invalid old Password"
  const AccountFieldsRequired := "All fiels are required"
  const AccountUpdated := "Account Details Update Successfully"
  const OldAvatarMissing := "Old avatar not found"
  const OldCoverMissing := "Old coverImage not found"
  // Messages of the JavaScript errors some paths throw.
  const NoAvatarField := "Cannot read properties of undefined (reading '0')"
  const NoUserName := "Cannot read properties of undefined (reading 'toLowerCase')"
  const SchemaRejected := "User validation failed"
  const NullUpload := "Cannot read properties of null (reading 'url')"
  const NullUser := "Cannot read properties of null (reading 'isPasswordCorrect')"
  const ResponseNotDefined := "response is not defined"

  // ---------------------------------------------------------------------
  // generateAccessAndRefreshTokens

  /** `issued` is what signing both tokens and saving would give: None when
      any of it throws. */
  function GenerateAccessAndRefreshTokens(db: Db, id: UserId, issued: Option<TokenPair>): Generation {
    if id !in db.users || issued.None? then Generation(Err(ApiError(500, GenerationFailed)), db)
    else
      var u := db.users[id];
      Generation(Ok(issued.value), db.(users := db.users[id := u.(refreshToken := Some(issued.value.refreshToken))]))
  }

  // ---------------------------------------------------------------------
  // registerUser

  /** `field?.trim() === ""`: a string that trims to nothing; `undefined` is not blank. */
  predicate IsBlank(field: Option<string>) {
    field.Some? && Trim(field.value) == ""
  }

  predicate AnyBlank(form: RegisterForm) {
    IsBlank(form.fullName) || IsBlank(form.email) || IsBlank(form.userName) || IsBlank(form.password)
  }

  function CoverUrl(cover: Option<Asset>): string {
    if cover.Some? && cover.value.url != "" then cover.value.url else ""
  }

  function RegisterUser(db: Db, form: RegisterForm, files: Uploads,
                        avatarHost: Option<Asset>, coverHost: Option<Asset>): Step
  {
    if AnyBlank(form) then Step(Failure(ApiError(400, AllFieldsRequired)), db)
    else if FirstMatch(db, form.userName, form.email).Some? then Step(Failure(ApiError(409, UserExists)), db)
    else if files.NoFiles? then Step(Failure(ApiError(400, AvatarRequired)), db)
    else if files.avatar.None? then Step(Failure(ApiError(500, NoAvatarField)), db)
    else if !Truthy(files.avatar) then Step(Failure(ApiError(400, AvatarRequired)), db)
    else
      var avatar := UploadOnCloudinary(files.avatar, avatarHost).response;
      var cover := UploadOnCloudinary(files.coverImage, coverHost).response;
      if avatar.None? then Step(Failure(ApiError(400, AvatarUploadMissing)), db)
      else if form.userName.None? then Step(Failure(ApiError(500, NoUserName)), db)
      else if form.fullName.None? || form.email.None? || form.password.None? then
        Step(Failure(ApiError(500, SchemaRejected)), db)
      else
        var u := UserRecord(ToLowerCase(form.userName.value), form.email.value, form.fullName.value,
                            form.password.value, avatar.value.url, CoverUrl(cover), None);
        var id := db.nextId;
        var db' := Db(db.users[id := u], id + 1);
        match FindSelected(db'.users, id, true, true)
        case None => Step(Failure(ApiError(500, EntryFailed)), db')
        case Some(created) => Step(Success(201, UserData(Some(created)), []), db')
  }

  // ---------------------------------------------------------------------
  // loginUser

  function LoginUser(db: Db, form: LoginForm, isPasswordCorrect: (string, string) -> bool,
                     issued: Option<TokenPair>): Step
  {
    if !(Truthy(form.userName) || Truthy(form.email)) then Step(Failure(ApiError(400, NameOrEmailRequired)), db)
    else match FirstMatch(db, form.userName, form.email)
      case None => Step(Failure(ApiError(404, UserMissing)), db)
      case Some(id) =>
        if !isPasswordCorrect(db.users[id].password, form.password) then
          Step(Failure(ApiError(401, InvalidCredentials)), db)
        else match GenerateAccessAndRefreshTokens(db, id, issued)
          case Generation(Err(e), db1) => Step(Failure(e), db1)
          case Generation(Ok(pair), db1) =>
            // the projection "-Password -refreshToken" names no stored field for the password
            var loggedIn := FindSelected(db1.users, id, false, true);
            Step(Success(200, LoggedIn(loggedIn, pair.accessToken, pair.refreshToken),
                         [SetCookie("accessToken", Some(pair.accessToken)),
                          SetCookie("refreshToken", Some(pair.refreshToken))]), db1)
  }

  // ---------------------------------------------------------------------
  // logOutUser

  /** `caller` is the id the access guard attached to the request. */
  function LogOutUser(db: Db, caller: UserId): Step {
    var db1 := if caller in db.users
               then db.(users := db.users[caller := db.users[caller].(refreshToken := None)])
               else db;
    Step(Success(200, Message(LoggedOut), [ClearCookie("accessToken"), ClearCookie("refreshToken")]), db1)
  }

  // ---------------------------------------------------------------------
  // refreshAcessToken

  function IncomingRefreshToken(req: RefreshRequest): Incoming {
    if Truthy(req.cookie) then TokenText(req.cookie.value)
    else if req.hasBody then BodyObject
    else Undefined
  }

  /** The `catch` at the end of the handler: status 401, the caught message
      or a default one. */
  function AsUnauthorized(message: string): ApiError {
    ApiError(401, if message == "" then RefreshFallback else message)
  }

  function RefreshAcessToken(db: Db, req: RefreshRequest, verify: string -> Claim,
                             issued: Option<TokenPair>): Step
  {
    match IncomingRefreshToken(req)
    case Undefined => Step(Failure(ApiError(401, UnauthorisedRequest)), db)
    case BodyObject => Step(Failure(AsUnauthorized(JwtNotString)), db)
    case TokenText(token) =>
      match verify(token)
      case Rejected(m) => Step(Failure(AsUnauthorized(m)), db)
      case Verified(id) =>
        if id !in db.users then Step(Failure(AsUnauthorized(InvalidRefreshToken)), db)
        else if Some(token) != db.users[id].refreshToken then Step(Failure(AsUnauthorized(StaleRefreshToken)), db)
        else match GenerateAccessAndRefreshTokens(db, id, issued)
          case Generation(Err(e), db1) => Step(Failure(AsUnauthorized(e.message)), db1)
          case Generation(Ok(pair), db1) =>
            // the handler destructures `newRefreshToken`, which the generator does not return
            var newRefreshToken: Option<string> := None;
            Step(Success(200, Refreshed(pair.accessToken, newRefreshToken),
                         [SetCookie("accessToken", Some(pair.accessToken)),
                          SetCookie("refreshToken", newRefreshToken)]), db1)
  }

  // ---------------------------------------------------------------------
  // changeCurrentPassword

  function ChangeCurrentPassword(db: Db, caller: UserId, oldPassword: string, newPassword: string,
                                 isPasswordCorrect: (string, string) -> bool): Step
  {
    if caller !in db.users then Step(Failure(ApiError(500, NullUser)), db)
    else if !isPasswordCorrect(db.users[caller].password, oldPassword) then
      Step(Failure(ApiError(401, InvalidOldPassword)), db)
    else
      Step(Success(200, NoData, []),
           db.(users := db.users[caller := db.users[caller].(password := newPassword)]))
  }

  // ---------------------------------------------------------------------
  // updateAccountUser

  function UpdateAccountUser(db: Db, caller: UserId, fullName: Option<string>, email: Option<string>): Step {
    if !(Truthy(fullName) && Truthy(email)) then Step(Failure(ApiError(400, AccountFieldsRequired)), db)
    else
      var db1 := if caller in db.users
                 then db.(users := db.users[caller := db.users[caller].(fullName := fullName.value, email := email.value)])
                 else db;
      Step(Success(200, Message(AccountUpdated), []), db1)
  }

  // ---------------------------------------------------------------------
  // updateUserAvatar / updateUserCoverImage

  /** The stored avatar of the caller, `user?.avatar`. */
  function OldAvatar(db: Db, caller: UserId): Option<string> {
    if caller in db.users then Some(db.users[caller].avatar) else None
  }

  function OldCoverImage(db: Db, caller: UserId): Option<string> {
    if caller in db.users then Some(db.users[caller].coverImage) else None
  }

  /** `localPath` is `req.file?.path`; `host` the host's upload answer;
      `destroyThrows` whether the host's destroy of the old image throws. */
  function UpdateUserAvatar(db: Db, caller: UserId, localPath: Option<string>,
                            host: Option<Asset>, destroyThrows: bool): Step
  {
    var avatar := UploadOnCloudinary(localPath, host).response;
    if avatar.None? then Step(Failure(ApiError(500, NullUpload)), db)
    else
      var oldAvatar := OldAvatar(db, caller);
      var db1 := if caller in db.users
                 then db.(users := db.users[caller := db.users[caller].(avatar := avatar.value.url)])
                 else db;
      var updatedUser := FindSelected(db1.users, caller, true, true);
      if !Truthy(oldAvatar) then Step(Failure(ApiError(400, OldAvatarMissing)), db1)
      else match DeleteFromCloudinary(oldAvatar, destroyThrows).completion
        case ThrewReferenceError => Step(Failure(ApiError(500, ResponseNotDefined)), db1)
        case ReturnedNull => Step(Success(200, UserData(updatedUser), []), db1)
  }

  function UpdateUserCoverImage(db: Db, caller: UserId, localPath: Option<string>,
                                host: Option<Asset>, destroyThrows: bool): Step
  {
    var coverImage := UploadOnCloudinary(localPath, host).response;
    if coverImage.None? then Step(Failure(ApiError(500, NullUpload)), db)
    else
      // `user` is fetched before the update, without a projection
      var user := FindSelected(db.users, caller, false, false);
      var oldCoverImage := OldCoverImage(db, caller);
      var db1 := if caller in db.users
                 then db.(users := db.users[caller := db.users[caller].(coverImage := coverImage.value.url)])
                 else db;
      if !Truthy(oldCoverImage) then Step(Failure(ApiError(400, OldCoverMissing)), db1)
      else match DeleteFromCloudinary(oldCoverImage, destroyThrows).completion
        case ThrewReferenceError => Step(Failure(ApiError(500, ResponseNotDefined)), db1)
        case ReturnedNull => Step(Success(200, UserData(user), []), db1)
  }
}
