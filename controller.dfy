/** The user handlers as they run: a user collection that is changed in
    place, and one method per handler that performs the handler's store
    calls one after the other. Each method is proved to answer and leave
    the collection exactly as the transition of module Session says. */
module Controller {
  import opened Strings
  import opened Media
  import opened Users
  import Session

  class UserController {
    var users: map<UserId, UserRecord>
    var nextId: UserId

    function State(): Db
      reads this
    {
      Db(users, nextId)
    }

    ghost predicate Valid()
      reads this
    {
      Users.Valid(State())
    }

    constructor ()
      ensures Valid() && users == map[] && nextId == 0
    {
      users := map[];
      nextId := 0;
    }

    // -------------------------------------------------------------------
    // Store calls

    /** `User.findById(id)`. */
    method FindById(id: UserId) returns (u: Option<UserRecord>)
      ensures u == Lookup(users, id)
    {
      if id in users {
        u := Some(users[id]);
      } else {
        u := None;
      }
    }

    /** `User.findOne({$or: [{userName}, {email}]})`: scans the records in
        the order they were stored and returns the first that matches. */
    method FindOne(userName: Option<string>, email: Option<string>) returns (found: Option<UserId>)
      ensures found == FirstMatch(State(), userName, email)
    {
      var i: UserId := 0;
      while i < nextId
        invariant i <= nextId
        invariant FindFrom(users, i, nextId, userName, email) == FirstMatch(State(), userName, email)
      {
        if i in users && Matches(users[i], userName, email) {
          return Some(i);
        }
        i := i + 1;
      }
      return None;
    }

    /** `User.create(...)`: stores the record under a fresh id. */
    method Create(u: UserRecord) returns (id: UserId)
      requires Valid()
      modifies this
      ensures Valid()
      ensures id == old(nextId) && id !in old(users)
      ensures users == old(users)[id := u] && nextId == old(nextId) + 1
    {
      id := nextId;
      users := users[id := u];
      nextId := nextId + 1;
    }

    /** `save` of a fetched document, or `findByIdAndUpdate` with `$set`:
        replaces the record if it is still stored. */
    method UpdateById(id: UserId, u: UserRecord)
      requires Valid()
      modifies this
      ensures Valid()
      ensures users == (if id in old(users) then old(users)[id := u] else old(users))
      ensures nextId == old(nextId)
    {
      if id in users {
        users := users[id := u];
      }
    }

    // -------------------------------------------------------------------
    // Handlers

    method GenerateAccessAndRefreshTokens(id: UserId, issued: Option<TokenPair>) returns (result: Result<TokenPair>)
      requires Valid()
      modifies this
      ensures Valid()
      ensures Session.GenerateAccessAndRefreshTokens(old(State()), id, issued) == Session.Generation(result, State())
    {
      var user := FindById(id);
      if user.None? || issued.None? {
        return Err(ApiError(500, Session.GenerationFailed));
      }
      var pair := issued.value;
      UpdateById(id, user.value.(refreshToken := Some(pair.refreshToken)));
      return Ok(pair);
    }

    method RegisterUser(form: Session.RegisterForm, files: Session.Uploads,
                        avatarHost: Option<Asset>, coverHost: Option<Asset>) returns (reply: Reply)
      requires Valid()
      modifies this
      ensures Valid()
      ensures Session.RegisterUser(old(State()), form, files, avatarHost, coverHost) == Session.Step(reply, State())
    {
      if Session.AnyBlank(form) {
        return Failure(ApiError(400, Session.AllFieldsRequired));
      }
      var existed := FindOne(form.userName, form.email);
      if existed.Some? {
        return Failure(ApiError(409, Session.UserExists));
      }
      if files.NoFiles? {
        return Failure(ApiError(400, Session.AvatarRequired));
      }
      if files.avatar.None? {
        return Failure(ApiError(500, Session.NoAvatarField));
      }
      var avatarLocalPath := files.avatar;
      var coverImageLocalPath := files.coverImage;
      if !Truthy(avatarLocalPath) {
        return Failure(ApiError(400, Session.AvatarRequired));
      }
      var avatar := UploadOnCloudinary(avatarLocalPath, avatarHost).response;
      var coverImage := UploadOnCloudinary(coverImageLocalPath, coverHost).response;
      if avatar.None? {
        return Failure(ApiError(400, Session.AvatarUploadMissing));
      }
      if form.userName.None? {
        return Failure(ApiError(500, Session.NoUserName));
      }
      if form.fullName.None? || form.email.None? || form.password.None? {
        return Failure(ApiError(500, Session.SchemaRejected));
      }
      var id := Create(UserRecord(ToLowerCase(form.userName.value), form.email.value, form.fullName.value,
                                  form.password.value, avatar.value.url, Session.CoverUrl(coverImage), None));
      var createdUser := FindById(id);
      if createdUser.None? {
        // "Something went wrong while entering the user": the record was just created
        assert false;
      }
      return Success(201, UserData(Some(WithoutSecrets(id, createdUser.value))), []);
    }

    method LoginUser(form: Session.LoginForm, isPasswordCorrect: (string, string) -> bool,
                     issued: Option<TokenPair>) returns (reply: Reply)
      requires Valid()
      modifies this
      ensures Valid()
      ensures Session.LoginUser(old(State()), form, isPasswordCorrect, issued) == Session.Step(reply, State())
    {
      if !(Truthy(form.userName) || Truthy(form.email)) {
        return Failure(ApiError(400, Session.NameOrEmailRequired));
      }
      var found := FindOne(form.userName, form.email);
      if found.None? {
        return Failure(ApiError(404, Session.UserMissing));
      }
      var id := found.value;
      var user := users[id];
      if !isPasswordCorrect(user.password, form.password) {
        return Failure(ApiError(401, Session.InvalidCredentials));
      }
      var tokens := GenerateAccessAndRefreshTokens(id, issued);
      if tokens.Err? {
        return Failure(tokens.error);
      }
      var pair := tokens.value;
      var loggedIn := FindById(id);
      var loggedInUser := if loggedIn.Some? then Some(Select(id, loggedIn.value, false, true)) else None;
      return Success(200, LoggedIn(loggedInUser, pair.accessToken, pair.refreshToken),
                     [SetCookie("accessToken", Some(pair.accessToken)),
                      SetCookie("refreshToken", Some(pair.refreshToken))]);
    }

    method LogOutUser(caller: UserId) returns (reply: Reply)
      requires Valid()
      modifies this
      ensures Valid()
      ensures Session.LogOutUser(old(State()), caller) == Session.Step(reply, State())
    {
      var user := FindById(caller);
      if user.Some? {
        UpdateById(caller, user.value.(refreshToken := None));
      }
      return Success(200, Message(Session.LoggedOut), [ClearCookie("accessToken"), ClearCookie("refreshToken")]);
    }

    method RefreshAcessToken(req: Session.RefreshRequest, verify: string -> Session.Claim,
                             issued: Option<TokenPair>) returns (reply: Reply)
      requires Valid()
      modifies this
      ensures Valid()
      ensures Session.RefreshAcessToken(old(State()), req, verify, issued) == Session.Step(reply, State())
    {
      var incoming := Session.IncomingRefreshToken(req);
      if incoming.Undefined? {
        return Failure(ApiError(401, Session.UnauthorisedRequest));
      }
      if incoming.BodyObject? {
        return Failure(Session.AsUnauthorized(Session.JwtNotString));
      }
      var decoded := verify(incoming.token);
      if decoded.Rejected? {
        return Failure(Session.AsUnauthorized(decoded.message));
      }
      var user := FindById(decoded.id);
      if user.None? {
        return Failure(Session.AsUnauthorized(Session.InvalidRefreshToken));
      }
      if Some(incoming.token) != user.value.refreshToken {
        return Failure(Session.AsUnauthorized(Session.StaleRefreshToken));
      }
      var tokens := GenerateAccessAndRefreshTokens(decoded.id, issued);
      if tokens.Err? {
        return Failure(Session.AsUnauthorized(tokens.error.message));
      }
      var accessToken := tokens.value.accessToken;
      var newRefreshToken: Option<string> := None;
      return Success(200, Refreshed(accessToken, newRefreshToken),
                     [SetCookie("accessToken", Some(accessToken)), SetCookie("refreshToken", newRefreshToken)]);
    }

    method ChangeCurrentPassword(caller: UserId, oldPassword: string, newPassword: string,
                                 isPasswordCorrect: (string, string) -> bool) returns (reply: Reply)
      requires Valid()
      modifies this
      ensures Valid()
      ensures Session.ChangeCurrentPassword(old(State()), caller, oldPassword, newPassword, isPasswordCorrect)
              == Session.Step(reply, State())
    {
      var user := FindById(caller);
      if user.None? {
        return Failure(ApiError(500, Session.NullUser));
      }
      if !isPasswordCorrect(user.value.password, oldPassword) {
        return Failure(ApiError(401, Session.InvalidOldPassword));
      }
      UpdateById(caller, user.value.(password := newPassword));
      return Success(200, NoData, []);
    }

    method UpdateAccountUser(caller: UserId, fullName: Option<string>, email: Option<string>) returns (reply: Reply)
      requires Valid()
      modifies this
      ensures Valid()
      ensures Session.UpdateAccountUser(old(State()), caller, fullName, email) == Session.Step(reply, State())
    {
      if !(Truthy(fullName) && Truthy(email)) {
        return Failure(ApiError(400, Session.AccountFieldsRequired));
      }
      var user := FindById(caller);
      if user.Some? {
        UpdateById(caller, user.value.(fullName := fullName.value, email := email.value));
      }
      return Success(200, Message(Session.AccountUpdated), []);
    }

    method UpdateUserAvatar(caller: UserId, localPath: Option<string>, host: Option<Asset>,
                            destroyThrows: bool) returns (reply: Reply)
      requires Valid()
      modifies this
      ensures Valid()
      ensures Session.UpdateUserAvatar(old(State()), caller, localPath, host, destroyThrows) == Session.Step(reply, State())
    {
      var avatar := UploadOnCloudinary(localPath, host).response;
      if avatar.None? {
        return Failure(ApiError(500, Session.NullUpload));
      }
      var user := FindById(caller);
      var oldAvatar := if user.Some? then Some(user.value.avatar) else None;
      if user.Some? {
        UpdateById(caller, user.value.(avatar := avatar.value.url));
      }
      var updated := FindById(caller);
      var updatedUser := if updated.Some? then Some(WithoutSecrets(caller, updated.value)) else None;
      if !Truthy(oldAvatar) {
        return Failure(ApiError(400, Session.OldAvatarMissing));
      }
      var response := DeleteFromCloudinary(oldAvatar, destroyThrows);
      if response.completion.ThrewReferenceError? {
        return Failure(ApiError(500, Session.ResponseNotDefined));
      }
      return Success(200, UserData(updatedUser), []);
    }

    method UpdateUserCoverImage(caller: UserId, localPath: Option<string>, host: Option<Asset>,
                                destroyThrows: bool) returns (reply: Reply)
      requires Valid()
      modifies this
      ensures Valid()
      ensures Session.UpdateUserCoverImage(old(State()), caller, localPath, host, destroyThrows) == Session.Step(reply, State())
    {
      var coverImage := UploadOnCloudinary(localPath, host).response;
      if coverImage.None? {
        return Failure(ApiError(500, Session.NullUpload));
      }
      var user := FindById(caller);
      var oldCoverImage := if user.Some? then Some(user.value.coverImage) else None;
      if user.Some? {
        UpdateById(caller, user.value.(coverImage := coverImage.value.url));
      }
      if !Truthy(oldCoverImage) {
        return Failure(ApiError(400, Session.OldCoverMissing));
      }
      var response := DeleteFromCloudinary(oldCoverImage, destroyThrows);
      if response.completion.ThrewReferenceError? {
        return Failure(ApiError(500, Session.ResponseNotDefined));
      }
      var userDoc := if user.Some? then Some(Select(caller, user.value, false, false)) else None;
      return Success(200, UserData(userDoc), []);
    }
  }
}
