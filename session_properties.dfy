/** What the user handlers promise, stated over the transitions of module
    Session: the error each failure path reports, that failures leave the
    collection alone, which fields a success changes, and how the handlers
    interact (token rotation, revocation, idempotent logout). */
module SessionProperties {
  import opened Strings
  import opened Media
  import opened Users
  import opened Session

  // ---------------------------------------------------------------------
  // generateAccessAndRefreshTokens

  /** Generation succeeds exactly for a stored user when signing and saving
      work; then the stored refresh token is the one returned, and nothing
      else changes. Every failure is a 500 that changes nothing. */
  lemma GenerationPersistsRefreshToken(db: Db, id: UserId, issued: Option<TokenPair>)
    ensures var g := GenerateAccessAndRefreshTokens(db, id, issued);
      && (g.result.Ok? <==> id in db.users && issued.Some?)
      && (g.result.Ok? ==>
            && g.result.value == issued.value
            && g.db == db.(users := db.users[id := db.users[id].(refreshToken := Some(g.result.value.refreshToken))]))
      && (g.result.Err? ==> g.result.error.statusCode == 500 && g.db == db)
  {
  }

  // ---------------------------------------------------------------------
  // registerUser

  /** A field is blank exactly when it is present and made of whitespace only. */
  lemma BlankIsAllWhiteSpace(field: Option<string>)
    ensures IsBlank(field) <==> field.Some? && AllWhiteSpace(field.value)
  {
    if field.Some? {
      TrimEmptyIff(field.value);
    }
  }

  /** Registration answers "All fields are required" (400) exactly when one
      of the four fields is a blank string, and then changes nothing; a
      missing field does not trip this check. */
  lemma RegisterRejectsBlankFields(db: Db, form: RegisterForm, files: Uploads,
                                   avatarHost: Option<Asset>, coverHost: Option<Asset>)
    ensures var r := RegisterUser(db, form, files, avatarHost, coverHost);
      && (r.reply == Failure(ApiError(400, AllFieldsRequired)) <==> AnyBlank(form))
      && (AnyBlank(form) ==> r.db == db)
    ensures form.fullName.None? && form.email.None? && form.userName.None? && form.password.None? ==>
      RegisterUser(db, form, files, avatarHost, coverHost).reply != Failure(ApiError(400, AllFieldsRequired))
  {
  }

  /** Registration answers 409 exactly when no field is blank and a stored
      user has the submitted userName (as sent, not lowercased) or the
      submitted email; then nothing changes. */
  lemma RegisterRejectsTakenNameOrEmail(db: Db, form: RegisterForm, files: Uploads,
                                        avatarHost: Option<Asset>, coverHost: Option<Asset>)
    requires Valid(db)
    ensures var r := RegisterUser(db, form, files, avatarHost, coverHost);
      && (r.reply.Status() == 409 <==>
            !AnyBlank(form) && exists id :: id in db.users && Matches(db.users[id], form.userName, form.email))
      && (r.reply.Status() == 409 ==> r.db == db)
  {
    FirstMatchIff(db, form.userName, form.email);
  }

  /** Registration succeeds (201) exactly when every check passes. A success
      adds exactly one record under a fresh id, with the userName lowercased,
      no refresh token, and cover image "" when no cover was uploaded, and
      answers with that record stripped of password and refresh token. Every
      other answer changes nothing. */
  lemma RegisterCreatesOneRecord(db: Db, form: RegisterForm, files: Uploads,
                                 avatarHost: Option<Asset>, coverHost: Option<Asset>)
    requires Valid(db)
    ensures var r := RegisterUser(db, form, files, avatarHost, coverHost);
      && Valid(r.db)
      && (r.reply.Status() == 201 <==>
            && !AnyBlank(form)
            && !(exists id :: id in db.users && Matches(db.users[id], form.userName, form.email))
            && files.Files? && Truthy(files.avatar) && avatarHost.Some?
            && form.userName.Some? && form.fullName.Some? && form.email.Some? && form.password.Some?)
      && (r.reply.Status() != 201 ==> r.db == db)
      && (r.reply.Status() == 201 ==>
            && db.nextId !in db.users
            && r.db.nextId == db.nextId + 1
            && r.db.users.Keys == db.users.Keys + {db.nextId}
            && |r.db.users| == |db.users| + 1
            && (forall j :: j in db.users ==> r.db.users[j] == db.users[j])
            && var u := r.db.users[db.nextId];
            && u.userName == ToLowerCase(form.userName.value)
            && (forall i :: 0 <= i < |u.userName| ==> !('A' <= u.userName[i] <= 'Z'))
            && u.email == form.email.value && u.fullName == form.fullName.value
            && u.password == form.password.value
            && u.avatar == avatarHost.value.url
            && u.refreshToken.None?
            && (!Truthy(files.coverImage) || coverHost.None? ==> u.coverImage == "")
            && (Truthy(files.coverImage) && coverHost.Some? ==> u.coverImage == coverHost.value.url)
            && r.reply == Success(201, UserData(Some(WithoutSecrets(db.nextId, u))), []))
  {
    FirstMatchIff(db, form.userName, form.email);
    var r := RegisterUser(db, form, files, avatarHost, coverHost);
    if r.reply.Status() == 201 {
      assert db.nextId !in db.users;
      ToLowerCaseCharwise(form.userName.value);
    }
  }

  /** Because the uniqueness check compares the userName as sent, a
      registration that differs from a stored userName only in case, with a
      new email, is stored: the collection then holds two records with the
      same lowercased userName. */
  lemma RegisterAdmitsCaseVariantOfStoredName(db: Db, form: RegisterForm, path: string,
                                              avatarHost: Option<Asset>, coverHost: Option<Asset>, id: UserId)
    requires Valid(db) && id in db.users
    requires form.userName.Some? && form.fullName.Some? && form.email.Some? && form.password.Some?
    requires !AnyBlank(form) && path != "" && avatarHost.Some?
    requires db.users[id].userName == ToLowerCase(form.userName.value) != form.userName.value
    requires forall j :: j in db.users ==> db.users[j].userName != form.userName.value && db.users[j].email != form.email.value
    ensures var r := RegisterUser(db, form, Files(Some(path), None), avatarHost, coverHost);
      && r.reply.Status() == 201
      && id != db.nextId && r.db.users[db.nextId].userName == r.db.users[id].userName
  {
    RegisterCreatesOneRecord(db, form, Files(Some(path), None), avatarHost, coverHost);
  }

  // ---------------------------------------------------------------------
  // loginUser

  /** Login answers 400 when neither userName nor email is given, 404 when
      no stored user matches, 401 on a wrong password and 500 when token
      generation fails; each of these leaves the collection, and so every
      stored refresh token, as it was. */
  lemma LoginFailures(db: Db, form: LoginForm, isPasswordCorrect: (string, string) -> bool,
                      issued: Option<TokenPair>)
    requires Valid(db)
    ensures var r := LoginUser(db, form, isPasswordCorrect, issued);
      var given := Truthy(form.userName) || Truthy(form.email);
      var found := FirstMatch(db, form.userName, form.email);
      && (r.reply.Status() == 400 <==> !given)
      && (r.reply.Status() == 404 <==>
            given && !exists id :: id in db.users && Matches(db.users[id], form.userName, form.email))
      && (r.reply.Status() == 401 <==>
            given && found.Some? && !isPasswordCorrect(db.users[found.value].password, form.password))
      && (r.reply.Status() == 500 <==>
            given && found.Some? && isPasswordCorrect(db.users[found.value].password, form.password) && issued.None?)
      && (r.reply.Failure? ==> r.db == db)
  {
    FirstMatchIff(db, form.userName, form.email);
  }

  /** Login succeeds exactly when a userName or email is given, a stored
      user matches, the password is correct and generation works. A
      successful login stores the refresh token it returns on the matched
      user, and nowhere else; the body and the `refreshToken` cookie carry
      that same token. The user in the body lacks the refresh token but still
      carries the stored password, since the projection names `Password`. */
  lemma LoginPersistsIssuedRefreshToken(db: Db, form: LoginForm, isPasswordCorrect: (string, string) -> bool,
                                        issued: Option<TokenPair>)
    ensures var r := LoginUser(db, form, isPasswordCorrect, issued);
      var found := FirstMatch(db, form.userName, form.email);
      r.reply.Success? <==>
        && (Truthy(form.userName) || Truthy(form.email))
        && found.Some? && isPasswordCorrect(db.users[found.value].password, form.password)
        && issued.Some?
    ensures var r := LoginUser(db, form, isPasswordCorrect, issued);
      r.reply.Success? ==>
        && issued.Some? && FirstMatch(db, form.userName, form.email).Some?
        && var id := FirstMatch(db, form.userName, form.email).value;
        && var pair := issued.value;
        && r.reply.status == 200
        && r.db == db.(users := db.users[id := db.users[id].(refreshToken := Some(pair.refreshToken))])
        && r.reply.data.accessToken == pair.accessToken
        && r.reply.data.refreshToken == pair.refreshToken
        && SetCookie("accessToken", Some(pair.accessToken)) in r.reply.cookies
        && SetCookie("refreshToken", Some(pair.refreshToken)) in r.reply.cookies
        && r.reply.data.user == Some(Select(id, r.db.users[id], false, true))
        && r.reply.data.user.value.refreshToken.None?
        && r.reply.data.user.value.password == Some(db.users[id].password)
  {
  }

  // ---------------------------------------------------------------------
  // logOutUser

  /** Logout always answers 200 and clears both cookies; it removes the
      caller's stored refresh token and changes nothing else. */
  lemma LogOutRevokesOnlyCaller(db: Db, caller: UserId)
    ensures var r := LogOutUser(db, caller);
      && r.reply.Success? && r.reply.status == 200
      && ClearCookie("accessToken") in r.reply.cookies && ClearCookie("refreshToken") in r.reply.cookies
      && r.db.nextId == db.nextId && r.db.users.Keys == db.users.Keys
      && (caller in db.users ==> r.db.users[caller] == db.users[caller].(refreshToken := None))
      && (forall j :: j in db.users && j != caller ==> r.db.users[j] == db.users[j])
  {
  }

  /** Logging out twice answers and leaves the collection as logging out once. */
  lemma LogOutIdempotent(db: Db, caller: UserId)
    ensures LogOutUser(LogOutUser(db, caller).db, caller) == LogOutUser(db, caller)
  {
    var once := LogOutUser(db, caller).db;
    if caller in db.users {
      assert once.users[caller := once.users[caller].(refreshToken := None)] == once.users;
    }
  }

  /** After logout no refresh token that names the caller is accepted. */
  lemma LogOutEndsRefresh(db: Db, caller: UserId, req: RefreshRequest, verify: string -> Claim,
                          issued: Option<TokenPair>)
    requires Truthy(req.cookie) ==> verify(req.cookie.value) == Verified(caller)
    ensures RefreshAcessToken(LogOutUser(db, caller).db, req, verify, issued).reply.Failure?
  {
  }

  // ---------------------------------------------------------------------
  // refreshAcessToken

  /** Every refresh failure, including a failed token generation, is a 401
      and changes nothing. */
  lemma RefreshFailuresAre401(db: Db, req: RefreshRequest, verify: string -> Claim, issued: Option<TokenPair>)
    ensures var r := RefreshAcessToken(db, req, verify, issued);
      r.reply.Failure? ==> r.reply.error.statusCode == 401 && r.db == db
  {
  }

  /** Refresh succeeds exactly when the cookie holds a non-empty token that
      verifies, names a stored user, and equals that user's stored refresh
      token, and generation works; the stored token is then replaced by the
      freshly issued one, and nothing else changes. Without a cookie the
      body is tried, and it never verifies. */
  lemma RefreshRotatesStoredToken(db: Db, req: RefreshRequest, verify: string -> Claim, issued: Option<TokenPair>)
    ensures var r := RefreshAcessToken(db, req, verify, issued);
      && (r.reply.Success? <==>
            && Truthy(req.cookie)
            && verify(req.cookie.value).Verified?
            && verify(req.cookie.value).id in db.users
            && db.users[verify(req.cookie.value).id].refreshToken == req.cookie
            && issued.Some?)
      && (r.reply.Success? ==>
            var id := verify(req.cookie.value).id;
            r.db == db.(users := db.users[id := db.users[id].(refreshToken := Some(issued.value.refreshToken))]))
  {
  }

  /** A successful refresh hands out the new access token, but the new
      refresh token reaches only the store: the body's `refreshToken` is
      undefined and so is the value given to the `refreshToken` cookie. */
  lemma RefreshWithholdsRotatedToken(db: Db, req: RefreshRequest, verify: string -> Claim, issued: Option<TokenPair>)
    ensures var r := RefreshAcessToken(db, req, verify, issued);
      r.reply.Success? ==>
        && r.reply.status == 200
        && r.reply.data == Refreshed(issued.value.accessToken, None)
        && SetCookie("accessToken", Some(issued.value.accessToken)) in r.reply.cookies
        && SetCookie("refreshToken", None) in r.reply.cookies
  {
  }

  /** Rotation: once a refresh has succeeded with a token and stored a
      different one, presenting the old token again is refused as stale. */
  lemma RefreshReplayRejected(db: Db, req: RefreshRequest, verify: string -> Claim,
                              first: Option<TokenPair>, second: Option<TokenPair>)
    requires RefreshAcessToken(db, req, verify, first).reply.Success?
    requires first.Some? && Truthy(req.cookie) && first.value.refreshToken != req.cookie.value
    ensures var after := RefreshAcessToken(db, req, verify, first).db;
      RefreshAcessToken(after, req, verify, second) == Step(Failure(ApiError(401, StaleRefreshToken)), after)
  {
    RefreshRotatesStoredToken(db, req, verify, first);
  }

  // ---------------------------------------------------------------------
  // changeCurrentPassword

  /** A wrong old password is a 401 that changes nothing; a success changes
      the caller's password only, keeping the stored refresh token. */
  lemma ChangePasswordOnlyPassword(db: Db, caller: UserId, oldPassword: string, newPassword: string,
                                   isPasswordCorrect: (string, string) -> bool)
    ensures var r := ChangeCurrentPassword(db, caller, oldPassword, newPassword, isPasswordCorrect);
      && (r.reply.Status() == 401 <==> caller in db.users && !isPasswordCorrect(db.users[caller].password, oldPassword))
      && (r.reply.Success? <==> caller in db.users && isPasswordCorrect(db.users[caller].password, oldPassword))
      && (r.reply.Failure? ==> r.db == db)
      && (r.reply.Success? ==>
            && r.reply.status == 200
            && r.db == db.(users := db.users[caller := db.users[caller].(password := newPassword)])
            && r.db.users[caller].refreshToken == db.users[caller].refreshToken)
  {
  }

  /** A password change does not end the session: every refresh answers as
      it would have before the change. */
  lemma ChangePasswordKeepsSession(db: Db, caller: UserId, oldPassword: string, newPassword: string,
                                   isPasswordCorrect: (string, string) -> bool,
                                   req: RefreshRequest, verify: string -> Claim, issued: Option<TokenPair>)
    ensures var changed := ChangeCurrentPassword(db, caller, oldPassword, newPassword, isPasswordCorrect).db;
      RefreshAcessToken(changed, req, verify, issued).reply == RefreshAcessToken(db, req, verify, issued).reply
  {
  }

  // ---------------------------------------------------------------------
  // updateAccountUser

  /** The account update is a 400 unless both fields are given, and then
      changes nothing; otherwise it answers 200 and replaces the caller's
      fullName and email only. */
  lemma UpdateAccountChangesNameAndEmail(db: Db, caller: UserId, fullName: Option<string>, email: Option<string>)
    ensures var r := UpdateAccountUser(db, caller, fullName, email);
      && (r.reply.Status() == 400 <==> !(Truthy(fullName) && Truthy(email)))
      && (r.reply.Success? <==> Truthy(fullName) && Truthy(email))
      && (r.reply.Failure? ==> r.db == db)
      && (r.reply.Success? ==>
            && r.reply.status == 200 && r.reply.data == Message(AccountUpdated)
            && r.db.nextId == db.nextId && r.db.users.Keys == db.users.Keys
            && (caller in db.users ==>
                  r.db.users[caller] == db.users[caller].(fullName := fullName.value, email := email.value))
            && (forall j :: j in db.users && j != caller ==> r.db.users[j] == db.users[j]))
  {
  }

  // ---------------------------------------------------------------------
  // updateUserAvatar / updateUserCoverImage

  /** Without an uploaded file, or when the host refuses it, the handler
      reads `url` of null: a 500 that changes nothing. The 400 errors built
      for these cases are never thrown. */
  lemma ImageUpdateWithoutUploadFails(db: Db, caller: UserId, localPath: Option<string>,
                                       host: Option<Asset>, destroyThrows: bool)
    requires !Truthy(localPath) || host.None?
    ensures UpdateUserAvatar(db, caller, localPath, host, destroyThrows) == Step(Failure(ApiError(500, NullUpload)), db)
    ensures UpdateUserCoverImage(db, caller, localPath, host, destroyThrows) == Step(Failure(ApiError(500, NullUpload)), db)
  {
  }

  /** Once the upload works, the caller's avatar is replaced whatever the
      answer: a missing old avatar is reported (400) after the store was
      changed, and a destroy of the old avatar that returns makes the
      handler fail (500); only a destroy that throws leads to 200, with the
      updated record stripped of password and refresh token. */
  lemma AvatarStoredBeforeOldAvatarCheck(db: Db, caller: UserId, localPath: Option<string>,
                                         host: Option<Asset>, destroyThrows: bool)
    requires Truthy(localPath) && host.Some? && caller in db.users
    ensures var r := UpdateUserAvatar(db, caller, localPath, host, destroyThrows);
      && r.db == db.(users := db.users[caller := db.users[caller].(avatar := host.value.url)])
      && (db.users[caller].avatar == "" ==> r.reply == Failure(ApiError(400, OldAvatarMissing)))
      && (db.users[caller].avatar != "" && !destroyThrows ==> r.reply == Failure(ApiError(500, ResponseNotDefined)))
      && (r.reply.Success? <==> db.users[caller].avatar != "" && destroyThrows)
      && (r.reply.Success? ==> r.reply == Success(200, UserData(Some(WithoutSecrets(caller, r.db.users[caller]))), []))
  {
  }

  /** The cover-image update changes the store the same way, and on success
      answers with the record as it was before the update, password and
      refresh token included. */
  lemma CoverStoredBeforeOldCoverCheck(db: Db, caller: UserId, localPath: Option<string>,
                                       host: Option<Asset>, destroyThrows: bool)
    requires Truthy(localPath) && host.Some? && caller in db.users
    ensures var r := UpdateUserCoverImage(db, caller, localPath, host, destroyThrows);
      && r.db == db.(users := db.users[caller := db.users[caller].(coverImage := host.value.url)])
      && (db.users[caller].coverImage == "" ==> r.reply == Failure(ApiError(400, OldCoverMissing)))
      && (db.users[caller].coverImage != "" && !destroyThrows ==> r.reply == Failure(ApiError(500, ResponseNotDefined)))
      && (r.reply.Success? <==> db.users[caller].coverImage != "" && destroyThrows)
      && (r.reply.Success? ==>
            && r.reply == Success(200, UserData(Some(Select(caller, db.users[caller], false, false))), [])
            && r.reply.data.user.value.password == Some(db.users[caller].password)
            && r.reply.data.user.value.coverImage == db.users[caller].coverImage)
  {
  }

  /** A user registered without a cover image who then uploads one gets a
      400 "Old coverImage not found", although the new cover is stored. */
  lemma FirstCoverImageIsReportedMissing(db: Db, form: RegisterForm, files: Uploads,
                                         avatarHost: Option<Asset>, coverHost: Option<Asset>,
                                         localPath: Option<string>, host: Option<Asset>, destroyThrows: bool)
    requires Valid(db)
    requires RegisterUser(db, form, files, avatarHost, coverHost).reply.Status() == 201
    requires files.Files? && !Truthy(files.coverImage)
    requires Truthy(localPath) && host.Some?
    ensures var registered := RegisterUser(db, form, files, avatarHost, coverHost).db;
      var r := UpdateUserCoverImage(registered, db.nextId, localPath, host, destroyThrows);
      && r.reply == Failure(ApiError(400, OldCoverMissing))
      && r.db.users[db.nextId].coverImage == host.value.url
  {
    RegisterCreatesOneRecord(db, form, files, avatarHost, coverHost);
    var registered := RegisterUser(db, form, files, avatarHost, coverHost).db;
    CoverStoredBeforeOldCoverCheck(registered, db.nextId, localPath, host, destroyThrows);
  }
}
