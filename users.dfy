/** The user collection as the handlers see it: the stored record, the
    projections queries return, the `findOne` lookup, and the replies the
    handlers send. */
module Users {
  import opened Strings

  /** Document ids; the store hands them out in increasing order. */
  type UserId = nat

  /** A stored user. `password` is whatever the store keeps for the submitted
      password (its hashing happens in the schema's save hook); `refreshToken`
      is None when the field is absent. */
  datatype UserRecord = UserRecord(
    userName: string,
    email: string,
    fullName: string,
    password: string,
    avatar: string,
    coverImage: string,
    refreshToken: Option<string>)

  /** The collection: the stored records by id, and the next id to hand out. */
  datatype Db = Db(users: map<UserId, UserRecord>, nextId: UserId)

  /** Every stored id was handed out already. */
  predicate Valid(db: Db) {
    forall id :: id in db.users ==> id < db.nextId
  }

  /** A record as a query returns it after `.select(...)`: fields the
      projection excludes are None. */
  datatype Document = Document(
    id: UserId,
    userName: string,
    email: string,
    fullName: string,
    avatar: string,
    coverImage: string,
    password: Option<string>,
    refreshToken: Option<string>)

  function Select(id: UserId, u: UserRecord, dropPassword: bool, dropRefreshToken: bool): Document {
    Document(id, u.userName, u.email, u.fullName, u.avatar, u.coverImage,
             if dropPassword then None else Some(u.password),
             if dropRefreshToken then None else u.refreshToken)
  }

  /** The projection `"-password -refreshToken"`. */
  function WithoutSecrets(id: UserId, u: UserRecord): (d: Document)
    ensures d.password.None? && d.refreshToken.None?
    ensures d.id == id && d.userName == u.userName && d.email == u.email && d.fullName == u.fullName
    ensures d.avatar == u.avatar && d.coverImage == u.coverImage
  {
    Select(id, u, true, true)
  }

  /** `findById`: the record with that id, or `null`. */
  function Lookup(users: map<UserId, UserRecord>, id: UserId): Option<UserRecord> {
    if id in users then Some(users[id]) else None
  }

  /** `findById(id).select(...)`. */
  function FindSelected(users: map<UserId, UserRecord>, id: UserId, dropPassword: bool, dropRefreshToken: bool): Option<Document> {
    if id in users then Some(Select(id, users[id], dropPassword, dropRefreshToken)) else None
  }

  /** The filter `{$or: [{userName}, {email}]}`: a field that is undefined
      matches nothing. */
  predicate Matches(u: UserRecord, userName: Option<string>, email: Option<string>) {
    Some(u.userName) == userName || Some(u.email) == email
  }

  /** The first matching record among the ids `from .. bound - 1`, in id order. */
  function FindFrom(users: map<UserId, UserRecord>, from: UserId, bound: UserId,
                    userName: Option<string>, email: Option<string>): (r: Option<UserId>)
    ensures r.Some? ==> from <= r.value < bound && r.value in users && Matches(users[r.value], userName, email)
    ensures r.Some? ==> forall j :: from <= j < r.value && j in users ==> !Matches(users[j], userName, email)
    ensures r.None? ==> forall j :: from <= j < bound && j in users ==> !Matches(users[j], userName, email)
    decreases bound - from
  {
    if from >= bound then None
    else if from in users && Matches(users[from], userName, email) then Some(from)
    else FindFrom(users, from + 1, bound, userName, email)
  }

  /** `findOne` with that filter: the matching record that was stored first. */
  function FirstMatch(db: Db, userName: Option<string>, email: Option<string>): Option<UserId> {
    FindFrom(db.users, 0, db.nextId, userName, email)
  }

  /** `findOne` finds a record exactly when one matches, and the one it
      finds is the earliest. */
  lemma FirstMatchIff(db: Db, userName: Option<string>, email: Option<string>)
    requires Valid(db)
    ensures FirstMatch(db, userName, email).Some? <==>
            exists id :: id in db.users && Matches(db.users[id], userName, email)
    ensures FirstMatch(db, userName, email).Some? ==>
            var id := FirstMatch(db, userName, email).value;
            id in db.users && Matches(db.users[id], userName, email) &&
            forall j :: j in db.users && j < id ==> !Matches(db.users[j], userName, email)
  {
    if FirstMatch(db, userName, email).None? {
      forall id | id in db.users ensures !Matches(db.users[id], userName, email) {
        assert id < db.nextId;
      }
    }
  }

  // ---------------------------------------------------------------------
  // Replies

  /** The source's `ApiError`: an HTTP status and a message. Errors of other
      kinds that reach the request wrapper surface as status 500. */
  datatype ApiError = ApiError(statusCode: nat, message: string)

  datatype Result<T> = Ok(value: T) | Err(error: ApiError)

  datatype TokenPair = TokenPair(accessToken: string, refreshToken: string)

  /** A cookie the response sets (None: the value `undefined`) or clears. */
  datatype CookieOp = SetCookie(name: string, value: Option<string>) | ClearCookie(name: string)

  /** The `data` of a successful response. */
  datatype Payload =
    | NoData                         // `{}`
    | Message(text: string)          // a string passed where data is expected
    | UserData(user: Option<Document>)
    | LoggedIn(user: Option<Document>, accessToken: string, refreshToken: string)
    | Refreshed(accessToken: string, refreshTokenField: Option<string>)  // the `refreshToken` key; None: undefined

  datatype Reply =
    | Success(status: nat, data: Payload, cookies: seq<CookieOp>)
    | Failure(error: ApiError)
  {
    function Status(): nat {
      if Success? then status else error.statusCode
    }
  }
}
