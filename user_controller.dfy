/**
 * The user handlers: signing up, and handing out an access/refresh token
 * pair either for a user's uuid or for a valid refresh token. Tokens are
 * always signed over the masked user, whose uuid is a fixed placeholder.
 *
 * Signing and verifying tokens are uninterpreted functions (a `Jwt`
 * value); the user schema is an abstract validator. `fault` stands for the
 * database rejecting the handler's query with that message.
 */
module UserController {
  import opened Wrappers
  import opened Http

  /** A stored user: numeric id, external uuid, and the other profile columns. */
  datatype User = User(id: int, uuid: string, profile: map<string, Json>)

  const MaskedUuid := "xxxxxxxxxxxxx"

  /** `{ ...user, uuid: "xxxxxxxxxxxxx" }` */
  function Mask(u: User): User {
    u.(uuid := MaskedUuid)
  }

  /** Masking forgets the uuid and nothing else. */
  lemma MaskForgetsOnlyUuid(u: User, v: User)
    ensures Mask(u).uuid == MaskedUuid
    ensures Mask(u) == Mask(v) <==> u.id == v.id && u.profile == v.profile
    ensures Mask(Mask(u)) == Mask(u)
  {
  }

  /** The JWT helpers, left uninterpreted. */
  datatype Jwt = Jwt(
    signAccess: User -> string,
    signRefresh: User -> string,
    verifyRefresh: string -> bool,
    parseId: string -> int)

  /** The `data` of a token reply: `{ user, accessToken, refreshToken }`. */
  datatype Grant = Grant(user: User, accessToken: string, refreshToken: string)

  /** The reply data for a stored user: both tokens are signed over the masked copy. */
  function Issue(u: User, jwt: Jwt): (g: Grant)
    ensures Masked(g, jwt)
    ensures g.user.id == u.id && g.user.profile == u.profile
  {
    var safe := Mask(u);
    Grant(safe, jwt.signAccess(safe), jwt.signRefresh(safe))
  }

  /** A grant discloses no uuid, and its tokens are signed over the user it returns. */
  predicate Masked(g: Grant, jwt: Jwt) {
    && g.user.uuid == MaskedUuid
    && g.accessToken == jwt.signAccess(g.user)
    && g.refreshToken == jwt.signRefresh(g.user)
  }

  /** The unique fields a user is looked up by. */
  datatype Where = ById(id: int) | ByUuid(uuid: string)

  predicate Matches(u: User, w: Where) {
    match w
    case ById(id) => u.id == id
    case ByUuid(uuid) => u.uuid == uuid
  }

  /** Ids increase along the table and no uuid occurs twice. */
  predicate Keyed(users: seq<User>) {
    forall i, j :: 0 <= i < j < |users| ==> users[i].id < users[j].id && users[i].uuid != users[j].uuid
  }

  /** `prisma.user.findUnique({ where })` */
  function FindUnique(users: seq<User>, w: Where): (r: Option<User>)
    ensures r.Some? ==> r.value in users && Matches(r.value, w)
    ensures r.None? <==> forall u :: u in users ==> !Matches(u, w)
  {
    if users == [] then None
    else if Matches(users[0], w) then Some(users[0])
    else FindUnique(users[1..], w)
  }

  /** In a keyed table, a stored user is the one found by its id and by its uuid. */
  lemma {:induction false} FindStored(users: seq<User>, i: nat)
    requires Keyed(users) && i < |users|
    ensures FindUnique(users, ById(users[i].id)) == Some(users[i])
    ensures FindUnique(users, ByUuid(users[i].uuid)) == Some(users[i])
    decreases i
  {
    if i > 0 {
      var rest := users[1..];
      assert rest[i - 1] == users[i];
      assert Keyed(rest) by {
        forall a, b | 0 <= a < b < |rest|
          ensures rest[a].id < rest[b].id && rest[a].uuid != rest[b].uuid
        {
          assert rest[a] == users[a + 1] && rest[b] == users[b + 1];
        }
      }
      FindStored(rest, i - 1);
    }
  }

  /** getAccessToken: 404 for an unknown uuid, else 200 with a grant for the masked user. */
  function GetAccessToken(uuid: string, users: seq<User>, jwt: Jwt, fault: Option<string>): (r: Outcome<Grant>)
    ensures Uniform(r)
    ensures fault.Some? ==> r == Caught(Context("user", "getAccessToken"), fault.value)
    ensures fault.None? ==> r.Respond?
    ensures r.Respond? && r.reply.status != 200 ==>
      r == Failed(404, "User not found") && forall u :: u in users ==> u.uuid != uuid
    ensures r.Respond? && r.reply.status == 200 ==>
      var g := r.reply.body.data.value;
      && r.reply.body.message == "Tokens generated successfully"
      && Masked(g, jwt)
      && exists u :: u in users && u.uuid == uuid && g.user == Mask(u)
  {
    if fault.Some? then Caught(Context("user", "getAccessToken"), fault.value)
    else match FindUnique(users, ByUuid(uuid))
      case None => Failed(404, "User not found")
      case Some(u) => Succeeded(200, "Tokens generated successfully", Issue(u, jwt))
  }

  /**
   * getRefreshToken: the Bearer header, then the refresh token's signature,
   * then the user its payload names; 401, 401 or 404 at the first that fails.
   */
  function GetRefreshToken(header: Option<string>, users: seq<User>, jwt: Jwt, fault: Option<string>): (r: Outcome<Grant>)
    ensures Uniform(r)
    ensures BearerToken(header).None? ==> r == Failed(401, "No token provided")
    ensures BearerToken(header).Some? && !jwt.verifyRefresh(BearerToken(header).value) ==>
      r == Failed(401, "Invalid refresh token")
    ensures BearerToken(header).Some? && jwt.verifyRefresh(BearerToken(header).value) ==>
      var id := jwt.parseId(BearerToken(header).value);
      && (fault.Some? ==> r == Caught(Context("user", "getRefreshToken"), fault.value))
      && (fault.None? ==> r.Respond?)
      && (r.Respond? && r.reply.status != 200 ==>
            r == Failed(404, "User not found") && forall u :: u in users ==> u.id != id)
      && (r.Respond? && r.reply.status == 200 ==>
            var g := r.reply.body.data.value;
            && r.reply.body.message == "Tokens refreshed successfully"
            && Masked(g, jwt)
            && exists u :: u in users && u.id == id && g.user == Mask(u))
  {
    match BearerToken(header)
    case None => Failed(401, "No token provided")
    case Some(token) =>
      if !jwt.verifyRefresh(token) then Failed(401, "Invalid refresh token")
      else if fault.Some? then Caught(Context("user", "getRefreshToken"), fault.value)
      else match FindUnique(users, ById(jwt.parseId(token)))
        case None => Failed(404, "User not found")
        case Some(u) => Succeeded(200, "Tokens refreshed successfully", Issue(u, jwt))
  }

  /** Both 401 replies are decided before the user table is read. */
  lemma RefreshRejectsBeforeLookup(header: Option<string>, jwt: Jwt,
                                   users1: seq<User>, fault1: Option<string>,
                                   users2: seq<User>, fault2: Option<string>)
    requires BearerToken(header).None? || !jwt.verifyRefresh(BearerToken(header).value)
    ensures GetRefreshToken(header, users1, jwt, fault1) == GetRefreshToken(header, users2, jwt, fault2)
    ensures GetRefreshToken(header, users1, jwt, fault1).Respond?
    ensures GetRefreshToken(header, users1, jwt, fault1).reply.status == 401
  {
  }

  /**
   * Refreshing with a verified token that names a stored user hands out the
   * same grant as asking for that user's tokens by uuid.
   */
  lemma RefreshAgreesWithAccess(users: seq<User>, i: nat, token: string, jwt: Jwt)
    requires Keyed(users) && i < |users|
    requires ' ' !in token && jwt.verifyRefresh(token) && jwt.parseId(token) == users[i].id
    ensures GetRefreshToken(Some(BearerPrefix + token), users, jwt, None)
      == Succeeded(200, "Tokens refreshed successfully", GetAccessToken(users[i].uuid, users, jwt, None).reply.body.data.value)
  {
    BearerTokenOf(token);
    FindStored(users, i);
  }

  /** The user table `createUser` inserts into. */
  class UserStore {
    var rows: seq<User>
    /** The id the autoincrement column hands out next. */
    var nextId: int

    ghost predicate Valid()
      reads this
    {
      Keyed(rows) && forall i :: 0 <= i < |rows| ==> rows[i].id < nextId
    }

    constructor ()
      ensures Valid() && rows == [] && nextId == 1
    {
      rows := [];
      nextId := 1;
    }

    /**
     * createUser: 400 with the validator's first message, or 201 with the
     * stored user (uuid included). `validate` stands for the user schema and
     * `newUuid` for the uuid the database generates.
     */
    method CreateUser(body: Json, validate: Json -> Result<map<string, Json>, string>,
                      newUuid: string, fault: Option<string>) returns (r: Outcome<User>)
      requires Valid() && forall u :: u in rows ==> u.uuid != newUuid
      modifies this
      ensures Valid()
      ensures Uniform(r)
      ensures validate(body).Failure? ==>
        r == Failed(400, validate(body).error) && unchanged(this)
      ensures validate(body).Success? && fault.Some? ==>
        r == Caught(Context("user", "createUser"), fault.value) && unchanged(this)
      ensures validate(body).Success? && fault.None? ==>
        var u := User(old(nextId), newUuid, validate(body).value);
        && rows == old(rows) + [u]
        && nextId == old(nextId) + 1
        && r == Succeeded(201, "User created successfully", u)
      ensures r.Respond? && r.reply.status == 201 ==>
        && FindUnique(rows, ByUuid(newUuid)) == Some(r.reply.body.data.value)
        && FindUnique(rows, ById(r.reply.body.data.value.id)) == Some(r.reply.body.data.value)
    {
      var validation := validate(body);
      if validation.Failure? {
        return Failed(400, validation.error);
      }
      if fault.Some? {
        return Caught(Context("user", "createUser"), fault.value);
      }
      var created := User(nextId, newUuid, validation.value);
      rows := rows + [created];
      nextId := nextId + 1;
      FindStored(rows, |rows| - 1);
      r := Succeeded(201, "User created successfully", created);
    }
  }
}
