/** Account handlers (backend/controllers/authController.js): token issue,
    login, signup and the current-user lookup, over the users and farms
    tables. Password hashing (bcrypt), hash comparison and token signing
    (jsonwebtoken) are oracles passed in as functions; the clock reading that
    stamps a token is the parameter `now` (seconds). */
module AuthController {
  import opened Values
  import opened Tables
  import opened AuthMiddleware

  /** `expiresIn: "1d"`, in seconds. */
  const OneDay := 86400

  const CredentialsRequired := "Email and password are required"
  const UnknownEmail := "No account found with that email"
  const WrongPassword := "Incorrect password"
  const FieldsRequired := "Fields name, email, password, and role are required"
  const EmailRegistered := "Email already registered"
  const ManagerNeedsFarm := "Farm ID is required for managers."
  const UserNotFound := "User not found"

  /** The payload `generateToken` signs: the user's id, role and farm_id;
      the signer adds the issue time and an expiry one day later. */
  function TokenClaims(u: UserRow, now: int): (c: Claims)
    ensures c.iat == now && c.exp == now + OneDay
    ensures Normalize(c) == Identity(u.id, u.role, if Truthy(u.farmId) then u.farmId else None)
  {
    Claims(u.id, u.role, u.farmId, None, now, now + OneDay)
  }

  /** `generateToken(user)`. */
  function GenerateToken(u: UserRow, now: int, sign: Claims -> string): string {
    sign(TokenClaims(u, now))
  }

  /** The user object of login and signup replies. It has no field for the
      password hash, so no reply can carry one. */
  datatype PublicUser = PublicUser(id: int, name: string, email: string, role: string, farm_id: FarmRef)

  /** The body `{ token, user }` of a successful login or signup. */
  datatype Session = Session(token: string, user: PublicUser)

  /** The reply of /me: the columns `id, username, email, role, farm_id`. */
  datatype UserRecord = UserRecord(id: int, username: string, email: string, role: string, farm_id: FarmRef)

  /** `name` is taken from the stored `username`. */
  function Public(u: UserRow): PublicUser {
    PublicUser(u.id, u.username, u.email, u.role, u.farmId)
  }

  /** `rows[0]` of `SELECT * FROM users WHERE email = $1`. */
  function FindByEmail(users: seq<UserRow>, email: string): (r: Option<UserRow>)
    ensures r.None? <==> !EmailTaken(users, email)
    ensures r.Some? ==> r.value in users && r.value.email == email
    ensures r.Some? && UniqueEmails(users) ==>
              forall i :: 0 <= i < |users| && users[i].email == email ==> users[i] == r.value
  {
    if users == [] then None
    else if users[0].email == email then Some(users[0])
    else
      var r := FindByEmail(users[1..], email);
      assert EmailTaken(users, email) ==> EmailTaken(users[1..], email) by {
        if EmailTaken(users, email) {
          var i :| 0 <= i < |users| && users[i].email == email;
          assert users[1..][i - 1] == users[i];
        }
      }
      assert EmailTaken(users[1..], email) ==> EmailTaken(users, email) by {
        if EmailTaken(users[1..], email) {
          var i :| 0 <= i < |users[1..]| && users[1..][i].email == email;
          assert users[i + 1] == users[1..][i];
        }
      }
      assert r.Some? && UniqueEmails(users) ==>
               forall i :: 0 <= i < |users| && users[i].email == email ==> users[i] == r.value by {
        if r.Some? && UniqueEmails(users) {
          forall i | 0 <= i < |users| && users[i].email == email ensures users[i] == r.value {
            assert i > 0;
            assert users[1..][i - 1] == users[i];
          }
        }
      }
      r
  }

  /** `rows[0]` of `SELECT ... FROM users WHERE id = $1`. */
  function FindById(users: seq<UserRow>, id: int): (r: Option<UserRow>)
    ensures r.None? <==> forall i :: 0 <= i < |users| ==> users[i].id != id
    ensures r.Some? ==> r.value in users && r.value.id == id
  {
    if users == [] then None
    else if users[0].id == id then Some(users[0])
    else
      var r := FindById(users[1..], id);
      assert r.None? ==> forall i :: 0 <= i < |users| ==> users[i].id != id by {
        if r.None? {
          forall i | 0 <= i < |users| ensures users[i].id != id {
            if i > 0 {
              assert users[i] == users[1..][i - 1];
            }
          }
        }
      }
      r
  }

  /** `login`: both fields are checked before any lookup; an unknown email
      and a wrong password are told apart by their messages; only a stored
      user whose hash matches the password gets a token. */
  function Login(users: seq<UserRow>, email: Option<string>, password: Option<string>,
                 matches: (string, string) -> bool, sign: Claims -> string, now: int): (r: Reply<Session>)
    ensures r.Fail? ==> r.status == 400
    ensures r.Ok? ==> r.status == 200
    ensures !Filled(email) || !Filled(password) ==> r == Fail(400, CredentialsRequired)
    ensures r == Fail(400, UnknownEmail) <==>
              Filled(email) && Filled(password) && !EmailTaken(users, email.value)
    ensures UniqueEmails(users) ==>
              (r == Fail(400, WrongPassword) <==>
                 Filled(email) && Filled(password) &&
                 exists i :: 0 <= i < |users| && users[i].email == email.value &&
                             !matches(password.value, users[i].passwordHash))
    ensures UniqueEmails(users) ==>
              (r.Ok? <==>
                 Filled(email) && Filled(password) &&
                 exists i :: 0 <= i < |users| && users[i].email == email.value &&
                             matches(password.value, users[i].passwordHash))
    ensures r.Ok? ==>
              exists i :: 0 <= i < |users| && users[i].email == email.value &&
                          matches(password.value, users[i].passwordHash) &&
                          r.body == Session(GenerateToken(users[i], now, sign), Public(users[i]))
  {
    if !Filled(email) || !Filled(password) then Fail(400, CredentialsRequired)
    else
      match FindByEmail(users, email.value)
      case None => Fail(400, UnknownEmail)
      case Some(u) =>
        assert exists i :: 0 <= i < |users| && users[i] == u;
        if !matches(password.value, u.passwordHash) then Fail(400, WrongPassword)
        else Ok(200, Session(GenerateToken(u, now, sign), Public(u)))
  }

  /** `getCurrentUser`: the stored user whose id is the token's id, or 404. */
  function GetCurrentUser(users: seq<UserRow>, user: Identity): (r: Reply<UserRecord>)
    ensures r.Fail? <==> forall i :: 0 <= i < |users| ==> users[i].id != user.id
    ensures r.Fail? ==> r == Fail(404, UserNotFound)
    ensures r.Ok? ==>
              r.status == 200 &&
              exists i :: 0 <= i < |users| && users[i].id == user.id &&
                          r.body == UserRecord(users[i].id, users[i].username, users[i].email,
                                               users[i].role, users[i].farmId)
  {
    match FindById(users, user.id)
    case None => Fail(404, UserNotFound)
    case Some(u) =>
      assert exists i :: 0 <= i < |users| && users[i] == u;
      Ok(200, UserRecord(u.id, u.username, u.email, u.role, u.farmId))
  }

  /** The four mandatory signup fields are all truthy. */
  predicate FieldsFilled(req: SignupRequest) {
    Filled(req.name) && Filled(req.email) && Filled(req.password) && Filled(req.role)
  }

  /** The body of POST /signup. */
  datatype SignupRequest = SignupRequest(name: Option<string>, email: Option<string>,
                                         password: Option<string>, role: Option<string>,
                                         farm_id: FarmRef)

  /** The users table after a concurrent signup's insert attempt. */
  function AfterRival(users: seq<UserRow>, next: int, rival: Option<NewUser>): seq<UserRow> {
    match rival
    case None => users
    case Some(v) =>
      if EmailTaken(users, v.email) then users
      else users + [UserRow(next, v.username, v.email, v.passwordHash, v.role, v.farmId)]
  }

  /** `signup`. The checks run in the source's order: mandatory fields,
      then the email pre-check, then the role rules. An owner gets a farm
      named after them, created before the user row; a manager must name a
      farm; any other role keeps the farm id it sent. `rival` is a signup
      from another request that commits between this request's pre-check and
      its own insert; if it took the same email, the store's unique
      constraint refuses the insert and the reply is the same "Email already
      registered" (an owner's farm is then already stored). */
  method Signup(db: Database, req: SignupRequest, hash: string -> string, sign: Claims -> string,
                now: int, rival: Option<NewUser>)
    returns (r: Reply<Session>)
    requires db.Valid()
    modifies db
    ensures db.Valid()
    ensures db.prices == old(db.prices) && db.production == old(db.production)
    ensures !FieldsFilled(req) ==>
              r == Fail(400, FieldsRequired) &&
              db.users == old(db.users) && db.farms == old(db.farms)
    ensures FieldsFilled(req) && EmailTaken(old(db.users), req.email.value) ==>
              r == Fail(400, EmailRegistered) &&
              db.users == old(db.users) && db.farms == old(db.farms)
    ensures FieldsFilled(req) && !EmailTaken(old(db.users), req.email.value) ==>
              if req.role.value == "owner" then
                db.farms == old(db.farms) + [FarmRow(old(db.nextFarmId), req.name.value)]
              else db.farms == old(db.farms)
    ensures FieldsFilled(req) && !EmailTaken(old(db.users), req.email.value) &&
            req.role.value == "manager" && !Truthy(req.farm_id) ==>
              r == Fail(400, ManagerNeedsFarm) && db.users == old(db.users)
    ensures FieldsFilled(req) && !EmailTaken(old(db.users), req.email.value) &&
            !(req.role.value == "manager" && !Truthy(req.farm_id)) ==>
              var mid := AfterRival(old(db.users), old(db.nextUserId), rival);
              var id := if rival.Some? then old(db.nextUserId) + 1 else old(db.nextUserId);
              var farm := if req.role.value == "owner" then Some(old(db.nextFarmId)) else req.farm_id;
              var row := UserRow(id, req.name.value, req.email.value, hash(req.password.value),
                                 req.role.value, farm);
              if EmailTaken(mid, req.email.value) then
                r == Fail(400, EmailRegistered) && db.users == mid
              else
                r == Ok(200, Session(GenerateToken(row, now, sign), Public(row))) &&
                db.users == mid + [row]
  {
    if !FieldsFilled(req) {
      return Fail(400, FieldsRequired);
    }
    var name, email, password, role := req.name.value, req.email.value, req.password.value, req.role.value;

    if EmailTaken(db.users, email) {
      return Fail(400, EmailRegistered);
    }

    var assignedFarmId := req.farm_id;
    if role == "owner" {
      var id := db.InsertFarm(name);
      assignedFarmId := Some(id);
    }

    if role == "manager" && !Truthy(req.farm_id) {
      return Fail(400, ManagerNeedsFarm);
    }

    var hashedPassword := hash(password);

    if rival.Some? {
      var _ := db.InsertUser(rival.value);
    }
    var inserted := db.InsertUser(NewUser(name, email, hashedPassword, role, assignedFarmId));
    match inserted
    case UniqueViolation =>
      r := Fail(400, EmailRegistered);
    case Inserted(newUser) =>
      r := Ok(200, Session(GenerateToken(newUser, now, sign), Public(newUser)));
  }

  /** A token issued to a user passes the gate (given a verifier that gives
      back what was signed, and a token without spaces, as JWTs are) and
      yields that user's id, role and farm; a falsy farm_id comes back as no
      farm at all, since the older claim name is absent. */
  lemma IssuedTokenAuthenticates(u: UserRow, now: int, sign: Claims -> string,
                                 verify: string -> Option<Claims>)
    requires ' ' !in GenerateToken(u, now, sign)
    requires verify(GenerateToken(u, now, sign)) == Some(TokenClaims(u, now))
    ensures Authenticate(Some("Bearer " + GenerateToken(u, now, sign)), verify) ==
              Accept(Identity(u.id, u.role, if Truthy(u.farmId) then u.farmId else None))
  {
    var h := "Bearer " + GenerateToken(u, now, sign);
    assert h[..7] == "Bearer " && h[7..] == GenerateToken(u, now, sign);
  }

  /** The token depends on nothing but the user's id, role and farm_id and
      the time: the password hash, username and email never enter it. */
  lemma TokenCarriesNoSecrets(u: UserRow, v: UserRow, now: int, sign: Claims -> string)
    requires u.id == v.id && u.role == v.role && u.farmId == v.farmId
    ensures GenerateToken(u, now, sign) == GenerateToken(v, now, sign)
  {
  }

  /** Login after signup: a stored user whose hash is the hash of `password`
      logs in with that password (given a comparison that accepts a
      password against its own hash) and gets the reply signup gave. */
  lemma LoginFindsStoredUser(users: seq<UserRow>, k: nat, password: string, hash: string -> string,
                             matches: (string, string) -> bool, sign: Claims -> string, now: int)
    requires UniqueEmails(users) && k < |users|
    requires users[k].email != "" && password != ""
    requires users[k].passwordHash == hash(password) && matches(password, hash(password))
    ensures Login(users, Some(users[k].email), Some(password), matches, sign, now) ==
              Ok(200, Session(GenerateToken(users[k], now, sign), Public(users[k])))
  {
    var found := FindByEmail(users, users[k].email);
    assert found == Some(users[k]);
  }

  /** Unknown email and wrong password are distinguishable by their messages. */
  lemma LoginFailuresDistinguishable(users: seq<UserRow>, email: string, password: string,
                                     matches: (string, string) -> bool, sign: Claims -> string,
                                     now: int, k: nat)
    requires UniqueEmails(users) && k < |users| && email != "" && password != ""
    requires users[k].email == email && !matches(password, users[k].passwordHash)
    ensures Login(users, Some(email), Some(password), matches, sign, now) == Fail(400, WrongPassword)
    ensures Login([], Some(email), Some(password), matches, sign, now) == Fail(400, UnknownEmail)
    ensures WrongPassword != UnknownEmail
  {
  }
}
