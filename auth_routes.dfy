/**
 * The `/api/auth` handlers over the users table. bcrypt and
 * express-validator's `isEmail` are uninterpreted and arrive bundled as
 * `Primitives`; jsonwebtoken is modelled symbolically.
 */
module AuthRoutes {
  import opened Wrappers
  import opened Http
  import opened UserModel
  import Store

  datatype Primitives = Primitives(
    isEmail: string -> bool,
    /** `bcrypt.hash(_, salt)` with the salt `genSalt(10)` produced for this call. */
    hash: string -> string,
    /** `bcrypt.compare(plaintext, storedHash)`. */
    compare: (string, string) -> bool)

  // ---------------------------------------------------------------- tokens

  /** `expiresIn: '7d'`, in the seconds jsonwebtoken counts in. */
  const TokenLifetime: int := 7 * 24 * 60 * 60

  /** The signed payload: `{ id }` plus the `iat` and `exp` jsonwebtoken adds. */
  datatype Claims = Claims(id: nat, iat: int, exp: int)

  /** A token is its claims signed with a key; only a holder of the key can produce one. */
  datatype Token = Signed(claims: Claims, key: string)

  /** `generateToken(id)`: sign `{ id }` with the process secret, issued now, expiring seven days later. */
  function GenerateToken(secret: string, id: nat, nowSeconds: int): (t: Token)
    ensures t.claims.id == id && t.key == secret
    ensures t.claims.iat == nowSeconds && t.claims.exp - t.claims.iat == 604800
  {
    Signed(Claims(id, nowSeconds, nowSeconds + TokenLifetime), secret)
  }

  /** jsonwebtoken's `verify`: the signature must be the secret's and `now` must be before `exp`. */
  function VerifyToken(secret: string, t: Token, nowSeconds: int): Option<nat> {
    if t.key == secret && nowSeconds < t.claims.exp then Some(t.claims.id) else None
  }

  /**
   * A token issued for `id` names `id` and nobody else for exactly seven
   * days, and no token signed with another key is ever accepted.
   */
  lemma TokenRoundTrip(secret: string, other: string, id: nat, issued: int, now: int)
    requires other != secret
    ensures VerifyToken(secret, GenerateToken(secret, id, issued), now)
            == if now < issued + 604800 then Some(id) else None
    ensures VerifyToken(secret, GenerateToken(other, id, issued), now) == None
  {
  }

  // ---------------------------------------------------------------- register

  /** A register body; an absent key is "" because express-validator checks `undefined` as "". */
  datatype RegisterBody = RegisterBody(name: string, email: string, password: string)

  /** The success body of register and login: identity and token, and never the password. */
  datatype AuthBody = AuthBody(id: nat, name: string, email: string, token: Token)

  const MinPasswordLength: nat := 6
  const UserExists: string := "User already exists with that email"
  const InvalidCredentials: string := "Invalid credentials"

  /** The fields of the chain of lines 18-20, in the order it checks them. */
  const RegisterChain: seq<string> := ["name", "email", "password"]

  /** The chain of lines 18-20, one error per failing check, in chain order. */
  function ValidateRegister(b: RegisterBody, isEmail: string -> bool): (errs: seq<FieldError>)
    ensures errs == [] <==> b.name != "" && isEmail(b.email) && |b.password| >= MinPasswordLength
    ensures FieldError("name", "Name is required") in errs <==> b.name == ""
    ensures FieldError("email", "Please include a valid email") in errs <==> !isEmail(b.email)
    ensures FieldError("password", "Password must be at least 6 characters") in errs
            <==> |b.password| < MinPasswordLength
    ensures forall e :: e in errs ==>
      e in {FieldError("name", "Name is required"), FieldError("email", "Please include a valid email"),
            FieldError("password", "Password must be at least 6 characters")}
    ensures |errs| == (if b.name != "" then 0 else 1) + (if isEmail(b.email) then 0 else 1)
                      + (if |b.password| >= MinPasswordLength then 0 else 1)
    ensures InChainOrder(RegisterChain, errs)
  {
    (if b.name != "" then [] else [FieldError("name", "Name is required")])
    + (if isEmail(b.email) then [] else [FieldError("email", "Please include a valid email")])
    + (if |b.password| >= MinPasswordLength then []
       else [FieldError("password", "Password must be at least 6 characters")])
  }

  /**
   * POST `/register`: invalid input answers 400 with the errors, a taken
   * e-mail answers 400 with a message, both leaving the table untouched;
   * otherwise exactly one user is added under a fresh id with the hashed
   * password, and 201 carries its identity and a token for it.
   */
  method Register(db: Store.Db, b: RegisterBody, prim: Primitives, secret: string, nowSeconds: int)
    returns (resp: Response<AuthBody>)
    requires db.Valid()
    modifies db
    ensures db.Valid() && db.expenses == old(db.expenses)
    ensures ValidateRegister(b, prim.isEmail) != [] ==>
      resp == Invalid(ValidateRegister(b, prim.isEmail)) && unchanged(db)
    ensures ValidateRegister(b, prim.isEmail) == [] && EmailTaken(old(db.users), b.email) ==>
      resp == Failure(400, UserExists) && unchanged(db)
    ensures ValidateRegister(b, prim.isEmail) == [] && !EmailTaken(old(db.users), b.email) ==>
      var id := old(db.nextUserId);
      var u := User(id, b.name, b.email, prim.hash(b.password));
      if UserModel.FitsColumns(u) then
        && resp == Success(201, AuthBody(id, b.name, b.email, GenerateToken(secret, id, nowSeconds)))
        && id !in old(db.users) && db.users == old(db.users)[id := u]
      else resp == Failure(500, ServerError) && unchanged(db)
  {
    var errs := ValidateRegister(b, prim.isEmail);
    if errs != [] {
      return Invalid(errs);
    }
    if EmailTaken(db.users, b.email) {
      return Failure(400, UserExists);
    }
    var created := db.CreateUser(b.name, b.email, b.password, prim.isEmail, prim.hash);
    if created.Inserted? {
      var u := created.row;
      resp := Success(201, AuthBody(u.id, u.name, u.email, GenerateToken(secret, u.id, nowSeconds)));
    } else {
      resp := Failure(500, ServerError);
    }
  }

  // ---------------------------------------------------------------- login

  /** A login body: `email` is "" when absent; `exists()` tells an absent password from a `null` one. */
  datatype LoginBody = LoginBody(email: string, password: Field<string>)

  /** The fields of the login chain, in the order it checks them. */
  const LoginChain: seq<string> := ["email", "password"]

  /** The chain of the login route, one error per failing check, in chain order. */
  function ValidateLogin(b: LoginBody, isEmail: string -> bool): (errs: seq<FieldError>)
    ensures errs == [] <==> isEmail(b.email) && !b.password.Undefined?
    ensures FieldError("email", "Please include a valid email") in errs <==> !isEmail(b.email)
    ensures FieldError("password", "Password is required") in errs <==> b.password.Undefined?
    ensures forall e :: e in errs ==>
      e in {FieldError("email", "Please include a valid email"), FieldError("password", "Password is required")}
    ensures |errs| == (if isEmail(b.email) then 0 else 1) + (if b.password.Undefined? then 1 else 0)
    ensures InChainOrder(LoginChain, errs)
  {
    (if isEmail(b.email) then [] else [FieldError("email", "Please include a valid email")])
    + (if b.password.Undefined? then [FieldError("password", "Password is required")] else [])
  }

  /**
   * POST `/login`, which only reads the table: an unknown e-mail and a wrong
   * password give the same 400 "Invalid credentials"; the right password
   * gives the register response shape for that user. A `null` password
   * passes `exists()` and makes bcrypt throw, so it ends in 500 once a user
   * is found.
   */
  method Login(db: Store.Db, b: LoginBody, prim: Primitives, secret: string, nowSeconds: int)
    returns (resp: Response<AuthBody>)
    requires db.Valid()
    ensures ValidateLogin(b, prim.isEmail) != [] ==> resp == Invalid(ValidateLogin(b, prim.isEmail))
    ensures ValidateLogin(b, prim.isEmail) == [] && !EmailTaken(db.users, b.email) ==>
      resp == Failure(400, InvalidCredentials)
    ensures ValidateLogin(b, prim.isEmail) == [] ==>
      forall id :: id in db.users && db.users[id].email == b.email ==>
        var u := db.users[id];
        resp == if b.password.Null? then Failure(500, ServerError)
          else if MatchPassword(u, b.password.value, prim.compare)
          then Success(200, AuthBody(u.id, u.name, u.email, GenerateToken(secret, u.id, nowSeconds)))
          else Failure(400, InvalidCredentials)
  {
    var errs := ValidateLogin(b, prim.isEmail);
    if errs != [] {
      return Invalid(errs);
    }
    if !EmailTaken(db.users, b.email) {
      return Failure(400, InvalidCredentials);
    }
    var id :| id in db.users && db.users[id].email == b.email;
    var u := db.users[id];
    if b.password.Null? {
      resp := Failure(500, ServerError);
    } else if MatchPassword(u, b.password.value, prim.compare) {
      resp := Success(200, AuthBody(u.id, u.name, u.email, GenerateToken(secret, u.id, nowSeconds)));
    } else {
      resp := Failure(400, InvalidCredentials);
    }
  }

  /**
   * Registering and then logging in with the same plaintext, at the same
   * second, yields the very body register returned, provided bcrypt's
   * `compare` accepts a plaintext against its own hash.
   */
  method RegisterThenLogin(db: Store.Db, b: RegisterBody, prim: Primitives, secret: string, nowSeconds: int)
    returns (registered: Response<AuthBody>, loggedIn: Response<AuthBody>)
    requires db.Valid()
    requires forall p :: prim.compare(p, prim.hash(p))
    modifies db
    ensures registered.Success? ==> loggedIn == Success(200, registered.value)
  {
    registered := Register(db, b, prim, secret, nowSeconds);
    loggedIn := Login(db, LoginBody(b.email, Given(b.password)), prim, secret, nowSeconds);
    if registered.Success? {
      var id := registered.value.id;
      assert id in db.users && db.users[id].email == b.email;
    }
  }

  // ---------------------------------------------------------------- me

  /** GET `/me`: the identity the auth middleware attached to the request, unchanged, with status 200. */
  function Me<T>(attached: T): (r: Response<T>)
    ensures r.Success? && r.status == 200 && r.value == attached
  {
    Success(200, attached)
  }
}
