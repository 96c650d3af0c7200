/**
 * Registration and e-mail/password login. `comparePassword` and `signToken`
 * are parameters; the users table is the one of UserModel.
 */
module UserController {
  import opened Wrappers
  import opened Http
  import opened UserModel

  /** The fields of `req.body` the two handlers read. */
  datatype Credentials = Credentials(email: Option<string>, password: Option<string>)

  /** A successful login: status 200 with body `{ access_token }` and nothing else. */
  datatype LoginReply = LoginReply(status: int, access_token: string)

  const InvalidCredentials := Thrown("Unauthorized", "Invalid email/password")

  /** `User.findOne({ where: { email } })`: the first row with that e-mail. */
  function FindByEmail(rows: seq<User>, email: string): (r: Option<User>)
    ensures r.Some? ==> r.value in rows && r.value.email == email
    ensures r.None? <==> forall i :: 0 <= i < |rows| ==> rows[i].email != email
    decreases |rows|
  {
    if rows == [] then None
    else if rows[0].email == email then Some(rows[0])
    else FindByEmail(rows[1..], email)
  }

  /**
   * `login`: the guards in order (e-mail present, password present, user
   * found, password matches), then a token signed over `{ id, role }`.
   */
  function Login(rows: seq<User>, body: Credentials, compare: (string, string) -> bool,
                 sign: (nat, Option<string>) -> string): (r: Result<LoginReply, Error>)
    ensures !Truthy(body.email) ==> r == Failure(Thrown("BadRequest", "Email is required"))
    ensures Truthy(body.email) && !Truthy(body.password) ==> r == Failure(Thrown("BadRequest", "Password is required"))
    ensures r.Success? <==>
      Truthy(body.email) && Truthy(body.password) &&
      FindByEmail(rows, body.email.value).Some? &&
      compare(body.password.value, FindByEmail(rows, body.email.value).value.password)
    ensures r.Success? ==>
      var u := FindByEmail(rows, body.email.value).value;
      r.value == LoginReply(200, sign(u.id, u.role))
  {
    if !Truthy(body.email) then Failure(Thrown("BadRequest", "Email is required"))
    else if !Truthy(body.password) then Failure(Thrown("BadRequest", "Password is required"))
    else
      match FindByEmail(rows, body.email.value)
      case None => Failure(InvalidCredentials)
      case Some(u) =>
        if !compare(body.password.value, u.password) then Failure(InvalidCredentials)
        else Success(LoginReply(200, sign(u.id, u.role)))
  }

  /**
   * An unknown e-mail and a wrong password fail identically, so a caller cannot
   * tell which of the two happened.
   */
  lemma UnknownEmailLooksLikeWrongPassword(rows: seq<User>, body: Credentials, compare: (string, string) -> bool,
                                          sign: (nat, Option<string>) -> string)
    requires Truthy(body.email) && Truthy(body.password)
    requires FindByEmail(rows, body.email.value).None? ||
             !compare(body.password.value, FindByEmail(rows, body.email.value).value.password)
    ensures Login(rows, body, compare, sign) == Failure(Thrown("Unauthorized", "Invalid email/password"))
  {
  }

  /** A user who is the only one with their e-mail is the one the lookup finds. */
  lemma {:induction false} FindsUniqueEmail(rows: seq<User>, u: User)
    requires u in rows
    requires forall i :: 0 <= i < |rows| && rows[i].email == u.email ==> rows[i] == u
    ensures FindByEmail(rows, u.email) == Some(u)
    decreases |rows|
  {
    if rows[0] != u {
      assert u in rows[1..];
      FindsUniqueEmail(rows[1..], u);
    }
  }

  /**
   * Register, then log in: with the password just registered the login
   * succeeds with a token for the new user; with any other password it fails
   * with the uniform credentials error.
   */
  lemma LoginAfterCreate(rows: seq<User>, u: User, plain: string, wrong: string,
                         hash: string -> string, compare: (string, string) -> bool,
                         sign: (nat, Option<string>) -> string)
    requires HashSound(hash, compare)
    requires forall i :: 0 <= i < |rows| ==> rows[i].email != u.email
    requires u.email != "" && plain != "" && wrong != "" && wrong != plain
    requires u.password == hash(plain)
    ensures Login(rows + [u], Credentials(Some(u.email), Some(plain)), compare, sign) ==
            Success(LoginReply(200, sign(u.id, u.role)))
    ensures Login(rows + [u], Credentials(Some(u.email), Some(wrong)), compare, sign) ==
            Failure(Thrown("Unauthorized", "Invalid email/password"))
  {
    var all := rows + [u];
    assert all[|rows|] == u;
    FindsUniqueEmail(all, u);
  }

  /**
   * `register`: passes exactly `{ email, password }` to `User.create` and
   * answers 201 with a message naming the stored e-mail; any failure is
   * forwarded unchanged and no status is set.
   */
  method Register(users: UserTable, body: Credentials, hash: string -> string, isEmail: string -> bool)
    returns (r: Result<Reply, Error>)
    requires users.Valid()
    modifies users
    ensures users.Valid()
    ensures var msgs := ValidationMessages(body.email, body.password, None, isEmail);
      if msgs != [] then r == Failure(ValidationError(msgs)) && unchanged(users)
      else if old(users.EmailTakenBy(body.email.value)) then
        r == Failure(Error("SequelizeUniqueConstraintError", None, None, [EmailTaken])) && unchanged(users)
      else
        r == Success(Reply(201, "Successfully created account with email " + body.email.value)) &&
        users.rows == old(users.rows) + [User(old(users.nextId), body.email.value, hash(body.password.value), None, None)] &&
        users.nextId == old(users.nextId) + 1
  {
    var created := users.Create(body.email, body.password, hash, isEmail);
    match created
    case Failure(e) =>
      r := Failure(e);
    case Success(user) =>
      r := Success(Reply(201, "Successfully created account with email " + user.email));
  }
}
