/**
 * The User model: its per-attribute validation rules, the `beforeCreate`
 * hook that replaces the password by its hash, and the table `User.create`
 * inserts into. Hashing and the e-mail format check belong to libraries and
 * are parameters here.
 */
module UserModel {
  import opened Wrappers
  import opened Http
  import opened Strings

  /** A stored user. The model declares no `role` column, so rows created here have none. */
  datatype User = User(id: nat, email: string, password: string, googleId: Option<string>, role: Option<string>)

  const EmailRequired := "Email is required"
  const InvalidEmailFormat := "Invalid email format"
  const EmailTaken := "Email already registered"
  const PasswordRule := "Password is required and must be at least 5 characters long"

  /**
   * The rules on `email`: `allowNull: false` reports only "Email is required"
   * for a missing value; a present value is checked by `notEmpty` (which
   * fails on an empty or whitespace-only text) and then by `isEmail`.
   */
  function EmailErrors(email: Option<string>, isEmail: string -> bool): (r: seq<string>)
    ensures r == [] <==> email.Some? && !Blank(email.value) && isEmail(email.value)
    ensures EmailRequired in r <==> email.None? || Blank(email.value)
    ensures email.None? || Blank(email.value) ==> |r| >= 1 && r[0] == EmailRequired
    ensures email.Some? && !Blank(email.value) && !isEmail(email.value) ==> r == [InvalidEmailFormat]
  {
    if email.None? then [EmailRequired]
    else (if Blank(email.value) then [EmailRequired] else []) +
         (if isEmail(email.value) then [] else [InvalidEmailFormat])
  }

  /**
   * The custom `passwordRequirement` validator. It runs even for a missing
   * value, and it is satisfied by anything when the user has a Google id.
   */
  predicate PasswordRequirement(value: Option<string>, googleId: Option<string>) {
    !(!Truthy(googleId) && (!Truthy(value) || |value.value| < 5))
  }

  /** Without a Google id the rule demands a present password of at least five characters. */
  lemma PasswordRuleWithoutGoogleId(value: Option<string>, googleId: Option<string>)
    requires !Truthy(googleId)
    ensures PasswordRequirement(value, googleId) <==> value.Some? && |value.value| >= 5
  {
  }

  /** With a non-empty Google id any password, even none, passes. */
  lemma PasswordFreeWithGoogleId(value: Option<string>, googleId: Option<string>)
    requires Truthy(googleId)
    ensures PasswordRequirement(value, googleId)
  {
  }

  /** The message of the password rule, when it fails. */
  function PasswordErrors(password: Option<string>, googleId: Option<string>): (r: seq<string>)
    ensures r == [] <==> PasswordRequirement(password, googleId)
    ensures r != [] ==> r == [PasswordRule]
  {
    if PasswordRequirement(password, googleId) then [] else [PasswordRule]
  }

  /**
   * The messages of every failed rule, in the order Sequelize records them.
   * While it walks the attributes (e-mail, then password) it records a missing
   * e-mail and the custom password validator, which throws at once; the
   * built-in `notEmpty` and `isEmail` checks of a present e-mail settle
   * afterwards and are recorded after both.
   */
  function ValidationMessages(email: Option<string>, password: Option<string>, googleId: Option<string>,
                              isEmail: string -> bool): (r: seq<string>)
    ensures multiset(r) == multiset(EmailErrors(email, isEmail) + PasswordErrors(password, googleId))
    ensures r == [] <==> EmailErrors(email, isEmail) == [] && PasswordRequirement(password, googleId)
    ensures PasswordRule in r <==> !PasswordRequirement(password, googleId)
    ensures email.None? ==> r[0] == EmailRequired
    ensures email.Some? && !PasswordRequirement(password, googleId) ==> r[0] == PasswordRule
  {
    var pw := PasswordErrors(password, googleId);
    if email.None? then
      assert EmailErrors(email, isEmail) == [EmailRequired];
      [EmailRequired] + pw
    else
      var r := pw + EmailErrors(email, isEmail);
      assert multiset(r) == multiset(EmailErrors(email, isEmail) + pw);
      assert PasswordRule !in EmailErrors(email, isEmail);
      r
  }

  /**
   * A malformed e-mail and a short password: the password's custom validator
   * is recorded during the walk, the e-mail's `isEmail` failure after it.
   */
  lemma PasswordBeforeEmailFormat(isEmail: string -> bool)
    requires !isEmail("bad")
    ensures ValidationMessages(Some("bad"), Some("abc"), None, isEmail) == [PasswordRule, InvalidEmailFormat]
  {
    assert !JsWhitespace("bad"[0]);
  }

  /** The properties of bcrypt the lemmas take as hypotheses: a hash differs from its input, and only the input matches it. */
  ghost predicate HashSound(hash: string -> string, compare: (string, string) -> bool) {
    (forall p :: hash(p) != p && compare(p, hash(p))) &&
    (forall p, q :: p != q ==> !compare(q, hash(p)))
  }

  /** The users table; `create` validates, runs `beforeCreate`, then inserts under a fresh id. */
  class UserTable {
    var rows: seq<User>
    var nextId: nat

    /** Ids are fresh and increasing, and the unique index on `email` holds. */
    ghost predicate Valid()
      reads this
    {
      (forall i :: 0 <= i < |rows| ==> rows[i].id < nextId) &&
      (forall i, j :: 0 <= i < j < |rows| ==> rows[i].id < rows[j].id && rows[i].email != rows[j].email)
    }

    constructor ()
      ensures Valid() && rows == [] && nextId == 1
    {
      rows := [];
      nextId := 1;
    }

    /** Whether some row already has this e-mail (what the unique index checks). */
    function EmailTakenBy(email: string): (taken: bool)
      reads this
      ensures taken <==> exists i :: 0 <= i < |rows| && rows[i].email == email
    {
      exists i :: 0 <= i < |rows| && rows[i].email == email
    }

    /**
     * `User.create({ email, password })` as the registration handler calls it
     * (no Google id). Validation runs first, then the hook hashes the password,
     * then the insert may hit the unique index.
     */
    method Create(email: Option<string>, password: Option<string>, hash: string -> string, isEmail: string -> bool)
      returns (r: Result<User, Error>)
      requires Valid()
      modifies this
      ensures Valid()
      ensures var msgs := ValidationMessages(email, password, None, isEmail);
        if msgs != [] then r == Failure(ValidationError(msgs)) && unchanged(this)
        else if old(EmailTakenBy(email.value)) then
          r == Failure(Error("SequelizeUniqueConstraintError", None, None, [EmailTaken])) && unchanged(this)
        else
          r == Success(User(old(nextId), email.value, hash(password.value), None, None)) &&
          rows == old(rows) + [r.value] && nextId == old(nextId) + 1
    {
      var msgs := ValidationMessages(email, password, None, isEmail);
      if msgs != [] {
        return Failure(ValidationError(msgs));
      }
      var user := User(nextId, email.value, password.value, None, None);
      // beforeCreate: the plain text is overwritten by its hash before the insert
      user := user.(password := hash(user.password));
      if EmailTakenBy(user.email) {
        return Failure(Error("SequelizeUniqueConstraintError", None, None, [EmailTaken]));
      }
      ghost var before := rows;
      rows := rows + [user];
      nextId := nextId + 1;
      r := Success(user);
      forall i, j | 0 <= i < j < |rows|
        ensures rows[i].id < rows[j].id && rows[i].email != rows[j].email
      {
        if j == |before| {
          assert rows[i] == before[i];
        }
      }
    }
  }

  /**
   * What the tests check of a freshly created user: the password column of
   * the row `Create` appends (`hash` of the plain text) differs from the plain
   * text, matches it, and matches no other password.
   */
  lemma StoredPasswordIsHash(u: User, hash: string -> string, compare: (string, string) -> bool,
                             plain: string, wrong: string)
    requires HashSound(hash, compare)
    requires u.password == hash(plain)
    requires wrong != plain
    ensures u.password != plain
    ensures compare(plain, u.password)
    ensures !compare(wrong, u.password)
  {
  }
}
