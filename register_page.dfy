/**
 * The logic of the registration page: the password-strength score, its label
 * and colour, the browser's constraint validation that gates a submit, the
 * checks `handleRegister` makes before posting, and the form state
 * `handleChange` edits. Rendering, alerts and navigation are not modelled.
 */
module RegisterPage {
  import opened Wrappers
  import opened Strings

  /** `/[a-z]/`, `/[A-Z]/` and `/\d/`: ASCII letters and digits only. */
  predicate IsLower(c: char) { 'a' <= c <= 'z' }
  predicate IsUpper(c: char) { 'A' <= c <= 'Z' }

  predicate HasLower(p: string) { exists i :: 0 <= i < |p| && IsLower(p[i]) }
  predicate HasUpper(p: string) { exists i :: 0 <= i < |p| && IsUpper(p[i]) }
  predicate HasDigit(p: string) { exists i :: 0 <= i < |p| && IsDigit(p[i]) }

  /** The four criteria, each worth 25 points. */
  function Criteria(p: string): seq<bool> {
    [|p| >= 6, |p| >= 8, HasLower(p) && HasUpper(p), HasDigit(p)]
  }

  function Point(b: bool): nat { if b then 1 else 0 }

  function CountTrue(bs: seq<bool>): (n: nat)
    ensures n <= |bs|
  {
    if bs == [] then 0 else Point(bs[0]) + CountTrue(bs[1..])
  }

  /** Four flags count one by one. */
  lemma CountFour(bs: seq<bool>)
    requires |bs| == 4
    ensures CountTrue(bs) == Point(bs[0]) + Point(bs[1]) + Point(bs[2]) + Point(bs[3])
  {
    var b1 := bs[1..];
    var b2 := b1[1..];
    var b3 := b2[1..];
    assert b3[1..] == [];
    assert CountTrue(b3) == Point(bs[3]);
    assert CountTrue(b2) == Point(bs[2]) + Point(bs[3]);
    assert CountTrue(b1) == Point(bs[1]) + Point(bs[2]) + Point(bs[3]);
  }

  /** The strength of a password: 25 points per criterion met. */
  function Score(p: string): (s: int)
    ensures 0 <= s <= 100 && s % 25 == 0
    ensures s == 25 * (Point(|p| >= 6) + Point(|p| >= 8) + Point(HasLower(p) && HasUpper(p)) + Point(HasDigit(p)))
  {
    CountFour(Criteria(p));
    25 * CountTrue(Criteria(p))
  }

  /** `checkPasswordStrength`: the accumulator adds 25 for each criterion, in order. */
  method CheckPasswordStrength(password: string) returns (strength: int)
    ensures strength == Score(password)
    ensures 0 <= strength <= 100 && strength % 25 == 0
  {
    strength := 0;
    if |password| >= 6 {
      strength := strength + 25;
    }
    if |password| >= 8 {
      strength := strength + 25;
    }
    if HasLower(password) && HasUpper(password) {
      strength := strength + 25;
    }
    if HasDigit(password) {
      strength := strength + 25;
    }
  }

  /** Typing one more character never lowers the strength. */
  lemma ScoreGrows(p: string, c: char)
    ensures Score(p) <= Score(p + [c])
  {
    var q := p + [c];
    assert forall i :: 0 <= i < |p| ==> q[i] == p[i];
    assert HasLower(p) ==> HasLower(q);
    assert HasUpper(p) ==> HasUpper(q);
    assert HasDigit(p) ==> HasDigit(q);
  }

  /** A password shorter than the six characters `handleRegister` demands misses both length points. */
  lemma ShortPasswordsScoreLow(p: string)
    requires |p| < 6
    ensures Score(p) <= 50
  {
  }

  /** `getPasswordStrengthText`. */
  function StrengthText(strength: int): (t: string)
    ensures t == "" <==> strength == 0
    ensures t == "Weak" <==> strength != 0 && strength <= 25
    ensures t == "Fair" <==> 25 < strength <= 50
    ensures t == "Good" <==> 50 < strength <= 75
    ensures t == "Strong" <==> strength > 75
  {
    if strength == 0 then ""
    else if strength <= 25 then "Weak"
    else if strength <= 50 then "Fair"
    else if strength <= 75 then "Good"
    else "Strong"
  }

  /** `getPasswordStrengthColor`: an empty score shares the colour of a weak one. */
  function StrengthColor(strength: int): (c: string)
    ensures c == "danger" <==> strength <= 25
    ensures c == "warning" <==> 25 < strength <= 50
    ensures c == "info" <==> 50 < strength <= 75
    ensures c == "success" <==> strength > 75
  {
    if strength <= 25 then "danger"
    else if strength <= 50 then "warning"
    else if strength <= 75 then "info"
    else "success"
  }

  /** Label and colour agree on every score a password can have. */
  lemma LabelsOfScores(p: string)
    ensures var s := Score(p);
      (s == 0 && StrengthText(s) == "" && StrengthColor(s) == "danger") ||
      (s == 25 && StrengthText(s) == "Weak" && StrengthColor(s) == "danger") ||
      (s == 50 && StrengthText(s) == "Fair" && StrengthColor(s) == "warning") ||
      (s == 75 && StrengthText(s) == "Good" && StrengthColor(s) == "info") ||
      (s == 100 && StrengthText(s) == "Strong" && StrengthColor(s) == "success")
  {
    var s := Score(p);
    assert s == 0 || s == 25 || s == 50 || s == 75 || s == 100;
  }

  /** What `handleRegister` does once the form is submitted. */
  datatype Submission =
    | Alert(title: string, text: string)
    | Post(email: string, password: string)

  /**
   * The checks before `api.post('/register')`: a mismatched confirmation is
   * reported before a short password, and neither reaches the request.
   */
  function PreSubmit(email: string, password: string, confirmPassword: string): (r: Submission)
    ensures password != confirmPassword ==> r == Alert("Oops...", "Passwords do not match!")
    ensures password == confirmPassword && |password| < 6 ==>
      r == Alert("Weak Password", "Password must be at least 6 characters long!")
    ensures r.Post? <==> password == confirmPassword && |password| >= 6
    ensures r.Post? ==> r == Post(email, password)
  {
    if password != confirmPassword then Alert("Oops...", "Passwords do not match!")
    else if |password| < 6 then Alert("Weak Password", "Password must be at least 6 characters long!")
    else Post(email, password)
  }

  /**
   * The submit button's `disabled`: while loading, or when a non-empty
   * password differs from its confirmation.
   */
  function SubmitDisabled(isLoading: bool, password: string, confirmPassword: string): (d: bool)
    ensures !d <==> !isLoading && (password == "" || password == confirmPassword)
  {
    isLoading || (password != "" && password != confirmPassword)
  }

  /**
   * The browser's constraint validation, which runs before `onSubmit` fires:
   * the e-mail, password and confirmation inputs are `required`, the e-mail
   * input has `type="email"` (its format rule is the parameter `emailValid`),
   * and the terms checkbox is `required`, so it must be ticked.
   */
  predicate ConstraintsPass(email: string, password: string, confirmPassword: string, agreed: bool,
                            emailValid: string -> bool) {
    email != "" && emailValid(email) && password != "" && confirmPassword != "" && agreed
  }

  /**
   * Submitting the form, by the button or by Enter: nothing happens while the
   * button is disabled or while a constraint fails; otherwise `handleRegister` runs.
   */
  function Submit(isLoading: bool, email: string, password: string, confirmPassword: string, agreed: bool,
                  emailValid: string -> bool): (r: Option<Submission>)
    ensures r.Some? <==> !SubmitDisabled(isLoading, password, confirmPassword) &&
                         ConstraintsPass(email, password, confirmPassword, agreed, emailValid)
    ensures r.Some? ==> r.value == PreSubmit(email, password, confirmPassword)
  {
    if SubmitDisabled(isLoading, password, confirmPassword) ||
       !ConstraintsPass(email, password, confirmPassword, agreed, emailValid) then None
    else Some(PreSubmit(email, password, confirmPassword))
  }

  /**
   * The mismatch alert cannot be reached: a submitted form has a non-empty
   * password, and the button is enabled only when it equals its confirmation.
   */
  lemma MismatchAlertUnreachable(isLoading: bool, email: string, password: string, confirmPassword: string,
                                 agreed: bool, emailValid: string -> bool)
    ensures Submit(isLoading, email, password, confirmPassword, agreed, emailValid) !=
            Some(Alert("Oops...", "Passwords do not match!"))
  {
  }

  /** A submitted form either posts or shows the short-password alert, the latter exactly below six characters. */
  lemma SubmittedOutcome(isLoading: bool, email: string, password: string, confirmPassword: string,
                         agreed: bool, emailValid: string -> bool)
    requires Submit(isLoading, email, password, confirmPassword, agreed, emailValid).Some?
    ensures var r := Submit(isLoading, email, password, confirmPassword, agreed, emailValid).value;
      (r == Post(email, password) <==> |password| >= 6) &&
      (r == Alert("Weak Password", "Password must be at least 6 characters long!") <==> |password| < 6)
  {
  }

  /** The short-password alert is reachable: a valid e-mail, the terms ticked, and a matching five-letter password. */
  lemma ShortPasswordAlertReachable(emailValid: string -> bool)
    requires emailValid("a@b.c")
    ensures Submit(false, "a@b.c", "abcde", "abcde", true, emailValid) ==
            Some(Alert("Weak Password", "Password must be at least 6 characters long!"))
  {
  }

  /** The component's state: `formData` keyed by input name, the loading flag and the shown strength. */
  class RegisterForm {
    var formData: map<string, string>
    var isLoading: bool
    var passwordStrength: int

    /** The three inputs are always present in `formData`. */
    ghost predicate Valid()
      reads this
    {
      "email" in formData && "password" in formData && "confirmPassword" in formData
    }

    constructor ()
      ensures Valid() && formData == map["email" := "", "password" := "", "confirmPassword" := ""]
      ensures !isLoading && passwordStrength == 0
    {
      formData := map["email" := "", "password" := "", "confirmPassword" := ""];
      isLoading := false;
      passwordStrength := 0;
    }

    /** `handleChange`: the named entry is replaced; only a password edit rescores. */
    method HandleChange(name: string, value: string)
      requires Valid()
      modifies this
      ensures Valid()
      ensures formData == old(formData)[name := value] && isLoading == old(isLoading)
      ensures name == "password" ==> passwordStrength == Score(value)
      ensures name != "password" ==> passwordStrength == old(passwordStrength)
    {
      formData := formData[name := value];
      if name == "password" {
        passwordStrength := CheckPasswordStrength(value);
      }
    }

    /** `handleRegister` up to the request: an alert changes nothing, a post starts loading. */
    method HandleRegister() returns (r: Submission)
      requires Valid()
      modifies this
      ensures Valid() && formData == old(formData) && passwordStrength == old(passwordStrength)
      ensures r == PreSubmit(formData["email"], formData["password"], formData["confirmPassword"])
      ensures isLoading == (r.Post? || old(isLoading))
    {
      if formData["password"] != formData["confirmPassword"] {
        return Alert("Oops...", "Passwords do not match!");
      }
      if |formData["password"]| < 6 {
        return Alert("Weak Password", "Password must be at least 6 characters long!");
      }
      isLoading := true;
      r := Post(formData["email"], formData["password"]);
    }

    /**
     * A submit event on the form: the browser lets it through only when the
     * button is enabled and every constraint holds, and then `handleRegister` runs.
     */
    method SubmitForm(agreed: bool, emailValid: string -> bool) returns (r: Option<Submission>)
      requires Valid()
      modifies this
      ensures Valid() && formData == old(formData) && passwordStrength == old(passwordStrength)
      ensures r == Submit(old(isLoading), formData["email"], formData["password"], formData["confirmPassword"],
                          agreed, emailValid)
      ensures isLoading == ((r.Some? && r.value.Post?) || old(isLoading))
    {
      if SubmitDisabled(isLoading, formData["password"], formData["confirmPassword"]) ||
         !ConstraintsPass(formData["email"], formData["password"], formData["confirmPassword"], agreed, emailValid) {
        return None;
      }
      var s := HandleRegister();
      r := Some(s);
    }

    /** The `finally` after the request settles, whatever its outcome. */
    method FinishRequest()
      modifies this
      ensures !isLoading && formData == old(formData) && passwordStrength == old(passwordStrength)
    {
      isLoading := false;
    }
  }
}
