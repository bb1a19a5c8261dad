/** The sign-up page: the password-strength meter, its label, the ordered
    validation of the form, the handling of the account-creation outcome, and
    the split of a Google display name into first and last name. */
module Signup {
  import opened Wrappers
  import Text

  predicate IsUpper(c: char) { 'A' <= c <= 'Z' }
  predicate IsLower(c: char) { 'a' <= c <= 'z' }
  predicate IsDigit(c: char) { '0' <= c <= '9' }

  /** `/[A-Z]/`, `/[a-z]/`, `/[0-9]/` and `/[^A-Za-z0-9]/` on a password. */
  predicate HasUpper(p: string) { exists i :: 0 <= i < |p| && IsUpper(p[i]) }
  predicate HasLower(p: string) { exists i :: 0 <= i < |p| && IsLower(p[i]) }
  predicate HasDigit(p: string) { exists i :: 0 <= i < |p| && IsDigit(p[i]) }
  predicate HasSymbol(p: string) {
    exists i :: 0 <= i < |p| && !IsUpper(p[i]) && !IsLower(p[i]) && !IsDigit(p[i])
  }

  /** How many of the five criteria the password meets: length at least 8, an
      upper-case letter, a lower-case letter, a digit, any other character. */
  function CriteriaMet(p: string): (n: nat)
    ensures n <= 5
  {
    (if |p| >= 8 then 1 else 0) + (if HasUpper(p) then 1 else 0) + (if HasLower(p) then 1 else 0)
    + (if HasDigit(p) then 1 else 0) + (if HasSymbol(p) then 1 else 0)
  }

  /** The strength score: 0 for an empty password, otherwise 25 per criterion
      met, capped at 100. */
  function Strength(p: string): (s: int)
    ensures s in {0, 25, 50, 75, 100}
    ensures p == "" ==> s == 0
  {
    if p == "" then 0
    else if 25 * CriteriaMet(p) > 100 then 100 else 25 * CriteriaMet(p)
  }

  /** `calculatePasswordStrength`: the score built up one criterion at a time. */
  method CalculatePasswordStrength(password: string) returns (strength: int)
    ensures strength == Strength(password)
  {
    if password == "" {
      return 0;
    }
    strength := 0;
    if |password| >= 8 { strength := strength + 25; }
    if HasUpper(password) { strength := strength + 25; }
    if HasLower(password) { strength := strength + 25; }
    if HasDigit(password) { strength := strength + 25; }
    if HasSymbol(password) { strength := strength + 25; }
    strength := if 100 < strength then 100 else strength;
  }

  /** Every character meets one of the four character criteria, so a password
      scores 0 exactly when it is empty. */
  lemma StrengthZeroIffEmpty(p: string)
    ensures Strength(p) == 0 <==> p == ""
  {
    if p != "" {
      var c := p[0];
      if IsUpper(c) { assert HasUpper(p); }
      else if IsLower(c) { assert HasLower(p); }
      else if IsDigit(c) { assert HasDigit(p); }
      else { assert HasSymbol(p); }
    }
  }

  /** Typing one more character never lowers the score: each criterion is a
      length threshold or the existence of a character. */
  lemma StrengthAppendMonotone(p: string, c: char)
    ensures Strength(p) <= Strength(p + [c])
  {
    var q := p + [c];
    assert forall i :: 0 <= i < |p| ==> q[i] == p[i];
    if HasUpper(p) { var i :| 0 <= i < |p| && IsUpper(p[i]); assert IsUpper(q[i]); }
    if HasLower(p) { var i :| 0 <= i < |p| && IsLower(p[i]); assert IsLower(q[i]); }
    if HasDigit(p) { var i :| 0 <= i < |p| && IsDigit(p[i]); assert IsDigit(q[i]); }
    if HasSymbol(p) {
      var i :| 0 <= i < |p| && !IsUpper(p[i]) && !IsLower(p[i]) && !IsDigit(p[i]);
      assert !IsUpper(q[i]) && !IsLower(q[i]) && !IsDigit(q[i]);
    }
  }

  /** `getPasswordStrengthText`. */
  function StrengthLabel(strength: int): (text: string)
    ensures text == "" <==> strength == 0
    ensures 0 < strength <= 25 ==> text == "Weak"
    ensures 25 < strength <= 50 ==> text == "Fair"
    ensures 50 < strength <= 75 ==> text == "Good"
    ensures strength > 75 ==> text == "Strong"
  {
    if strength == 0 then ""
    else if strength <= 25 then "Weak"
    else if strength <= 50 then "Fair"
    else if strength <= 75 then "Good"
    else "Strong"
  }

  /** A password meeting exactly two criteria scores 50 and passes the strength
      gate; one meeting a single criterion scores 25 and is turned away. */
  lemma StrengthGateBoundary(p: string, q: string)
    requires p != "" && CriteriaMet(p) == 2
    requires q != "" && CriteriaMet(q) == 1
    ensures Strength(p) == 50 && !(Strength(p) < 50)
    ensures Strength(q) == 25 && Strength(q) < 50
    ensures StrengthLabel(Strength(p)) == "Fair" && StrengthLabel(Strength(q)) == "Weak"
  {
  }

  /** The fields of the e-mail sign-up form. */
  datatype Form = Form(
    firstName: string, lastName: string, email: string,
    password: string, confirmPassword: string, agreeTerms: bool)

  const MissingFields := "Please fill in all required fields"
  const Mismatch := "Passwords don't match"
  const TooWeak := "Please choose a stronger password"
  const NoTerms := "You must agree to the Terms of Service"

  /** Every check the form fails, in the order the page makes them. */
  function Failures(f: Form): (errs: seq<string>)
    ensures |errs| <= 4
    ensures MissingFields in errs <==> f.firstName == "" || f.lastName == "" || f.email == "" || f.password == ""
    ensures Mismatch in errs <==> f.password != f.confirmPassword
    ensures TooWeak in errs <==> Strength(f.password) < 50
    ensures NoTerms in errs <==> !f.agreeTerms
  {
    (if f.firstName == "" || f.lastName == "" || f.email == "" || f.password == "" then [MissingFields] else [])
    + (if f.password != f.confirmPassword then [Mismatch] else [])
    + (if Strength(f.password) < 50 then [TooWeak] else [])
    + (if !f.agreeTerms then [NoTerms] else [])
  }

  /** The validation chain of `handleSignup`: the first failing check decides
      the message; `None` means the form is accepted. */
  function Validate(f: Form): (err: Option<string>)
    ensures err.None? <==>
      f.firstName != "" && f.lastName != "" && f.email != "" && f.password != ""
      && f.password == f.confirmPassword && Strength(f.password) >= 50 && f.agreeTerms
    ensures err.Some? ==> err.value in {MissingFields, Mismatch, TooWeak, NoTerms}
  {
    if f.firstName == "" || f.lastName == "" || f.email == "" || f.password == "" then Some(MissingFields)
    else if f.password != f.confirmPassword then Some(Mismatch)
    else if Strength(f.password) < 50 then Some(TooWeak)
    else if !f.agreeTerms then Some(NoTerms)
    else None
  }

  /** The chain reports exactly the first of all the failures, and accepts
      exactly the forms that fail nothing. */
  lemma ValidateIsFirstFailure(f: Form)
    ensures Validate(f).None? <==> Failures(f) == []
    ensures Validate(f).Some? ==> Failures(f) != [] && Validate(f).value == Failures(f)[0]
  {
  }

  /** An accepted form has a non-empty password with at least two criteria met,
      which the user has typed twice. */
  lemma AcceptedFormIsStrong(f: Form)
    requires Validate(f).None?
    ensures f.password == f.confirmPassword && CriteriaMet(f.password) >= 2 && f.agreeTerms
  {
  }

  /** What the authentication service answers to an account creation. */
  datatype AuthResult = Created(uid: string) | AuthError(code: string, message: string)

  /** The user document written for a new account. */
  datatype UserDoc = UserDoc(uid: string, email: string, displayName: string, firstName: string, lastName: string)

  datatype Outcome =
    | Rejected(error: string)          // the form failed validation; nothing was attempted
    | SignedUp(doc: UserDoc)           // the account and its document were created
    | Failed(error: string)            // the service refused the account

  /** The message shown for a refused account creation. */
  function ErrorMessage(code: string, message: string): (msg: string)
    ensures msg != ""
    ensures code == "auth/email-already-in-use" ==> msg == "This email is already registered. Try logging in instead."
    ensures code == "auth/weak-password" ==> msg == "Password is too weak. Please choose a stronger password."
    ensures code != "auth/email-already-in-use" && code != "auth/weak-password" ==>
      msg == if message != "" then message else "Failed to create account. Please try again."
  {
    if code == "auth/email-already-in-use" then "This email is already registered. Try logging in instead."
    else if code == "auth/weak-password" then "Password is too weak. Please choose a stronger password."
    else if message != "" then message
    else "Failed to create account. Please try again."
  }

  /** `handleSignup`: validation first; only an accepted form reaches the
      service, whose answer `create` is then either turned into the user
      document or into a message. */
  function HandleSignup(f: Form, create: AuthResult): (o: Outcome)
    ensures o.Rejected? <==> Validate(f).Some?
    ensures o.Rejected? ==> o.error == Validate(f).value
    ensures o.SignedUp? ==>
      (create.Created? && o.doc.uid == create.uid
       && o.doc.displayName == f.firstName + " " + f.lastName
       && o.doc.firstName == f.firstName && o.doc.lastName == f.lastName && o.doc.email == f.email)
    ensures o.Failed? ==> create.AuthError? && o.error == ErrorMessage(create.code, create.message)
  {
    match Validate(f)
    case Some(e) => Rejected(e)
    case None =>
      match create
      case Created(uid) => SignedUp(UserDoc(uid, f.email, f.firstName + " " + f.lastName, f.firstName, f.lastName))
      case AuthError(code, message) => Failed(ErrorMessage(code, message))
  }

  /** The first and last name stored for a new Google account: the display name
      split at spaces, the first piece as first name and the rest re-joined with
      spaces as last name. */
  function GoogleNames(displayName: Option<string>): (names: (string, string))
    ensures ' ' !in names.0
  {
    var parts := if displayName.Some? && displayName.value != "" then Text.Split(displayName.value, ' ') else ["", ""];
    (parts[0], Text.Join(parts[1..], ' '))
  }

  /** A display name with a space is recovered as first name, one space, last
      name; one without is the first name alone. */
  lemma GoogleNamesRoundTrip(displayName: string)
    ensures ' ' in displayName ==>
      GoogleNames(Some(displayName)).0 + " " + GoogleNames(Some(displayName)).1 == displayName
    ensures ' ' !in displayName ==> GoogleNames(Some(displayName)) == (displayName, "")
  {
    if ' ' in displayName {
      Text.SplitFirst(displayName, ' ');
      var i := Text.IndexOf(displayName, ' ');
      assert displayName == displayName[..i] + " " + displayName[i + 1..];
    }
  }
}
