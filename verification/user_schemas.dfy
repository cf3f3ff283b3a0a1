/** The request schemas for accounts: a signup password has 8 to 100
    characters and passes three character-class checks in a fixed order; a
    login password only has 1 to 100 characters. */
module UserSchemas {
  import opened Wrappers

  const SIGNUP_PASSWORD_MIN_LENGTH: nat := 8
  const PASSWORD_MAX_LENGTH: nat := 100
  const LOGIN_PASSWORD_MIN_LENGTH: nat := 1

  datatype PasswordError =
    | TooShort(minLength: nat)  // the `min_length` field constraint
    | TooLong(maxLength: nat)   // the `max_length` field constraint
    | NoLetter                  // no match for [A-Za-z]
    | NoDigit                   // no match for \d
    | NoUppercase               // no match for [A-Z]

  predicate IsAsciiLetter(c: char) {
    'A' <= c <= 'Z' || 'a' <= c <= 'z'
  }

  predicate IsAsciiUpper(c: char) {
    'A' <= c <= 'Z'
  }

  predicate IsDecimalDigit(c: char) {
    '0' <= c <= '9'
  }

  predicate HasLetter(s: string) {
    exists i :: 0 <= i < |s| && IsAsciiLetter(s[i])
  }

  predicate HasUppercase(s: string) {
    exists i :: 0 <= i < |s| && IsAsciiUpper(s[i])
  }

  predicate HasDigit(s: string) {
    exists i :: 0 <= i < |s| && IsDecimalDigit(s[i])
  }

  /** The length constraints of a password field. */
  function CheckLength(password: string, minLength: nat, maxLength: nat): (r: Result<string, PasswordError>)
    ensures r.Success? <==> minLength <= |password| <= maxLength
    ensures r.Success? ==> r.value == password
  {
    if |password| < minLength then Failure(TooShort(minLength))
    else if |password| > maxLength then Failure(TooLong(maxLength))
    else Success(password)
  }

  /** `UserSignup.password`: the length constraints, then
      `validate_password`, whose checks run letter, digit, uppercase; the
      first one that fails decides the error. */
  function ValidateSignupPassword(password: string): (r: Result<string, PasswordError>)
    ensures r.Success? <==> 8 <= |password| <= 100 && HasDigit(password) && HasUppercase(password)
    ensures r.Success? ==> r.value == password
    ensures r == Failure(NoLetter) <==> 8 <= |password| <= 100 && !HasLetter(password)
    ensures r == Failure(NoDigit) <==> 8 <= |password| <= 100 && HasLetter(password) && !HasDigit(password)
    ensures r == Failure(NoUppercase) <==>
              8 <= |password| <= 100 && HasLetter(password) && HasDigit(password) && !HasUppercase(password)
  {
    assert HasUppercase(password) ==> HasLetter(password) by {
      if HasUppercase(password) {
        var i :| 0 <= i < |password| && IsAsciiUpper(password[i]);
        assert IsAsciiLetter(password[i]);
      }
    }
    var _ :- CheckLength(password, SIGNUP_PASSWORD_MIN_LENGTH, PASSWORD_MAX_LENGTH);
    if !HasLetter(password) then Failure(NoLetter)
    else if !HasDigit(password) then Failure(NoDigit)
    else if !HasUppercase(password) then Failure(NoUppercase)
    else Success(password)
  }

  /** The passwords that appear as examples (in docstrings, the schema's
      field example, the demo client and the API test) all pass. */
  lemma ExamplePasswords()
    ensures ValidateSignupPassword("Password123").Success?
    ensures ValidateSignupPassword("MySecurePassword123").Success?
    ensures ValidateSignupPassword("DemoPassword123").Success?
    ensures ValidateSignupPassword("TestPassword123").Success?
  {
    assert IsDecimalDigit("Password123"[8]) && IsAsciiUpper("Password123"[0]);
    assert IsDecimalDigit("MySecurePassword123"[16]) && IsAsciiUpper("MySecurePassword123"[0]);
    assert IsDecimalDigit("DemoPassword123"[12]) && IsAsciiUpper("DemoPassword123"[0]);
    assert IsDecimalDigit("TestPassword123"[12]) && IsAsciiUpper("TestPassword123"[0]);
  }

  /** One failing password for each error, in the order of the checks. */
  lemma FailingPasswords()
    ensures ValidateSignupPassword("password123") == Failure(NoUppercase)
    ensures ValidateSignupPassword("Password") == Failure(NoDigit)
    ensures ValidateSignupPassword("12345678") == Failure(NoLetter)
    ensures ValidateSignupPassword("Pass1") == Failure(TooShort(8))
  {
    assert IsAsciiLetter("password123"[0]) && IsDecimalDigit("password123"[8]);
    assert IsAsciiLetter("Password"[0]);
  }

  /** `UserLogin.password`: only the length constraints 1 to 100. */
  function ValidateLoginPassword(password: string): (r: Result<string, PasswordError>)
    ensures r.Success? <==> 1 <= |password| <= 100
    ensures r.Success? ==> r.value == password
    ensures r.Failure? ==> r.error == (if password == [] then TooShort(1) else TooLong(100))
  {
    CheckLength(password, LOGIN_PASSWORD_MIN_LENGTH, PASSWORD_MAX_LENGTH)
  }

  /** Every signup password is also acceptable at login. */
  lemma SignupPasswordPassesLogin(password: string)
    requires ValidateSignupPassword(password).Success?
    ensures ValidateLoginPassword(password).Success?
  {
  }
}
