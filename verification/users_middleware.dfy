/**
 * The request validators for the account routes. Each schema validator is a
 * function from the request fields it reads (and the store, for the database
 * look-ups) to the field errors express-validator records, in schema order,
 * keeping for each field the first failing step of its chain, which is the
 * one `validationResult(req).mapped()` reports. What a custom validator
 * attaches to the request is returned beside the errors.
 */
module UsersMiddleware {
  import opened Wrappers
  import opened Constants
  import opened Enums
  import opened Tokens
  import opened Database
  import opened Errors
  import opened Strings
  import opened Validation
  import opened UsersService
  import LegacyUsersService

  /**
   * The validator.js predicates and the username pattern, which the model
   * takes as given: `isEmail`, `isISO8601` with strict separators, and
   * `REGEX_USERNAME.test`.
   */
  datatype Checkers = Checkers(isEmail: string -> bool, isIso8601: string -> bool, usernamePattern: string -> bool)

  /** The error list of one field: empty when its chain passed, else the chain's first failure. */
  function FieldErrors(path: string, outcome: Option<FieldMsg>): (errors: seq<FieldError>)
    ensures |errors| == 0 <==> outcome.None?
    ensures outcome.Some? ==> errors == [FieldError(path, outcome.value)]
    ensures AllPlain(errors) <==> outcome.None? || outcome.value.Plain?
  {
    match outcome
    case None => []
    case Some(m) => [FieldError(path, m)]
  }

  /** Every error is a plain message, which `validate` never forwards on its own. */
  predicate AllPlain(errors: seq<FieldError>)
  {
    |errors| == 0 || (errors[0].msg.Plain? && AllPlain(errors[1..]))
  }

  lemma {:induction false} AllPlainConcat(a: seq<FieldError>, b: seq<FieldError>)
    ensures AllPlain(a + b) <==> AllPlain(a) && AllPlain(b)
  {
    if |a| == 0 {
      assert a + b == b;
    } else {
      assert (a + b)[0] == a[0];
      assert (a + b)[1..] == a[1..] + b;
      AllPlainConcat(a[1..], b);
    }
  }

  /** `AllPlain` says what it should of every element. */
  lemma {:induction false} AllPlainElements(errors: seq<FieldError>)
    ensures AllPlain(errors) <==> forall k :: 0 <= k < |errors| ==> errors[k].msg.Plain?
  {
    if |errors| > 0 {
      AllPlainElements(errors[1..]);
      assert forall k :: 1 <= k < |errors| ==> errors[k] == errors[1..][k - 1];
    }
  }

  /** The errors a validator recorded, and what it attached to the request. */
  datatype Checked<T> = Checked(errors: seq<FieldError>, attached: Option<T>)

  /** A thrown `ErrorWithStatus` with status 401. */
  function Reject(m: Message): FieldMsg
  {
    Thrown(NewErrorWithStatus(m, Unauthorized))
  }

  // ---------------------------------------------------------------- passwords

  /** The character classes `isStrongPassword` counts. */
  datatype CharClass = Lower | Upper | Digit | Symbol

  /** validator.js's symbol class: ASCII punctuation, the pound sign and the space. */
  const SymbolChars: string := "-#!$@\U{00A3}%^&*()_+|~=`{}[]:\";'<>?,./\\ "

  predicate InClass(ch: char, k: CharClass)
  {
    match k
    case Lower => 'a' <= ch <= 'z'
    case Upper => 'A' <= ch <= 'Z'
    case Digit => '0' <= ch <= '9'
    case Symbol => ch in SymbolChars
  }

  /** How many characters of `s` fall in class `k`. */
  function CountClass(s: string, k: CharClass): nat
  {
    if |s| == 0 then 0
    else (if InClass(s[0], k) then 1 else 0) + CountClass(s[1..], k)
  }

  /** Some character of `s` falls in class `k`. */
  predicate HasClass(s: string, k: CharClass)
  {
    exists i :: 0 <= i < |s| && InClass(s[i], k)
  }

  /** A count of at least one means a character of the class is present, and back. */
  lemma {:induction false} CountClassPositive(s: string, k: CharClass)
    ensures CountClass(s, k) >= 1 <==> HasClass(s, k)
  {
    if |s| > 0 {
      CountClassPositive(s[1..], k);
      if HasClass(s[1..], k) {
        var i :| 0 <= i < |s[1..]| && InClass(s[1..][i], k);
        assert InClass(s[i + 1], k);
      }
      if HasClass(s, k) && !InClass(s[0], k) {
        var i :| 0 <= i < |s| && InClass(s[i], k);
        assert i > 0 && s[1..][i - 1] == s[i];
      }
    }
  }

  /**
   * `isStrongPassword` with minimum length 6 and at least one lower-case
   * letter, one upper-case letter, one digit and one symbol; scoring is off,
   * so the answer is a plain yes or no.
   */
  function IsStrongPassword(s: string): (r: bool)
    ensures r <==> |s| >= 6 && HasClass(s, Lower) && HasClass(s, Upper) && HasClass(s, Digit) && HasClass(s, Symbol)
  {
    CountClassPositive(s, Lower);
    CountClassPositive(s, Upper);
    CountClassPositive(s, Digit);
    CountClassPositive(s, Symbol);
    |s| >= 6 && CountClass(s, Lower) >= 1 && CountClass(s, Upper) >= 1
    && CountClass(s, Digit) >= 1 && CountClass(s, Symbol) >= 1
  }

  /**
   * `passwordSchema`: required, then strong once trimmed. A password passes
   * exactly when its trimmed form is strong.
   */
  function PasswordCheck(password: string): (r: Option<FieldMsg>)
    ensures r.None? <==> IsStrongPassword(Trim(password))
    ensures password == "" ==> r == Some(Plain(PasswordIsRequired))
    ensures password != "" && !IsStrongPassword(Trim(password)) ==> r == Some(Plain(PasswordMustBeStrong))
    ensures r.Some? ==> r.value.Plain?
  {
    if password == "" then Some(Plain(PasswordIsRequired))
    else if !IsStrongPassword(Trim(password)) then Some(Plain(PasswordMustBeStrong))
    else None
  }

  /**
   * `confirmPasswordSchema`: required, then equal after trimming to the
   * password, which its own chain has already trimmed.
   */
  function ConfirmPasswordCheck(password: string, confirm: string): (r: Option<FieldMsg>)
    ensures r.None? <==> confirm != "" && Trim(confirm) == Trim(password)
    ensures confirm == "" ==> r == Some(Plain(ConfirmPasswordIsRequired))
    ensures confirm != "" && Trim(confirm) != Trim(password) ==>
              r == Some(Plain(PasswordConfirmationDoesNotMatchPassword))
    ensures r.Some? ==> r.value.Plain?
  {
    if confirm == "" then Some(Plain(ConfirmPasswordIsRequired))
    else if Trim(confirm) != Trim(password) then Some(Plain(PasswordConfirmationDoesNotMatchPassword))
    else None
  }

  // ------------------------------------------------------------ plain fields

  /**
   * `nameSchema`: required, then 3 to 100 characters as `isLength` counts
   * them (variation selectors left out), counted before trimming.
   */
  function NameCheck(name: string): (r: Option<FieldMsg>)
    ensures r.None? <==> 3 <= IsLengthCount(name) <= 100
    ensures name == "" ==> r == Some(Plain(NameIsRequired))
    ensures name != "" && !(3 <= IsLengthCount(name) <= 100) ==> r == Some(Plain(NameMustBeFrom3To100Characters))
    ensures r.Some? ==> r.value.Plain?
  {
    if name == "" then Some(Plain(NameIsRequired))
    else if !(3 <= IsLengthCount(name) <= 100) then Some(Plain(NameMustBeFrom3To100Characters))
    else None
  }

  /**
   * The optional profile name: `nameSchema` with `notEmpty` removed, so an
   * empty name fails the length rule and is answered with the field's
   * message, like any other name of the wrong length.
   */
  function ProfileNameCheck(name: string): (r: Option<FieldMsg>)
    ensures r.None? <==> 3 <= IsLengthCount(name) <= 100
    ensures r.Some? ==> r.value == Plain(NameMustBeFrom3To100Characters)
  {
    if 3 <= IsLengthCount(name) <= 100 then None else Some(Plain(NameMustBeFrom3To100Characters))
  }

  /**
   * Dropping `notEmpty` changes only the answer to the empty name: every
   * other name gets the same answer from both name rules.
   */
  lemma ProfileNameDiffersOnlyWhenEmpty(name: string)
    ensures name != "" ==> ProfileNameCheck(name) == NameCheck(name)
    ensures name == "" ==> ProfileNameCheck(name) == Some(Plain(NameMustBeFrom3To100Characters))
                           && NameCheck(name) == Some(Plain(NameIsRequired))
  {
  }

  /**
   * A variation selector adds nothing to a name's length: appending one never
   * changes the profile name rule's answer, and "ab" followed by U+FE0F is
   * two characters long, so both name rules refuse it.
   */
  lemma SelectorNotCountedInName(name: string, c: char)
    requires IsVariationSelector(c)
    ensures ProfileNameCheck(name + [c]) == ProfileNameCheck(name)
    ensures NameCheck("ab\U{FE0F}") == Some(Plain(NameMustBeFrom3To100Characters))
    ensures ProfileNameCheck("ab\U{FE0F}") == Some(Plain(NameMustBeFrom3To100Characters))
  {
    IsLengthCountSelectors(name);
    IsLengthCountSelectors(name + [c]);
    assert multiset(name + [c]) == multiset(name) + multiset{c};
    var example := "ab\U{FE0F}";
    assert example[1..][1..][1..] == [];
  }

  /** `dateOfBirthSchema`: a strict ISO 8601 date. */
  function DateOfBirthCheck(ck: Checkers, value: string): (r: Option<FieldMsg>)
    ensures r.None? <==> ck.isIso8601(value)
    ensures r.Some? ==> r.value == Plain(DateOfBirthMustBeIso8601)
    ensures r.Some? ==> r.value.Plain?
  {
    if !ck.isIso8601(value) then Some(Plain(DateOfBirthMustBeIso8601)) else None
  }

  /** The registration email: required, well formed, then (trimmed) not already taken. */
  function RegisterEmailCheck(ck: Checkers, s: Store, email: string): (r: Option<FieldMsg>)
    ensures r.None? <==>
      email != "" && ck.isEmail(email) && forall j :: 0 <= j < |s.users| ==> s.users[j].email != Trim(email)
    ensures email != "" && ck.isEmail(email) && LegacyUsersService.LegacyCheckEmailExist(s, Trim(email)) ==>
              r == Some(Plain(EmailAlreadyExists))
    ensures r.Some? ==> r.value.Plain?
  {
    if email == "" then Some(Plain(EmailIsRequired))
    else if !ck.isEmail(email) then Some(Plain(EmailIsInvalid))
    else if LegacyUsersService.LegacyCheckEmailExist(s, Trim(email)) then Some(Plain(EmailAlreadyExists))
    else None
  }

  // --------------------------------------------------------------- validators

  /**
   * `loginValidator`: the email must be present and well formed, and some
   * user must hold the trimmed email together with the hash of the password
   * as sent; the password must be present. The user found is attached
   * whatever the other steps said.
   */
  function LoginValidator(ck: Checkers, c: Crypto, s: Store, email: string, password: string): (r: Checked<User>)
    ensures |r.errors| == 0 <==>
      && email != "" && ck.isEmail(email) && password != ""
      && exists j :: 0 <= j < |s.users| && s.users[j].email == Trim(email) && s.users[j].password == c.hash(password)
    ensures r.attached.Some? <==>
      exists j :: 0 <= j < |s.users| && s.users[j].email == Trim(email) && s.users[j].password == c.hash(password)
    ensures r.attached.Some? ==>
      r.attached.value in s.users && r.attached.value.email == Trim(email) && r.attached.value.password == c.hash(password)
    ensures email == "" ==> |r.errors| > 0 && r.errors[0] == FieldError("email", Plain(EmailIsRequired))
    ensures email != "" && !ck.isEmail(email) ==> |r.errors| > 0 && r.errors[0] == FieldError("email", Plain(EmailIsInvalid))
    ensures email != "" && ck.isEmail(email) && r.attached.None? ==>
      |r.errors| > 0 && r.errors[0] == FieldError("email", Plain(EmailOrPasswordIsIncorrect))
    ensures password == "" ==> FieldError("password", Plain(PasswordIsRequired)) in r.errors
    ensures AllPlain(r.errors)
  {
    var found := FindOne(s.users, ByCredentials(Trim(email), c.hash(password)));
    var emailOutcome :=
      if email == "" then Some(Plain(EmailIsRequired))
      else if !ck.isEmail(email) then Some(Plain(EmailIsInvalid))
      else if found.None? then Some(Plain(EmailOrPasswordIsIncorrect))
      else None;
    var passwordOutcome := if password == "" then Some(Plain(PasswordIsRequired)) else None;
    var errors := FieldErrors("email", emailOutcome) + FieldErrors("password", passwordOutcome);
    AllPlainConcat(FieldErrors("email", emailOutcome), FieldErrors("password", passwordOutcome));
    Checked(errors, found)
  }

  /** The fields `registerValidator` reads, in schema order, with the key it checks for the birth date. */
  function RegisterErrors(ck: Checkers, s: Store, body: RegisterBody, datePath: string, dateOfBirth: string)
    : (errors: seq<FieldError>)
    ensures |errors| == 0 <==>
      && NameCheck(body.name).None?
      && RegisterEmailCheck(ck, s, body.email).None?
      && PasswordCheck(body.password).None?
      && ConfirmPasswordCheck(body.password, body.confirmPassword).None?
      && DateOfBirthCheck(ck, dateOfBirth).None?
    ensures AllPlain(errors)
  {
    var name := FieldErrors("name", NameCheck(body.name));
    var email := FieldErrors("email", RegisterEmailCheck(ck, s, body.email));
    var password := FieldErrors("password", PasswordCheck(body.password));
    var confirm := FieldErrors("confirm_password", ConfirmPasswordCheck(body.password, body.confirmPassword));
    var date := FieldErrors(datePath, DateOfBirthCheck(ck, dateOfBirth));
    AllPlainConcat(name, email);
    AllPlainConcat(name + email, password);
    AllPlainConcat(name + email + password, confirm);
    AllPlainConcat(name + email + password + confirm, date);
    name + email + password + confirm + date
  }

  /**
   * `registerValidator` as written: the birth-date rule is attached to the
   * key `dateOfBirth`, although the registration service reads `date_of_birth`.
   * A body passes exactly when every field rule holds, and only plain errors
   * (hence a 422 answer) are produced.
   */
  function RegisterValidator(ck: Checkers, s: Store, body: RegisterBody): (errors: seq<FieldError>)
    ensures |errors| == 0 <==>
      && 3 <= IsLengthCount(body.name) <= 100
      && body.email != "" && ck.isEmail(body.email)
      && !LegacyUsersService.LegacyCheckEmailExist(s, Trim(body.email))
      && IsStrongPassword(Trim(body.password))
      && body.confirmPassword != "" && Trim(body.confirmPassword) == Trim(body.password)
      && ck.isIso8601(body.dateOfBirthCamel)
    ensures AllPlain(errors)
  {
    RegisterErrors(ck, s, body, "dateOfBirth", body.dateOfBirthCamel)
  }

  /**
   * The registration validator with the birth-date rule on the key the
   * service stores, `date_of_birth`: a body passes exactly when the value
   * the service will parse is a strict ISO 8601 date and the other rules hold.
   */
  function RegisterValidatorChecked(ck: Checkers, s: Store, body: RegisterBody): (errors: seq<FieldError>)
    ensures |errors| == 0 <==>
      && 3 <= IsLengthCount(body.name) <= 100
      && body.email != "" && ck.isEmail(body.email)
      && !LegacyUsersService.LegacyCheckEmailExist(s, Trim(body.email))
      && IsStrongPassword(Trim(body.password))
      && body.confirmPassword != "" && Trim(body.confirmPassword) == Trim(body.password)
      && ck.isIso8601(body.dateOfBirthSnake)
    ensures AllPlain(errors)
  {
    RegisterErrors(ck, s, body, "date_of_birth", body.dateOfBirthSnake)
  }

  /**
   * The two birth-date keys disagree: with every other rule met, a body whose
   * `date_of_birth` is a date but whose `dateOfBirth` is not is refused, and
   * a body the other way round is let through to a service that parses the
   * unchecked value. The corrected validator decides both the other way.
   */
  lemma RegisterDateKeyMismatch(ck: Checkers, s: Store, body: RegisterBody)
    requires 3 <= IsLengthCount(body.name) <= 100
    requires body.email != "" && ck.isEmail(body.email)
    requires !LegacyUsersService.LegacyCheckEmailExist(s, Trim(body.email))
    requires IsStrongPassword(Trim(body.password))
    requires body.confirmPassword != "" && Trim(body.confirmPassword) == Trim(body.password)
    ensures ck.isIso8601(body.dateOfBirthSnake) && !ck.isIso8601(body.dateOfBirthCamel) ==>
      RegisterValidator(ck, s, body) != [] && RegisterValidatorChecked(ck, s, body) == []
    ensures !ck.isIso8601(body.dateOfBirthSnake) && ck.isIso8601(body.dateOfBirthCamel) ==>
      RegisterValidator(ck, s, body) == [] && RegisterValidatorChecked(ck, s, body) != []
  {
    var asWritten := RegisterValidator(ck, s, body);
    var corrected := RegisterValidatorChecked(ck, s, body);
    assert |asWritten| == 0 <==> ck.isIso8601(body.dateOfBirthCamel);
    assert |corrected| == 0 <==> ck.isIso8601(body.dateOfBirthSnake);
  }

  // -------------------------------------------------------------- access token

  /**
   * `value.split('Bearer ')[1]`: the text between the first occurrence of
   * "Bearer " and the next one (or the end), when there is a first one.
   */
  function BearerToken(value: string): (r: Option<string>)
    ensures r.Some? <==> Contains(value, "Bearer ")
    ensures r.Some? ==> !Contains(r.value, "Bearer ")
  {
    var parts := Split(value, "Bearer ");
    if |parts| >= 2 then Some(parts[1]) else None
  }

  /**
   * Where the bearer token sits: after the first "Bearer " of the header,
   * running up to the next "Bearer " or the end.
   */
  lemma BearerTokenShape(value: string)
    ensures BearerToken(value).Some? ==> exists pre, post :: Framed(value, pre, "Bearer ", BearerToken(value).value, post)
  {
    if BearerToken(value).Some? {
      SecondPieceShape(value, "Bearer ");
    }
  }

  /**
   * The token the access validator verifies: the trimmed header must be
   * non-empty and its second `Bearer ` piece must be non-empty.
   */
  function AccessTokenOf(header: string): (r: Option<string>)
    ensures r.Some? ==> r.value != "" && Some(r.value) == BearerToken(Trim(header))
    ensures r.None? <==> Trim(header) == "" || BearerToken(Trim(header)) in {None, Some("")}
  {
    var value := Trim(header);
    if value == "" then None
    else match BearerToken(value)
      case None => None
      case Some(t) => if t == "" then None else Some(t)
  }

  /**
   * The `authorization` chain of `accessTokenValidator`: a missing token is
   * ACCESS_TOKEN_IS_REQUIRED, any verification failure is "AccessToken "
   * followed by the library's message, and both are thrown with status 401;
   * otherwise the decoded claims are attached.
   */
  function AccessTokenCheck(c: Crypto, header: string): (r: Result<Payload, FieldMsg>)
    ensures AccessTokenOf(header).None? ==> r == Failure(Reject(AccessTokenIsRequired))
    ensures AccessTokenOf(header).Some? ==>
      match c.verify(AccessTokenOf(header).value, c.secret(AccessSecret))
      case Decoded(p) => r == Success(p)
      case JwtError(m) => r == Failure(Reject(Literal("AccessToken " + m)))
      case OtherError(m) => r == Failure(Reject(Literal("AccessToken " + m)))
    ensures r.Failure? ==> r.error.Thrown? && r.error.error.status == Unauthorized
  {
    match AccessTokenOf(header)
    case None => Failure(Reject(AccessTokenIsRequired))
    case Some(token) =>
      match c.verify(token, c.secret(AccessSecret))
      case Decoded(p) => Success(p)
      case JwtError(m) => Failure(Reject(Literal("AccessToken " + m)))
      case OtherError(m) => Failure(Reject(Literal("AccessToken " + m)))
  }

  /** A check's failure as the single field error of its validator. */
  function AsChecked<T>(path: string, r: Result<T, FieldMsg>): (out: Checked<T>)
    ensures r.Success? ==> out == Checked([], Some(r.value))
    ensures r.Failure? ==> out == Checked([FieldError(path, r.error)], None)
  {
    match r
    case Success(v) => Checked([], Some(v))
    case Failure(m) => Checked([FieldError(path, m)], None)
  }

  /** `accessTokenValidator`, reading the `authorization` header. */
  function AccessTokenValidator(c: Crypto, header: string): (r: Checked<Payload>)
    ensures |r.errors| == 0 <==> r.attached.Some?
    ensures r.attached.Some? <==>
      AccessTokenOf(header).Some? && c.verify(AccessTokenOf(header).value, c.secret(AccessSecret)).Decoded?
    ensures forall e :: e in r.errors ==> e.path == "authorization" && Forwardable(e.msg)
  {
    var check := AccessTokenCheck(c, header);
    assert check.Success? <==>
      AccessTokenOf(header).Some? && c.verify(AccessTokenOf(header).value, c.secret(AccessSecret)).Decoded?;
    assert check.Failure? ==> Forwardable(check.error);
    AsChecked("authorization", check)
  }

  // ------------------------------------------------------------- refresh token

  /**
   * The `refreshToken` chain: required; a token the library rejects is
   * REFRESH_TOKEN_IS_INVALID (401); any other library error passes through
   * as a plain message; a well-signed token with no stored record is
   * REFRESH_TOKEN_NOT_FOUND (401). The value is not trimmed.
   */
  function RefreshTokenCheck(c: Crypto, s: Store, value: string): (r: Result<Payload, FieldMsg>)
    ensures r.Success? <==> value != "" && c.verify(value, c.secret(RefreshSecret)).Decoded? && HasToken(s, value)
    ensures r.Success? ==> r.value == c.verify(value, c.secret(RefreshSecret)).payload
    ensures value == "" ==> r == Failure(Reject(RefreshTokenIsRequired))
    ensures value != "" && c.verify(value, c.secret(RefreshSecret)).JwtError? ==> r == Failure(Reject(RefreshTokenIsInvalid))
    ensures value != "" && c.verify(value, c.secret(RefreshSecret)).OtherError? ==>
              r == Failure(Plain(Literal(c.verify(value, c.secret(RefreshSecret)).message)))
    ensures value != "" && c.verify(value, c.secret(RefreshSecret)).Decoded? && !HasToken(s, value) ==>
              r == Failure(Reject(RefreshTokenNotFound))
  {
    if value == "" then Failure(Reject(RefreshTokenIsRequired))
    else match c.verify(value, c.secret(RefreshSecret))
      case JwtError(_) => Failure(Reject(RefreshTokenIsInvalid))
      case OtherError(m) => Failure(Plain(Literal(m)))
      case Decoded(p) => if HasToken(s, value) then Success(p) else Failure(Reject(RefreshTokenNotFound))
  }

  /** `refreshTokenValidator`, reading `refreshToken` from the body. */
  function RefreshTokenValidator(c: Crypto, s: Store, value: string): (r: Checked<Payload>)
    ensures |r.errors| == 0 <==> r.attached.Some?
    ensures r.attached.Some? <==>
      value != "" && c.verify(value, c.secret(RefreshSecret)).Decoded? && HasToken(s, value)
    ensures forall e :: e in r.errors ==> e.path == "refreshToken"
  {
    AsChecked("refreshToken", RefreshTokenCheck(c, s, value))
  }

  // -------------------------------------------------------- email verification

  /**
   * The `emailVerifyToken` chain: trimmed; a missing token is reported as
   * EMAIL_IS_REQUIRED (401); a token the library rejects as
   * REFRESH_TOKEN_IS_INVALID (401); any other library error passes through.
   */
  function VerifyEmailCheck(c: Crypto, token: string): (r: Result<Payload, FieldMsg>)
    ensures r.Success? <==> Trim(token) != "" && c.verify(Trim(token), c.secret(EmailVerifySecret)).Decoded?
    ensures r.Success? ==> r.value == c.verify(Trim(token), c.secret(EmailVerifySecret)).payload
    ensures Trim(token) == "" ==> r == Failure(Reject(EmailIsRequired))
    ensures Trim(token) != "" && c.verify(Trim(token), c.secret(EmailVerifySecret)).JwtError? ==>
              r == Failure(Reject(RefreshTokenIsInvalid))
    ensures Trim(token) != "" && c.verify(Trim(token), c.secret(EmailVerifySecret)).OtherError? ==>
              r == Failure(Plain(Literal(c.verify(Trim(token), c.secret(EmailVerifySecret)).message)))
  {
    var value := Trim(token);
    if value == "" then Failure(Reject(EmailIsRequired))
    else match c.verify(value, c.secret(EmailVerifySecret))
      case JwtError(_) => Failure(Reject(RefreshTokenIsInvalid))
      case OtherError(m) => Failure(Plain(Literal(m)))
      case Decoded(p) => Success(p)
  }

  /** `verifyEmailValidator`, reading `emailVerifyToken`. */
  function VerifyEmailValidator(c: Crypto, token: string): (r: Checked<Payload>)
    ensures |r.errors| == 0 <==> r.attached.Some?
    ensures r.attached.Some? <==> Trim(token) != "" && c.verify(Trim(token), c.secret(EmailVerifySecret)).Decoded?
    ensures forall e :: e in r.errors ==> e.path == "emailVerifyToken"
  {
    AsChecked("emailVerifyToken", VerifyEmailCheck(c, token))
  }

  // ----------------------------------------------------------- password reset

  /**
   * `forgotPasswordSchema`: trimmed; required; verified with the
   * forgot-password secret; the user it names must exist and must still hold
   * exactly this token. Every failure except a non-JWT library error is a
   * 401, and a JWT failure is reported as REFRESH_TOKEN_IS_INVALID.
   */
  function ForgotPasswordTokenCheck(c: Crypto, s: Store, token: string): (r: Result<Payload, FieldMsg>)
    ensures r.Success? <==>
      && Trim(token) != ""
      && c.verify(Trim(token), c.secret(ForgotPasswordSecret)).Decoded?
      && Lookup(s, c.verify(Trim(token), c.secret(ForgotPasswordSecret)).payload.userId).Some?
      && Lookup(s, c.verify(Trim(token), c.secret(ForgotPasswordSecret)).payload.userId).value.forgotPasswordToken == Trim(token)
    ensures r.Success? ==> r.value == c.verify(Trim(token), c.secret(ForgotPasswordSecret)).payload
    ensures Trim(token) == "" ==> r == Failure(Reject(ForgotPasswordTokenIsRequired))
    ensures Trim(token) != "" && c.verify(Trim(token), c.secret(ForgotPasswordSecret)).JwtError? ==>
              r == Failure(Reject(RefreshTokenIsInvalid))
    ensures Trim(token) != "" && c.verify(Trim(token), c.secret(ForgotPasswordSecret)).Decoded? ==>
      var u := Lookup(s, c.verify(Trim(token), c.secret(ForgotPasswordSecret)).payload.userId);
      && (u.None? ==> r == Failure(Reject(UserNotFound)))
      && (u.Some? && u.value.forgotPasswordToken != Trim(token) ==> r == Failure(Reject(ForgotPasswordTokenInvalid)))
    ensures r.Failure? && !c.verify(Trim(token), c.secret(ForgotPasswordSecret)).OtherError? ==>
              r.error.Thrown? && r.error.error.status == Unauthorized
  {
    var value := Trim(token);
    if value == "" then Failure(Reject(ForgotPasswordTokenIsRequired))
    else match c.verify(value, c.secret(ForgotPasswordSecret))
      case JwtError(_) => Failure(Reject(RefreshTokenIsInvalid))
      case OtherError(m) => Failure(Plain(Literal(m)))
      case Decoded(p) =>
        match Lookup(s, p.userId)
        case None => Failure(Reject(UserNotFound))
        case Some(u) =>
          if u.forgotPasswordToken != value then Failure(Reject(ForgotPasswordTokenInvalid))
          else Success(p)
  }

  /** `verifyForgotPasswordTokenValidator`, reading `forgotPasswordToken` from the body. */
  function VerifyForgotPasswordTokenValidator(c: Crypto, s: Store, token: string): (r: Checked<Payload>)
    ensures |r.errors| == 0 <==> r.attached.Some?
    ensures r.attached.Some? <==> ForgotPasswordTokenCheck(c, s, token).Success?
    ensures r.attached.Some? ==>
      Lookup(s, r.attached.value.userId).Some? && Lookup(s, r.attached.value.userId).value.forgotPasswordToken == Trim(token)
    ensures forall e :: e in r.errors ==> e.path == "forgotPasswordToken"
  {
    AsChecked("forgotPasswordToken", ForgotPasswordTokenCheck(c, s, token))
  }

  /**
   * `resetPasswordValidator`: a strong password, a matching confirmation and
   * a live forgot-password token; the token's claims are attached when the
   * token passes, whatever the other fields say.
   */
  function ResetPasswordValidator(c: Crypto, s: Store, password: string, confirmPassword: string, token: string)
    : (r: Checked<Payload>)
    ensures |r.errors| == 0 <==>
      && IsStrongPassword(Trim(password))
      && confirmPassword != "" && Trim(confirmPassword) == Trim(password)
      && ForgotPasswordTokenCheck(c, s, token).Success?
    ensures r.attached.Some? <==> ForgotPasswordTokenCheck(c, s, token).Success?
  {
    var t := ForgotPasswordTokenCheck(c, s, token);
    var errors := FieldErrors("password", PasswordCheck(password))
                  + FieldErrors("confirmPassword", ConfirmPasswordCheck(password, confirmPassword))
                  + FieldErrors("forgotPasswordToken", if t.Failure? then Some(t.error) else None);
    Checked(errors, if t.Success? then Some(t.value) else None)
  }

  /**
   * `forgotPasswordValidator`: the email is trimmed first, then must be
   * present, well formed and held by some user, who is attached.
   */
  function ForgotPasswordValidator(ck: Checkers, s: Store, email: string): (r: Checked<User>)
    ensures |r.errors| == 0 <==>
      Trim(email) != "" && ck.isEmail(Trim(email)) && exists j :: 0 <= j < |s.users| && s.users[j].email == Trim(email)
    ensures r.attached.Some? <==> exists j :: 0 <= j < |s.users| && s.users[j].email == Trim(email)
    ensures r.attached.Some? ==> r.attached.value in s.users && r.attached.value.email == Trim(email)
    ensures Trim(email) != "" && ck.isEmail(Trim(email)) && r.attached.None? ==>
              r.errors == [FieldError("email", Plain(EmailNotFound))]
  {
    var value := Trim(email);
    var found := FindOne(s.users, ByEmail(value));
    var outcome :=
      if value == "" then Some(Plain(EmailIsRequired))
      else if !ck.isEmail(value) then Some(Plain(EmailIsInvalid))
      else if found.None? then Some(Plain(EmailNotFound))
      else None;
    var errors := FieldErrors("email", outcome);
    Checked(errors, found)
  }

  /**
   * `verifiedUserValidator`: passes exactly when the access token's claims
   * say Verified; otherwise forwards EMAIL_NOT_VERIFIED with status 403.
   */
  function VerifiedUserValidator(decoded: Payload): (r: Option<NextError>)
    ensures r.None? <==> decoded.verify == Some(Verified)
    ensures r.Some? ==> r.value == StatusError(NewErrorWithStatus(EmailNotVerified, Forbidden))
  {
    if decoded.verify != Some(Verified) then Some(StatusError(NewErrorWithStatus(EmailNotVerified, Forbidden)))
    else None
  }

  // ----------------------------------------------------------------- profile

  /** An optional field whose trimmed length must lie in `[lo, hi]`. */
  function TrimmedLengthCheck(value: Option<string>, lo: nat, hi: nat, m: Message): (r: Option<FieldMsg>)
    ensures r.None? <==> value.None? || lo <= IsLengthCount(Trim(value.value)) <= hi
    ensures r.Some? ==> r.value == Plain(m)
  {
    match value
    case None => None
    case Some(v) => if lo <= IsLengthCount(Trim(v)) <= hi then None else Some(Plain(m))
  }

  /** The optional `username`: trimmed, must match the pattern, and no user may hold it yet. */
  function UsernameCheck(ck: Checkers, s: Store, username: Option<string>): (r: Option<FieldMsg>)
    ensures r.None? <==>
      username.None? || (ck.usernamePattern(Trim(username.value)) && !UsernameTaken(s, Trim(username.value)))
    ensures username.Some? && !ck.usernamePattern(Trim(username.value)) ==> r == Some(Plain(UserNameInvalid))
    ensures username.Some? && ck.usernamePattern(Trim(username.value)) && UsernameTaken(s, Trim(username.value)) ==>
              r == Some(Plain(UsernameExist))
    ensures r.Some? ==> r.value.Plain?
  {
    match username
    case None => None
    case Some(v) =>
      var value := Trim(v);
      FindByUsername(s, value);
      if !ck.usernamePattern(value) then Some(Plain(UserNameInvalid))
      else if FindOne(s.users, ByUsername(value)).Some? then Some(Plain(UsernameExist))
      else None
  }

  /** The errors of the first five optional fields: name, date of birth, bio, location and website. */
  function ProfileTextErrors(ck: Checkers, body: ProfileUpdate): (errors: seq<FieldError>)
    ensures |errors| == 0 <==>
      && (body.name.Some? ==> 3 <= IsLengthCount(body.name.value) <= 100)
      && (body.dateOfBirthCamel.Some? ==> ck.isIso8601(body.dateOfBirthCamel.value))
      && (body.bio.Some? ==> 1 <= IsLengthCount(Trim(body.bio.value)) <= 160)
      && (body.location.Some? ==> 1 <= IsLengthCount(Trim(body.location.value)) <= 200)
      && (body.website.Some? ==> 1 <= IsLengthCount(Trim(body.website.value)) <= 50)
    ensures body.name.Some? && !(3 <= IsLengthCount(body.name.value) <= 100) ==>
      FieldError("name", Plain(NameMustBeFrom3To100Characters)) in errors
    ensures body.dateOfBirthCamel.Some? && !ck.isIso8601(body.dateOfBirthCamel.value) ==>
      FieldError("dateOfBirth", Plain(DateOfBirthMustBeIso8601)) in errors
    ensures AllPlain(errors)
  {
    var name := FieldErrors("name", if body.name.Some? then ProfileNameCheck(body.name.value) else None);
    var date := FieldErrors("dateOfBirth", if body.dateOfBirthCamel.Some? then DateOfBirthCheck(ck, body.dateOfBirthCamel.value) else None);
    var bio := FieldErrors("bio", TrimmedLengthCheck(body.bio, 1, 160, BioLength));
    var location := FieldErrors("location", TrimmedLengthCheck(body.location, 1, 200, LocationLength));
    var website := FieldErrors("website", TrimmedLengthCheck(body.website, 1, 50, WebsiteLength));
    AllPlainConcat(name, date);
    AllPlainConcat(name + date, bio);
    AllPlainConcat(name + date + bio, location);
    AllPlainConcat(name + date + bio + location, website);
    name + date + bio + location + website
  }

  /** The errors of the last three optional fields: username, avatar and cover photo. */
  function ProfileHandleErrors(ck: Checkers, s: Store, body: ProfileUpdate): (errors: seq<FieldError>)
    ensures |errors| == 0 <==>
      && (body.username.Some? ==>
            ck.usernamePattern(Trim(body.username.value)) && !UsernameTaken(s, Trim(body.username.value)))
      && (body.avatar.Some? ==> 1 <= IsLengthCount(Trim(body.avatar.value)) <= 400)
      && (body.coverPhoto.Some? ==> 1 <= IsLengthCount(Trim(body.coverPhoto.value)) <= 400)
    ensures AllPlain(errors)
  {
    var username := FieldErrors("username", UsernameCheck(ck, s, body.username));
    var avatar := FieldErrors("avatar", TrimmedLengthCheck(body.avatar, 1, 400, ImageUrlLength));
    var cover := FieldErrors("coverPhoto", TrimmedLengthCheck(body.coverPhoto, 1, 400, ImageUrlLength));
    AllPlainConcat(username, avatar);
    AllPlainConcat(username + avatar, cover);
    username + avatar + cover
  }

  /**
   * `updateMyProfileValidator`: every field is optional; a present field must
   * meet its rule. The name keeps its 3-to-100 rule (counted before
   * trimming) but loses `notEmpty`, so an empty name is answered with the
   * length message; bio, location and website are limited to
   * 1-160, 1-200 and 1-50 trimmed characters, image URLs to 1-400, and a
   * username must match the pattern and be free.
   */
  function UpdateMyProfileValidator(ck: Checkers, s: Store, body: ProfileUpdate): (errors: seq<FieldError>)
    ensures |errors| == 0 <==>
      && (body.name.Some? ==> 3 <= IsLengthCount(body.name.value) <= 100)
      && (body.dateOfBirthCamel.Some? ==> ck.isIso8601(body.dateOfBirthCamel.value))
      && (body.bio.Some? ==> 1 <= IsLengthCount(Trim(body.bio.value)) <= 160)
      && (body.location.Some? ==> 1 <= IsLengthCount(Trim(body.location.value)) <= 200)
      && (body.website.Some? ==> 1 <= IsLengthCount(Trim(body.website.value)) <= 50)
      && (body.username.Some? ==>
            ck.usernamePattern(Trim(body.username.value)) && !UsernameTaken(s, Trim(body.username.value)))
      && (body.avatar.Some? ==> 1 <= IsLengthCount(Trim(body.avatar.value)) <= 400)
      && (body.coverPhoto.Some? ==> 1 <= IsLengthCount(Trim(body.coverPhoto.value)) <= 400)
    ensures body.name.Some? && !(3 <= IsLengthCount(body.name.value) <= 100) ==>
      FieldError("name", Plain(NameMustBeFrom3To100Characters)) in errors
    ensures body.dateOfBirthCamel.Some? && !ck.isIso8601(body.dateOfBirthCamel.value) ==>
      FieldError("dateOfBirth", Plain(DateOfBirthMustBeIso8601)) in errors
    ensures AllPlain(errors)
  {
    AllPlainConcat(ProfileTextErrors(ck, body), ProfileHandleErrors(ck, s, body));
    ProfileTextErrors(ck, body) + ProfileHandleErrors(ck, s, body)
  }
}
