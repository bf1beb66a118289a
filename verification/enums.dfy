/** The two enumerations of the account core, with their TypeScript ordinals. */
module Enums {
  import opened Wrappers

  /** Account verification state; `Unverified` is the default (ordinal 0). */
  datatype UserVerifyStatus = Unverified | Verified | Banned

  /** The four kinds of signed token. */
  datatype TokenType = AccessToken | RefreshToken | ForgotPasswordToken | EmailVerifyToken

  /** The numeric value TypeScript assigns to each verification status. */
  function VerifyOrdinal(v: UserVerifyStatus): (n: nat)
    ensures n < 3
    ensures VerifyFromOrdinal(n) == Some(v)
  {
    match v
    case Unverified => 0
    case Verified => 1
    case Banned => 2
  }

  /** The status with a given ordinal, if there is one. */
  function VerifyFromOrdinal(n: nat): (r: Option<UserVerifyStatus>)
    ensures r.Some? <==> n < 3
  {
    if n == 0 then Some(Unverified)
    else if n == 1 then Some(Verified)
    else if n == 2 then Some(Banned)
    else None
  }

  /** The numeric value TypeScript assigns to each token kind. */
  function TokenOrdinal(t: TokenType): (n: nat)
    ensures n < 4
    ensures TokenFromOrdinal(n) == Some(t)
  {
    match t
    case AccessToken => 0
    case RefreshToken => 1
    case ForgotPasswordToken => 2
    case EmailVerifyToken => 3
  }

  function TokenFromOrdinal(n: nat): (r: Option<TokenType>)
    ensures r.Some? <==> n < 4
  {
    if n == 0 then Some(AccessToken)
    else if n == 1 then Some(RefreshToken)
    else if n == 2 then Some(ForgotPasswordToken)
    else if n == 3 then Some(EmailVerifyToken)
    else None
  }

  /** There are exactly three statuses: the ordinals are a bijection onto 0..2. */
  lemma VerifyStatusesAreExactlyThree()
    ensures forall v :: VerifyOrdinal(v) < 3
    ensures forall n: nat :: n < 3 ==> VerifyFromOrdinal(n).Some? && VerifyOrdinal(VerifyFromOrdinal(n).value) == n
    ensures forall v, w :: VerifyOrdinal(v) == VerifyOrdinal(w) ==> v == w
    ensures VerifyOrdinal(Unverified) == 0
  {
  }

  /**
   * There are exactly four pairwise-distinct token kinds, and the ordinal of
   * the forgot-password kind (2) is below that of the email-verify kind (3).
   */
  lemma TokenKindsAreExactlyFour()
    ensures forall n: nat :: n < 4 ==> TokenFromOrdinal(n).Some? && TokenOrdinal(TokenFromOrdinal(n).value) == n
    ensures forall s, t :: TokenOrdinal(s) == TokenOrdinal(t) ==> s == t
    ensures TokenOrdinal(ForgotPasswordToken) == 2 && TokenOrdinal(EmailVerifyToken) == 3
  {
  }
}
