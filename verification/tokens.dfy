/**
 * Token signing. The JWT library, the secrets read from the environment and
 * the password hash are collaborators the model cannot see, so they are
 * parameters (`Crypto`); the signers themselves only decide WHAT is signed and
 * with WHICH secret, and that decision is modelled exactly.
 */
module Tokens {
  import opened Wrappers
  import opened Enums

  /** The string form of a user's ObjectId. */
  type UserId = string

  /**
   * The claims a token carries. `verify` is `None` for tokens of the older
   * service, whose payload has no verification claim.
   */
  datatype Payload = Payload(userId: UserId, tokenType: TokenType, verify: Option<UserVerifyStatus>)

  /** The environment variables holding signing secrets. */
  datatype SecretVar =
    | DefaultSecret          // JWT_SECRET, used when no private key is passed
    | AccessSecret           // JWT_SECRET_ACCESS_TOKEN
    | RefreshSecret          // JWT_SECRET_REFRESH_TOKEN
    | EmailVerifySecret      // JWT_SECRET_EMAIL_VERIFY_TOKEN
    | ForgotPasswordSecret   // JWT_SECRET_FORGOT_PASSWORD_TOKEN

  /**
   * What verifying a token against a secret yields: the decoded claims, a
   * `JsonWebTokenError` (bad signature, malformed, expired), or another error.
   */
  datatype VerifyResult = Decoded(payload: Payload) | JwtError(message: string) | OtherError(message: string)

  /**
   * The uninterpreted collaborators: the secret values, `jwt.sign`,
   * `verifyToken` and `hashPassword`.
   */
  datatype Crypto = Crypto(
    secret: SecretVar -> string,
    sign: (Payload, string) -> string,
    verify: (string, string) -> VerifyResult,
    hash: string -> string)

  /** What one signer hands to the JWT library: the claims and the secret variable. */
  datatype SignRequest = SignRequest(payload: Payload, secret: SecretVar)

  /** The secret variable each kind of token is signed and verified with. */
  function SecretOf(kind: TokenType): (v: SecretVar)
    ensures v != DefaultSecret
  {
    match kind
    case AccessToken => AccessSecret
    case RefreshToken => RefreshSecret
    case ForgotPasswordToken => ForgotPasswordSecret
    case EmailVerifyToken => EmailVerifySecret
  }

  /** Every kind has its own secret variable. */
  lemma SecretOfInjective()
    ensures forall k1: TokenType, k2: TokenType :: k1 != k2 ==> SecretOf(k1) != SecretOf(k2)
  {
  }

  /**
   * The four signers of the newer service (`signAccessToken`,
   * `signRefreshToken`, `signEmailVerifyToken`, `signForgotPasswordToken`):
   * each tags the payload with its own kind, carries the user id and status,
   * and names its own secret, distinct from every other kind's.
   */
  function Signer(kind: TokenType, userId: UserId, verify: UserVerifyStatus): (r: SignRequest)
    ensures r.payload.tokenType == kind
    ensures r.payload.userId == userId && r.payload.verify == Some(verify)
    ensures r.secret != DefaultSecret
    ensures forall other: TokenType :: other != kind ==> r.secret != SecretOf(other)
  {
    SignRequest(Payload(userId, kind, Some(verify)), SecretOf(kind))
  }

  /** The signed string the library returns for a request. */
  function Issue(c: Crypto, req: SignRequest): string
  {
    c.sign(req.payload, c.secret(req.secret))
  }

  /** Signing is injective: different claims or secrets give different strings. */
  ghost predicate SignInjective(c: Crypto)
  {
    forall p1: Payload, k1: string, p2: Payload, k2: string ::
      c.sign(p1, k1) == c.sign(p2, k2) ==> p1 == p2 && k1 == k2
  }

  /** The five secret variables hold pairwise different values. */
  ghost predicate SecretsDistinct(c: Crypto)
  {
    forall v1: SecretVar, v2: SecretVar :: v1 != v2 ==> c.secret(v1) != c.secret(v2)
  }

  /** Verification only decodes what was signed with that very secret. */
  ghost predicate VerifySound(c: Crypto)
  {
    forall t: string, k: string :: c.verify(t, k).Decoded? ==> t == c.sign(c.verify(t, k).payload, k)
  }

  /** Verification decodes every unexpired token signed with the same secret. */
  ghost predicate VerifyComplete(c: Crypto)
  {
    forall p: Payload, k: string :: c.verify(c.sign(p, k), k) == Decoded(p)
  }

  /** No signer emits a string another signer can emit, whatever the users and statuses. */
  lemma DistinctKindsGiveDistinctTokens(c: Crypto, k1: TokenType, u1: UserId, v1: UserVerifyStatus,
                                        k2: TokenType, u2: UserId, v2: UserVerifyStatus)
    requires SignInjective(c)
    requires k1 != k2
    ensures Issue(c, Signer(k1, u1, v1)) != Issue(c, Signer(k2, u2, v2))
  {
  }

  /**
   * A token of one kind never verifies under another kind's secret, provided
   * the secrets differ: an email-verify token cannot pass as an access token.
   */
  lemma TokenRejectedUnderOtherKindSecret(c: Crypto, kind: TokenType, other: TokenType,
                                          u: UserId, v: UserVerifyStatus)
    requires SignInjective(c) && SecretsDistinct(c) && VerifySound(c)
    requires kind != other
    ensures !c.verify(Issue(c, Signer(kind, u, v)), c.secret(SecretOf(other))).Decoded?
  {
  }

  /** Verifying with the kind's own secret gives back exactly the signed claims. */
  lemma TokenDecodesUnderOwnSecret(c: Crypto, kind: TokenType, u: UserId, v: UserVerifyStatus)
    requires VerifyComplete(c)
    ensures c.verify(Issue(c, Signer(kind, u, v)), c.secret(SecretOf(kind)))
         == Decoded(Payload(u, kind, Some(v)))
  {
  }
}
