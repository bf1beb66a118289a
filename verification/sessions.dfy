/**
 * Properties of whole requests and of operation sequences: a validator's
 * errors go through `validate` and the error handler to become a response,
 * and the tokens one operation issues are judged by the validators of later
 * requests.
 */
module Sessions {
  import opened Wrappers
  import opened Constants
  import opened Enums
  import opened Tokens
  import opened Database
  import opened Errors
  import opened Strings
  import opened Validation
  import opened ErrorHandler
  import opened UsersService
  import opened LegacyUsersService
  import opened UsersMiddleware

  /** The answer to a request whose validator recorded `errors`: none when it passes on. */
  function Respond(errors: seq<FieldError>): Option<Response>
  {
    match ValidateOutcome(errors)
    case None => None
    case Some(e) => Some(DefaultErrorHandler(Forwarded(e)))
  }

  /** Signing never yields the empty string. */
  ghost predicate SignNonEmpty(c: Crypto)
  {
    forall p: Payload, k: string :: c.sign(p, k) != ""
  }

  /** A token a client can send back as is: non-empty, untouched by trimming, and free of "Bearer ". */
  predicate Presentable(t: string)
  {
    t != "" && !IsSpace(t[0]) && !IsSpace(t[|t| - 1]) && !Contains(t, "Bearer ")
  }

  // ------------------------------------------------------ validate + handler

  /** A lone thrown error whose status is not 422 is forwarded as it is. */
  lemma SingleThrownErrorForwarded(path: string, e: ErrorWithStatus)
    requires e.status != UnprocessableEntity
    ensures ValidateOutcome([FieldError(path, Thrown(e))]) == Some(StatusError(e))
  {
    var es := [FieldError(path, Thrown(e))];
    var m := Mapped(es);
    assert |m| > 0;
    assert FirstWithPath(es, m[0].path) == Some(m[0]);
    assert m[0] == es[0];
    assert Forwardable(m[0].msg);
  }

  /**
   * A token validator's rejection: a validator that recorded a single thrown
   * 401 for its field is answered with status 401, the error being the body.
   */
  lemma RejectionAnswered401(path: string, m: Message)
    ensures Respond([FieldError(path, Reject(m))]) ==
            Some(Response(Unauthorized, Forwarded(StatusError(NewErrorWithStatus(m, Unauthorized)))))
  {
    SingleThrownErrorForwarded(path, NewErrorWithStatus(m, Unauthorized));
  }

  /**
   * Errors that are all plain messages are answered with one 422 entity error
   * whose map has an entry for each failing field.
   */
  lemma PlainErrorsAnswered422(errors: seq<FieldError>)
    requires |errors| > 0 && AllPlain(errors)
    ensures Respond(errors).Some?
    ensures Respond(errors).value.status == UnprocessableEntity
    ensures Respond(errors).value.body.Forwarded? && Respond(errors).value.body.error.Invalid?
    ensures Respond(errors).value.body.error.entity.errors.Keys == Paths(errors)
  {
    AllPlainElements(errors);
    ValidateOutcomeForwards(errors);
    ValidateOutcomeEntity(errors);
    var m := Mapped(errors);
    forall j | 0 <= j < |m|
      ensures !Forwardable(m[j].msg)
    {
      assert FirstWithPath(errors, m[j].path) == Some(m[j]);
      assert m[j] in errors;
    }
  }

  // ------------------------------------------------------------ token errors

  /** A present access token that fails verification is answered 401 with "AccessToken " and the library's message. */
  lemma AccessTokenFailureAnswered401(c: Crypto, header: string)
    requires AccessTokenOf(header).Some?
    requires !c.verify(AccessTokenOf(header).value, c.secret(AccessSecret)).Decoded?
    ensures Respond(AccessTokenValidator(c, header).errors).Some?
    ensures Respond(AccessTokenValidator(c, header).errors).value.status == Unauthorized
    ensures Respond(AccessTokenValidator(c, header).errors).value.body ==
      Forwarded(StatusError(NewErrorWithStatus(
        Literal("AccessToken " + c.verify(AccessTokenOf(header).value, c.secret(AccessSecret)).message), Unauthorized)))
  {
    var m := Literal("AccessToken " + c.verify(AccessTokenOf(header).value, c.secret(AccessSecret)).message);
    assert AccessTokenCheck(c, header) == Failure(Reject(m));
    assert AccessTokenValidator(c, header).errors == [FieldError("authorization", Reject(m))];
    RejectionAnswered401("authorization", m);
  }

  /** A missing access token is answered 401 ACCESS_TOKEN_IS_REQUIRED. */
  lemma MissingAccessTokenAnswered401(c: Crypto, header: string)
    requires AccessTokenOf(header).None?
    ensures Respond(AccessTokenValidator(c, header).errors) ==
            Some(Response(Unauthorized, Forwarded(StatusError(NewErrorWithStatus(AccessTokenIsRequired, Unauthorized)))))
  {
    RejectionAnswered401("authorization", AccessTokenIsRequired);
  }

  /**
   * Every refresh-token outcome other than acceptance or a non-JWT library
   * error is answered 401: missing, invalid, or not in the store.
   */
  lemma RefreshTokenFailuresAnswered401(c: Crypto, s: Store, value: string)
    requires !RefreshTokenValidator(c, s, value).attached.Some?
    requires !c.verify(value, c.secret(RefreshSecret)).OtherError? || value == ""
    ensures Respond(RefreshTokenValidator(c, s, value).errors).Some?
    ensures Respond(RefreshTokenValidator(c, s, value).errors).value.status == Unauthorized
  {
    var r := RefreshTokenCheck(c, s, value);
    RejectionAnswered401("refreshToken", r.error.error.message);
  }

  /** A present email-verify token the library rejects as a JWT is answered 401 REFRESH_TOKEN_IS_INVALID. */
  lemma EmailVerifyJwtFailureAnswered401(c: Crypto, token: string)
    requires Trim(token) != "" && c.verify(Trim(token), c.secret(EmailVerifySecret)).JwtError?
    ensures Respond(VerifyEmailValidator(c, token).errors) ==
            Some(Response(Unauthorized, Forwarded(StatusError(NewErrorWithStatus(RefreshTokenIsInvalid, Unauthorized)))))
  {
    RejectionAnswered401("emailVerifyToken", RefreshTokenIsInvalid);
  }

  /** Every forgot-password-token failure except a non-JWT library error is answered 401. */
  lemma ForgotPasswordTokenFailuresAnswered401(c: Crypto, s: Store, token: string)
    requires !ForgotPasswordTokenCheck(c, s, token).Success?
    requires !c.verify(Trim(token), c.secret(ForgotPasswordSecret)).OtherError?
    ensures Respond(VerifyForgotPasswordTokenValidator(c, s, token).errors).Some?
    ensures Respond(VerifyForgotPasswordTokenValidator(c, s, token).errors).value.status == Unauthorized
  {
    var r := ForgotPasswordTokenCheck(c, s, token);
    RejectionAnswered401("forgotPasswordToken", r.error.error.message);
  }

  // ---------------------------------------------------------- registration

  /**
   * A well-formed email that is already taken stops registration: the
   * request is answered 422 with an entry for `email`, so the service never runs.
   */
  lemma DuplicateEmailRejected(ck: Checkers, s: Store, body: RegisterBody)
    requires body.email != "" && ck.isEmail(body.email)
    requires exists j :: 0 <= j < |s.users| && s.users[j].email == Trim(body.email)
    ensures FieldError("email", Plain(EmailAlreadyExists)) in RegisterValidator(ck, s, body)
    ensures Respond(RegisterValidator(ck, s, body)).Some?
    ensures Respond(RegisterValidator(ck, s, body)).value.status == UnprocessableEntity
    ensures "email" in Respond(RegisterValidator(ck, s, body)).value.body.error.entity.errors
  {
    var errors := RegisterValidator(ck, s, body);
    var email := FieldErrors("email", RegisterEmailCheck(ck, s, body.email));
    assert email == [FieldError("email", Plain(EmailAlreadyExists))];
    assert errors == FieldErrors("name", NameCheck(body.name)) + email
      + FieldErrors("password", PasswordCheck(body.password))
      + FieldErrors("confirm_password", ConfirmPasswordCheck(body.password, body.confirmPassword))
      + FieldErrors("dateOfBirth", DateOfBirthCheck(ck, body.dateOfBirthCamel));
    PlainErrorsAnswered422(errors);
    PathsContainEach(errors);
  }

  /** How an access token travels: in the `authorization` header after "Bearer ". */
  function BearerHeader(t: string): string
  {
    "Bearer " + t
  }

  /** The access validator finds a presentable token in its bearer header. */
  lemma BearerRoundTrip(t: string)
    requires Presentable(t)
    ensures AccessTokenOf(BearerHeader(t)) == Some(t)
  {
    var v := BearerHeader(t);
    assert v[0] == 'B' && v[|v| - 1] == t[|t| - 1];
    TrimUnchanged(v);
    SplitLeadingSeparator("Bearer ", t);
    assert BearerToken(v) == Some(t);
  }

  /** An access token signed for a user is accepted from its bearer header, with the claims it was signed with. */
  lemma IssuedAccessTokenAccepted(c: Crypto, u: UserId, v: UserVerifyStatus)
    requires VerifyComplete(c)
    requires Presentable(Issue(c, Signer(AccessToken, u, v)))
    ensures AccessTokenValidator(c, BearerHeader(Issue(c, Signer(AccessToken, u, v))))
            == Checked([], Some(Payload(u, AccessToken, Some(v))))
  {
    BearerRoundTrip(Issue(c, Signer(AccessToken, u, v)));
    TokenDecodesUnderOwnSecret(c, AccessToken, u, v);
  }

  /**
   * Right after registration the returned access token is accepted, carries
   * the new id and the Unverified claim, and so the verified-user gate
   * answers 403.
   */
  lemma RegisteredUserIsNotVerified(c: Crypto, parseDate: string -> int, s: Store, body: RegisterBody,
                                    newId: UserId, now: int)
    requires VerifyComplete(c)
    requires Register(c, parseDate, s, body, newId, now).Success?
    requires Presentable(Register(c, parseDate, s, body, newId, now).value.result.accessToken)
    ensures var t := Register(c, parseDate, s, body, newId, now).value.result.accessToken;
            AccessTokenValidator(c, BearerHeader(t)) == Checked([], Some(Payload(newId, AccessToken, Some(Unverified))))
    ensures DefaultErrorHandler(Forwarded(VerifiedUserValidator(Payload(newId, AccessToken, Some(Unverified))).value)).status
            == Forbidden
  {
    var pair := Register(c, parseDate, s, body, newId, now).value.result;
    assert PairFor(c, pair, newId, Unverified);
    IssuedAccessTokenAccepted(c, newId, Unverified);
    GateAnswers403(Payload(newId, AccessToken, Some(Unverified)));
  }

  /**
   * The verified-user gate answers 403 EMAIL_NOT_VERIFIED, through the
   * handler, for claims whose status is Unverified or Banned or missing.
   */
  lemma GateAnswers403(decoded: Payload)
    requires decoded.verify != Some(Verified)
    ensures VerifiedUserValidator(decoded).Some?
    ensures DefaultErrorHandler(Forwarded(VerifiedUserValidator(decoded).value))
            == Response(Forbidden, Forwarded(StatusError(NewErrorWithStatus(EmailNotVerified, Forbidden))))
  {
    HandlerUsesConstructedStatus(EmailNotVerified, Forbidden);
  }

  /** After email verification the returned access token passes the verified-user gate. */
  lemma VerifiedUserPassesGate(c: Crypto, s: Store, userId: UserId, now: int)
    requires VerifyComplete(c)
    requires Presentable(VerifyEmail(c, s, userId, now).result.accessToken)
    ensures var t := VerifyEmail(c, s, userId, now).result.accessToken;
            AccessTokenValidator(c, BearerHeader(t)) == Checked([], Some(Payload(userId, AccessToken, Some(Verified))))
    ensures VerifiedUserValidator(Payload(userId, AccessToken, Some(Verified))).None?
  {
    IssuedAccessTokenAccepted(c, userId, Verified);
  }

  /**
   * A token of another kind (an email-verify or forgot-password token, say)
   * sent as the bearer token is refused with 401.
   */
  lemma OtherKindRefusedAsAccessToken(c: Crypto, kind: TokenType, u: UserId, v: UserVerifyStatus)
    requires SignInjective(c) && SecretsDistinct(c) && VerifySound(c)
    requires kind != AccessToken
    requires Presentable(Issue(c, Signer(kind, u, v)))
    ensures AccessTokenValidator(c, BearerHeader(Issue(c, Signer(kind, u, v)))).attached.None?
    ensures Respond(AccessTokenValidator(c, BearerHeader(Issue(c, Signer(kind, u, v)))).errors).value.status == Unauthorized
  {
    var t := Issue(c, Signer(kind, u, v));
    BearerRoundTrip(t);
    TokenRejectedUnderOtherKindSecret(c, kind, AccessToken, u, v);
    AccessTokenFailureAnswered401(c, BearerHeader(t));
  }

  /**
   * The older service's access tokens are refused by the access validator,
   * being signed with the default secret; and their claims, lacking a verify
   * field, would not pass the verified-user gate either.
   */
  lemma LegacyAccessTokenRefused(c: Crypto, userId: UserId)
    requires SignInjective(c) && SecretsDistinct(c) && VerifySound(c)
    requires Presentable(Issue(c, LegacySigner(AccessToken, userId)))
    ensures AccessTokenValidator(c, BearerHeader(Issue(c, LegacySigner(AccessToken, userId)))).attached.None?
    ensures VerifiedUserValidator(LegacySigner(AccessToken, userId).payload).Some?
  {
    BearerRoundTrip(Issue(c, LegacySigner(AccessToken, userId)));
  }

  // -------------------------------------------------------------- sessions

  /** A session opened by login and closed by logout leaves every token's record count as it was. */
  lemma LoginThenLogoutRestoresCounts(c: Crypto, s: Store, userId: UserId, verify: UserVerifyStatus, now: int)
    ensures var login := Login(c, s, userId, verify, now);
            var logout := Logout(login.store, login.result.refreshToken);
            && logout.store.users == s.users
            && forall t :: Count(logout.store.refreshTokens, t) == Count(s.refreshTokens, t)
  {
  }

  /** The refresh token login returns is accepted by the refresh validator with the claims it was signed with. */
  lemma LoginRefreshTokenAccepted(c: Crypto, s: Store, userId: UserId, verify: UserVerifyStatus, now: int)
    requires VerifyComplete(c) && SignNonEmpty(c)
    ensures var login := Login(c, s, userId, verify, now);
            RefreshTokenCheck(c, login.store, login.result.refreshToken) == Success(Payload(userId, RefreshToken, Some(verify)))
  {
    var login := Login(c, s, userId, verify, now);
    assert Count(login.store.refreshTokens, login.result.refreshToken) > 0;
    TokenDecodesUnderOwnSecret(c, RefreshToken, userId, verify);
  }

  /** Once the only record of a refresh token is logged out, the token is answered REFRESH_TOKEN_NOT_FOUND. */
  lemma LogoutRevokesRefreshToken(c: Crypto, s: Store, token: string)
    requires VerifyComplete(c)
    requires Count(s.refreshTokens, token) == 1
    requires token != "" && c.verify(token, c.secret(RefreshSecret)).Decoded?
    ensures RefreshTokenCheck(c, Logout(s, token).store, token) == Failure(Reject(RefreshTokenNotFound))
  {
    assert Count(Logout(s, token).store.refreshTokens, token) == 0;
  }

  /**
   * The refresh token `verifyEmail` returns is never stored, so unless an
   * equal token was stored before, the refresh validator answers
   * REFRESH_TOKEN_NOT_FOUND for it.
   */
  lemma VerifyEmailRefreshTokenNotFound(c: Crypto, s: Store, userId: UserId, now: int)
    requires VerifyComplete(c) && SignNonEmpty(c)
    requires !HasToken(s, VerifyEmail(c, s, userId, now).result.refreshToken)
    ensures var step := VerifyEmail(c, s, userId, now);
            RefreshTokenCheck(c, step.store, step.result.refreshToken) == Failure(Reject(RefreshTokenNotFound))
  {
    TokenDecodesUnderOwnSecret(c, RefreshToken, userId, Verified);
  }

  /** With the refresh token persisted, the refresh validator accepts it. */
  lemma VerifyEmailPersistedRefreshTokenAccepted(c: Crypto, s: Store, userId: UserId, now: int)
    requires VerifyComplete(c) && SignNonEmpty(c)
    ensures var step := VerifyEmailPersisted(c, s, userId, now);
            RefreshTokenCheck(c, step.store, step.result.refreshToken) == Success(Payload(userId, RefreshToken, Some(Verified)))
  {
    TokenDecodesUnderOwnSecret(c, RefreshToken, userId, Verified);
  }

  /**
   * The forgot-password token is single use: the token `forgotPassword`
   * stores is accepted, and after `resetPassword` the same token is refused
   * with 401 FORGOT_PASSWORD_TOKEN_INVALID.
   */
  lemma ForgotPasswordTokenSingleUse(c: Crypto, s: Store, userId: UserId, verify: UserVerifyStatus,
                                     now: int, newPassword: string, later: int)
    requires VerifyComplete(c)
    requires Lookup(s, userId).Some?
    requires Presentable(Issue(c, Signer(ForgotPasswordToken, userId, verify)))
    ensures var token := Issue(c, Signer(ForgotPasswordToken, userId, verify));
            var s1 := ForgotPassword(c, s, userId, verify, now).store;
            ForgotPasswordTokenCheck(c, s1, token) == Success(Payload(userId, ForgotPasswordToken, Some(verify)))
    ensures var token := Issue(c, Signer(ForgotPasswordToken, userId, verify));
            var s1 := ForgotPassword(c, s, userId, verify, now).store;
            var s2 := ResetPassword(c, s1, userId, newPassword, later).store;
            ForgotPasswordTokenCheck(c, s2, token) == Failure(Reject(ForgotPasswordTokenInvalid))
  {
    var token := Issue(c, Signer(ForgotPasswordToken, userId, verify));
    TrimUnchanged(token);
    TokenDecodesUnderOwnSecret(c, ForgotPasswordToken, userId, verify);
  }

  /**
   * The email-verify token `resendVerifyEmail` stores is the one the email
   * verification validator accepts, with the user's id and the Unverified claim.
   */
  lemma ResentVerifyTokenAccepted(c: Crypto, s: Store, userId: UserId, now: int)
    requires VerifyComplete(c)
    requires Lookup(s, userId).Some?
    requires var t := Issue(c, Signer(EmailVerifyToken, userId, Unverified)); t != "" && Trim(t) == t
    ensures var s' := ResendVerifyEmail(c, s, userId, now).store;
            && Lookup(s', userId).Some?
            && VerifyEmailCheck(c, Lookup(s', userId).value.emailVerifyToken)
               == Success(Payload(userId, EmailVerifyToken, Some(Unverified)))
  {
    TokenDecodesUnderOwnSecret(c, EmailVerifyToken, userId, Unverified);
  }

  // -------------------------------------------------------------- followers

  /** Following twice: the second call answers FOLLOWED and leaves the edges as the first call left them. */
  lemma FollowTwice(s: Store, userId: UserId, followUserId: UserId)
    ensures var first := FollowUser(s, userId, followUserId);
            var second := FollowUser(first.store, userId, followUserId);
            second.result == Followed && second.store == first.store
  {
  }

  /** Following then unfollowing a user one did not follow restores the edges. */
  lemma FollowThenUnfollowRestores(s: Store, userId: UserId, followUserId: UserId)
    requires FollowEdge(userId, followUserId) !in s.followers
    ensures var followed := FollowUser(s, userId, followUserId);
            var unfollowed := UnFollowUser(followed.store, userId, followUserId);
            && followed.result == FollowUserSuccess
            && unfollowed.result == UnfollowUserSuccess
            && unfollowed.store == s
  {
    var edge := FollowEdge(userId, followUserId);
    assert s.followers + {edge} - {edge} == s.followers;
  }

  // ---------------------------------------------------------------- profile

  /** The store with user `i`'s password hash and tokens replaced. */
  function WithSecrets(s: Store, i: nat, pw: string, evt: string, fpt: string): Store
    requires i < |s.users|
  {
    s.(users := s.users[i := s.users[i].(password := pw, emailVerifyToken := evt, forgotPasswordToken := fpt)])
  }

  /** Replacing secrets leaves every id lookup at the same position, with the same profile. */
  lemma MyProfileIgnoresSecrets(s: Store, i: nat, pw: string, evt: string, fpt: string, id: UserId)
    requires i < |s.users|
    ensures GetMyProfile(WithSecrets(s, i, pw, evt, fpt), id) == GetMyProfile(s, id)
  {
    var s' := WithSecrets(s, i, pw, evt, fpt);
    ProfileIgnoresSecrets(s.users[i], pw, evt, fpt);
    FindFromAgrees(s.users, s'.users, ById(id), 0);
    match FindIndex(s.users, ById(id))
    case None =>
    case Some(k) =>
      assert ToProfile(s'.users[k]) == ToProfile(s.users[k]);
  }

  /** Replacing secrets leaves every username lookup at the same position, with the same profile. */
  lemma PublicProfileIgnoresSecrets(s: Store, i: nat, pw: string, evt: string, fpt: string, username: string)
    requires i < |s.users|
    ensures GetProfile(WithSecrets(s, i, pw, evt, fpt), username) == GetProfile(s, username)
  {
    var s' := WithSecrets(s, i, pw, evt, fpt);
    ProfileIgnoresSecrets(s.users[i], pw, evt, fpt);
    FindFromAgrees(s.users, s'.users, ByUsername(username), 0);
    match FindIndex(s.users, ByUsername(username))
    case None =>
    case Some(k) =>
      assert ToProfile(s'.users[k]) == ToProfile(s.users[k]);
  }

  /** Reading one's profile right after updating it gives what the update returned. */
  lemma UpdateThenReadAgrees(parseDate: string -> int, s: Store, userId: UserId, body: ProfileUpdate, now: int)
    ensures var step := UpdateMyProfile(parseDate, s, userId, body, now);
            GetMyProfile(step.store, userId) == step.result
  {
  }

  /** Changing a user's password hash or tokens never changes what either profile read returns. */
  lemma ProfileReadsIgnoreSecrets(s: Store, i: nat, pw: string, evt: string, fpt: string, id: UserId, username: string)
    requires i < |s.users|
    ensures var s' := WithSecrets(s, i, pw, evt, fpt);
            GetMyProfile(s', id) == GetMyProfile(s, id) && GetProfile(s', username) == GetProfile(s, username)
  {
    MyProfileIgnoresSecrets(s, i, pw, evt, fpt, id);
    PublicProfileIgnoresSecrets(s, i, pw, evt, fpt, username);
  }
}
