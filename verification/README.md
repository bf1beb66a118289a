# Users core of a Twitter-style REST API, modelled in Dafny

The system is an Express and MongoDB back end for a small Twitter-like site.
This project models its account and session core as pure functions over an
immutable store:

- registration, with the legacy register that predates email verification;
- login and logout, with refresh tokens kept in their own collection;
- email verification and resending the verification email;
- forgot password and reset password;
- reading and updating one's own profile, and reading a public profile by username;
- following and unfollowing.

It also models the request validators in front of these operations, the
`validate` middleware that turns their results into at most one error, the
error classes, and the default error handler that picks the HTTP status. Two
upload helpers are included: the multipart upload filter and
`getNameFromFullName`.

The store is `Database.Store`. It holds the `users` and `refresh_tokens`
collections as sequences. The model takes insertion order as the order
`findOne` and `deleteOne` scan, so each acts on the first match in that
order. It holds the
`followers` collection as a set of edges. Every collaborator the code
reaches through a library is a parameter:

- JWT signing and verification, environment secrets and password hashing
  are `Tokens.Crypto`;
- express-validator's `isEmail` and `isISO8601`, and the username regular
  expression, are `UsersMiddleware.Checkers`;
- the date parser and the clock are function arguments.

The properties that need the JWT library to behave are stated under named
assumptions about `Crypto`, each of them a `requires` of the lemma that
uses it:

- `VerifyComplete`: a token verifies under the secret it was signed with;
- `VerifySound`: a verified token was signed with that secret;
- `SignInjective`: signing is injective;
- `SecretsDistinct`: the five secret variables hold different values. These are the four per-kind secrets and the default key (`JWT_SECRET`) the legacy signer uses.

Modules:

- `Wrappers`: `Option` and `Result`.
- `Constants`: HTTP statuses and user messages.
- `Enums`: `UserVerifyStatus` and `TokenType`.
- `Tokens`: the four signers.
- `Errors`: the error classes.
- `ErrorHandler`: the default error handler.
- `Database`: the store and its lookups.
- `Strings`: split, join and trim.
- `Validation`: the `validate` middleware.
- `UsersService` and `LegacyUsersService`: the two services.
- `UsersMiddleware`: the validators.
- `FileUtils`: the upload helpers.
- `Sessions`: properties that span several of the above.

A few oddities of the validators are kept as the code has them:

- a missing email-verify token is answered EMAIL_IS_REQUIRED;
- a JWT failure of an email-verify or forgot-password token is answered
  REFRESH_TOKEN_IS_INVALID;
- no validator looks at the `token_type` claim, so only the secret tells
  the token types apart.

## Model

| member | source | states |
|---|---|---|
| Enums.VerifyOrdinal | server/src/constants/enum.ts:1-5 | a verify status's number is below 3 and maps back to the same status |
| Enums.VerifyFromOrdinal | server/src/constants/enum.ts:1-5 | a number names a verify status exactly when it is 0, 1 or 2 |
| Enums.VerifyStatusesAreExactlyThree | server/src/constants/enum.ts:1-5 | the numbering is a bijection onto 0..2, and Unverified is the default 0 |
| Enums.TokenOrdinal | server/src/constants/enum.ts:7-12 | a token type's number is below 4 and maps back to the same type |
| Enums.TokenFromOrdinal | server/src/constants/enum.ts:7-12 | a number names a token type exactly when it is below 4 |
| Enums.TokenKindsAreExactlyFour | server/src/constants/enum.ts:7-12 | the numbering is a bijection onto 0..3; ForgotPasswordToken is 2 and EmailVerifyToken is 3 |
| Tokens.SecretOf | server/src/services/users.services.ts:15-73 | each token type is signed with one of the four named secrets, never with the default key |
| Tokens.SecretOfInjective | server/src/services/users.services.ts:15-73 | different token types use different secret variables |
| Tokens.Signer | server/src/services/users.services.ts:15-73 | a signer puts its own token type, the user id and the verify status in the payload, and signs with a secret that belongs to no other token type |
| Tokens.DistinctKindsGiveDistinctTokens | server/src/services/users.services.ts:15-73 | tokens of two different types are never equal strings, whatever the user and status |
| Tokens.TokenRejectedUnderOtherKindSecret | server/src/services/users.services.ts:15-73 | a token of one type never decodes under the secret of another type |
| Tokens.TokenDecodesUnderOwnSecret | server/src/services/users.services.ts:15-73 | a signed token decodes under its own type's secret to exactly the payload it was signed with |
| Errors.NewEntityError | server/src/models/Errors.ts:21-34 | an entity error always has status 422; its message defaults to VALIDATION_ERROR; its field map is the one given |
| Errors.EntityStatusArgumentIgnored | server/src/models/Errors.ts:21-34 | the optional status argument of the entity error has no effect on the error built |
| Errors.NewErrorWithStatus | server/src/models/Errors.ts:12-20 | the constructor keeps the message and the status exactly as given, zero included |
| ErrorHandler.DefaultErrorHandler | src/middlewares/error.middleware.ts:4-6 | the body is the error itself; a nonzero status is used as the response status; a missing or zero status gives 500 |
| ErrorHandler.HandlerStatusNeverZero | src/middlewares/error.middleware.ts:4-6 | the response status is never 0 |
| ErrorHandler.HandlerUsesConstructedStatus | server/src/models/Errors.ts:12-20 | an ErrorWithStatus built with a nonzero status is answered with that status, and its message is kept |
| ErrorHandler.EntityErrorAnsweredWith422 | src/middlewares/error.middleware.ts:4-6 | any entity error is answered with 422 |
| Database.FindOne | server/src/services/users.services.ts:103-106 | `findOne` finds a user exactly when some stored user matches the filter, and what it returns is a stored, matching user |
| Database.FindByUsername | server/src/services/users.services.ts:248-250 | looking a user up by username succeeds exactly when some stored user has that username |
| Database.DeleteOneToken | server/src/services/users.services.ts:119-120 | `deleteOne` removes one record of the token when there is one and none otherwise; the result is a sub-multiset; other tokens keep their counts |
| Database.ToProfile | server/src/services/users.services.ts:210-221 | the projection keeps the id, email, verify status and username |
| Database.ProfileIgnoresSecrets | server/src/services/users.services.ts:214-218 | the projection does not depend on the password hash or either stored token |
| UsersService.Register | server/src/services/users.services.ts:75-101 | an existing `_id` fails with a duplicate key and no change; otherwise exactly one user is added: unverified, holding the email-verify token signed for it, the hashed password, and the parsed `date_of_birth`. One refresh record is added for the returned refresh token; other users and the followers are unchanged; the returned pair is signed for the new id with Unverified |
| UsersService.SignPair | server/src/services/users.services.ts:43-45 | the access and refresh tokens are signed for the same id and status |
| UsersService.CheckEmailExist | server/src/services/users.services.ts:103-106 | true exactly when some stored user has that email |
| UsersService.Login | server/src/services/users.services.ts:108-117 | users and followers are unchanged; exactly one refresh record, for the returned refresh token, is added; the pair is signed for the given id and status |
| UsersService.Logout | server/src/services/users.services.ts:119-124 | answers LOGOUT_SUCCESS; only the token's record count can drop, by one when it was stored, and nothing changes when it was not |
| UsersService.VerifyEmail | server/src/services/users.services.ts:126-147 | the user becomes Verified with an empty email-verify token and a new update time; other users, tokens and followers are unchanged; the pair is signed with Verified; a missing user changes nothing |
| UsersService.VerifyEmailPersisted | server/src/services/users.services.ts:126-147 | the corrected verifyEmail: the same user update, and the returned refresh token is also stored |
| UsersService.ResendVerifyEmail | server/src/services/users.services.ts:149-170 | the user's email-verify token is replaced by a fresh Unverified one and nothing else changes; answers EMAIL_RESEND_VERIFY_SUCCESS |
| UsersService.ForgotPassword | server/src/services/users.services.ts:172-189 | the user's forgot-password token is replaced by one signed for the id and status and nothing else changes; answers CHECK_EMAIL_TO_RESET_PASSWORD |
| UsersService.ResetPassword | server/src/services/users.services.ts:191-208 | the password becomes the hash of the new password and the forgot-password token is cleared; nothing else changes; answers RESET_PASSWORD_SUCCESS |
| UsersService.GetMyProfile | server/src/services/users.services.ts:210-222 | a profile is returned exactly when the id is stored, and it is that user's projection |
| UsersService.ApplyProfileUpdate | server/src/services/users.services.ts:224-234 | every schema key present in the body replaces the stored field and every absent key leaves it. A non-empty `date_of_birth` is parsed and an empty one is stored as the empty text, and `dateOfBirth` is stored unparsed as a field of its own. `updated_at` becomes now. Id, email, verify status, password and tokens are not among the body's keys and never change |
| UsersService.UpdateMyProfile | server/src/services/users.services.ts:224-246 | only the addressed user changes, as the update says, and the projection of the updated document is returned, `dateOfBirth` field included; a missing user changes nothing and returns null |
| UsersService.GetProfile | server/src/services/users.services.ts:248-260 | a profile is returned exactly when some user has that username; it is a stored user's projection with that username |
| UsersService.FollowUser | server/src/services/users.services.ts:262-279 | afterwards the edge is present and no other edge changed; FOLLOW_USER_SUCCESS exactly when it was absent, FOLLOWED exactly when it was present |
| UsersService.UnFollowUser | server/src/services/users.services.ts:281-296 | afterwards the edge is absent and no other edge changed; UNFOLLOW_USER_SUCCESS exactly when it was present; ALREADY_UNFOLLOWED exactly when absent, with nothing changed |
| LegacyUsersService.LegacySigner | src/services/users.services.ts:10-32 | legacy tokens carry the type and id but no verify status, and are signed with the default key, which no current token type uses |
| LegacyUsersService.LegacyRegister | src/services/users.services.ts:34-48 | one user is added with the hashed password and parsed date; no refresh record is stored; the returned tokens are legacy tokens for the new id |
| LegacyUsersService.LegacyCheckEmailExist | src/services/users.services.ts:50-53 | true exactly when some stored user has that email |
| Validation.Mapped | server/src/utils/validation.ts:16 | `mapped()` has exactly one entry per failing field, and it is that field's first error |
| Validation.ValidateOutcome | server/src/utils/validation.ts:10-28 | `next` gets no error exactly when no check failed |
| Validation.ValidateOutcomeForwards | server/src/utils/validation.ts:20-23 | an error is forwarded on its own exactly when some field's first error is a thrown error with a status other than 422, and it is one of the recorded errors |
| Validation.ValidateOutcomeEntity | server/src/utils/validation.ts:17-27 | otherwise the one error is a 422 VALIDATION_ERROR whose map has exactly the failing fields, each with its first error |
| Validation.ForwardsAt | server/src/utils/validation.ts:20-23 | the first forwardable entry in mapped order is the one forwarded |
| Validation.Validate | server/src/utils/validation.ts:9-29 | the loop calls `next` exactly once, with the outcome above |
| UsersMiddleware.IsStrongPassword | src/middlewares/users.middleware.ts:25-28 | strong means at least 6 characters with a lower-case letter, an upper-case letter, a digit and a symbol |
| UsersMiddleware.PasswordCheck | src/middlewares/users.middleware.ts:17-29 | passes exactly when the trimmed password is strong; an empty one is PASSWORD_IS_REQUIRED, a weak one PASSWORD_MUST_BE_STRONG |
| UsersMiddleware.ConfirmPasswordCheck | src/middlewares/users.middleware.ts:31-42 | passes exactly when the confirmation is present and equal to the password after trimming; otherwise the matching message |
| UsersMiddleware.NameCheck | src/middlewares/users.middleware.ts:87-97 | passes exactly when the name has 3 to 100 characters as `isLength` counts them, variation selectors left out; an empty name is NAME_IS_REQUIRED |
| UsersMiddleware.ProfileNameCheck | src/middlewares/users.middleware.ts:340-344 | the profile name passes exactly when it has 3 to 100 characters as `isLength` counts them; any other name, the empty one included, gets NAME_MUST_BE_FROM_3_TO_100_CHARACTERS |
| UsersMiddleware.ProfileNameDiffersOnlyWhenEmpty | src/middlewares/users.middleware.ts:340-344 | removing `notEmpty` changes only the answer to the empty name, which becomes the length message instead of NAME_IS_REQUIRED |
| UsersMiddleware.SelectorNotCountedInName | src/middlewares/users.middleware.ts:340-344 | appending a variation selector never changes the profile name rule's answer; "ab" plus U+FE0F is two characters long and both name rules refuse it |
| UsersMiddleware.DateOfBirthCheck | src/middlewares/users.middleware.ts:99-107 | passes exactly when the value is strict ISO 8601 |
| UsersMiddleware.RegisterEmailCheck | src/middlewares/users.middleware.ts:155-170 | passes exactly when the email is present, valid and not yet stored; a stored email is EMAIL_ALREADY_EXISTS |
| UsersMiddleware.LoginValidator | src/middlewares/users.middleware.ts:124-150 | no error exactly when both fields are present, the email is valid and a user has that email and the hashed password; that user is then attached. The email's first error is EMAIL_IS_REQUIRED, EMAIL_IS_INVALID or, when no user matches, EMAIL_OR_PASSWORD_IS_INCORRECT; an empty password is PASSWORD_IS_REQUIRED |
| UsersMiddleware.RegisterValidator | src/middlewares/users.middleware.ts:152-176 | the register schema as written: no error exactly when every field passes, with the date read from the key `dateOfBirth` |
| UsersMiddleware.RegisterValidatorChecked | src/middlewares/users.middleware.ts:152-176 | the corrected schema, which checks the `date_of_birth` the service reads |
| UsersMiddleware.RegisterDateKeyMismatch | src/middlewares/users.middleware.ts:173 | with the other rules met, a body with only a valid `date_of_birth` is refused and one with only a valid `dateOfBirth` passes; the corrected validator decides both the other way |
| UsersMiddleware.BearerToken | src/middlewares/users.middleware.ts:190 | `split('Bearer ')[1]` exists exactly when the header contains "Bearer ", and it contains no further "Bearer " |
| UsersMiddleware.BearerTokenShape | src/middlewares/users.middleware.ts:190 | that piece sits between the first "Bearer " and the next one, or the end |
| UsersMiddleware.AccessTokenOf | src/middlewares/users.middleware.ts:181-195 | a token is taken exactly when the trimmed header has a non-empty piece after "Bearer " |
| UsersMiddleware.AccessTokenCheck | src/middlewares/users.middleware.ts:183-209 | a missing token gives 401 ACCESS_TOKEN_IS_REQUIRED; any verification failure gives 401 "AccessToken " plus the library's message; every failure is a 401 |
| UsersMiddleware.AccessTokenValidator | src/middlewares/users.middleware.ts:178-214 | the payload is attached exactly when the token decodes under the access secret; every error is a forwardable one on `authorization` |
| UsersMiddleware.RefreshTokenCheck | src/middlewares/users.middleware.ts:216-253 | passes exactly when the token is present, decodes under the refresh secret and is stored; otherwise REQUIRED, IS_INVALID or NOT_FOUND with 401, and non-JWT errors are rethrown |
| UsersMiddleware.RefreshTokenValidator | src/middlewares/users.middleware.ts:216-253 | the payload is attached exactly when the check passes; errors are on `refreshToken` |
| UsersMiddleware.VerifyEmailCheck | src/middlewares/users.middleware.ts:255-284 | passes exactly when the trimmed token is present and decodes under the email-verify secret; otherwise 401 with the message the code uses |
| UsersMiddleware.VerifyEmailValidator | src/middlewares/users.middleware.ts:255-284 | the payload is attached exactly when the check passes; errors are on `emailVerifyToken` |
| UsersMiddleware.ForgotPasswordTokenCheck | src/middlewares/users.middleware.ts:44-85 | passes exactly when the token decodes, its user exists and the user still holds this token; each failure is a 401 with its own message |
| UsersMiddleware.VerifyForgotPasswordTokenValidator | src/middlewares/users.middleware.ts:309-314 | the payload is attached exactly when the forgot-password token check passes |
| UsersMiddleware.ResetPasswordValidator | src/middlewares/users.middleware.ts:316-323 | no error exactly when the password is strong, the confirmation matches and the token check passes |
| UsersMiddleware.ForgotPasswordValidator | src/middlewares/users.middleware.ts:286-307 | a user is attached exactly when one has the trimmed email, and it is that user; a valid unknown email is EMAIL_NOT_FOUND |
| UsersMiddleware.VerifiedUserValidator | src/middlewares/users.middleware.ts:325-336 | the request passes exactly when the decoded token says Verified; otherwise a 403 EMAIL_NOT_VERIFIED is forwarded |
| UsersMiddleware.TrimmedLengthCheck | src/middlewares/users.middleware.ts:349-381 | an optional text field passes exactly when it is absent or its trimmed length, as `isLength` counts it, is within the bounds |
| Strings.IsLengthCount | src/middlewares/users.middleware.ts:94 | the length `isLength` measures is the string's length less the number of U+FE0E and U+FE0F selectors in it |
| Strings.IsLengthCountFull | src/middlewares/users.middleware.ts:94 | the `isLength` count equals the length exactly when the string holds no variation selector |
| UsersMiddleware.UsernameCheck | src/middlewares/users.middleware.ts:382-399 | passes exactly when absent, or matching the pattern and not taken; otherwise USER_NAME_INVALID or USERNAME_EXIST |
| UsersMiddleware.ProfileTextErrors | src/middlewares/users.middleware.ts:338-381 | no error exactly when name, date, bio (1-160), location (1-200) and website (1-50) are absent or valid. A name of the wrong length, empty included, is NAME_MUST_BE_FROM_3_TO_100_CHARACTERS; a bad date is DATE_OF_BIRTH_MUST_BE_ISO8601 |
| UsersMiddleware.ProfileHandleErrors | src/middlewares/users.middleware.ts:382-401 | no error exactly when username, avatar and cover photo (1-400) are absent or valid |
| UsersMiddleware.UpdateMyProfileValidator | src/middlewares/users.middleware.ts:338-404 | no error exactly when every present field passes its check. The name and date messages are as in the text fields; all errors are plain, so they are answered 422 |
| FileUtils.GetNameFromFullName | src/utils/file.ts:49-53 | the result has no dot and is no longer than the input; a name without a dot gives "" |
| FileUtils.NameDropsLastPieceAndDots | src/utils/file.ts:49-53 | for any dot-separated name, the result is every piece but the last, concatenated without dots |
| FileUtils.SingleDotGivesStem | src/utils/file.ts:49-53 | with one dot the result is the part before it |
| FileUtils.InnerDotsAreDropped | src/utils/file.ts:49-53 | with two dots the inner dot is lost, so "a.b.jpg" gives "ab" |
| FileUtils.StemOf | src/utils/file.ts:49-53 | the corrected name: no longer than the input, "" without a dot |
| FileUtils.ExtensionOf | src/utils/file.ts:49-53 | the part after the last dot contains no dot |
| FileUtils.StemExtensionRoundTrip | src/utils/file.ts:49-53 | stem, a dot and extension give back the name |
| FileUtils.StemOfJoined | src/utils/file.ts:49-53 | the corrected name keeps every piece but the last, joined by dots |
| FileUtils.StemKeepsInnerDots | src/utils/file.ts:49-53 | with two dots the corrected name keeps the inner one, so "a.b.jpg" gives "a.b" |
| FileUtils.UploadFilter | src/utils/file.ts:26-32 | a part is accepted exactly when its field is `image` and it has a MIME type with "image" somewhere inside it |
| FileUtils.UploadFilterAccepts | src/utils/file.ts:26-32 | every `image` part with a MIME type containing "image" is accepted, other fields are refused, and a missing MIME type is refused |
| Sessions.SingleThrownErrorForwarded | server/src/utils/validation.ts:20-23 | a single thrown non-422 error is forwarded unchanged |
| Sessions.RejectionAnswered401 | server/src/utils/validation.ts:20-23 | a token validator's thrown 401 reaches the client as a 401 whose body is that error |
| Sessions.PlainErrorsAnswered422 | server/src/utils/validation.ts:17-27 | failures with plain messages are answered 422 with an entry per failing field |
| Sessions.AccessTokenFailureAnswered401 | src/middlewares/users.middleware.ts:196-207 | a token that does not verify is answered 401 with "AccessToken " plus the library's message |
| Sessions.MissingAccessTokenAnswered401 | src/middlewares/users.middleware.ts:184-195 | a missing or empty bearer token is answered 401 ACCESS_TOKEN_IS_REQUIRED |
| Sessions.RefreshTokenFailuresAnswered401 | src/middlewares/users.middleware.ts:220-246 | every refusal of a refresh token other than a rethrown non-JWT error is answered 401 |
| Sessions.EmailVerifyJwtFailureAnswered401 | src/middlewares/users.middleware.ts:271-277 | an email-verify token the JWT library rejects is answered 401 with the message the code uses |
| Sessions.ForgotPasswordTokenFailuresAnswered401 | src/middlewares/users.middleware.ts:47-81 | every refusal of a forgot-password token other than a rethrown non-JWT error is answered 401 |
| Sessions.DuplicateEmailRejected | src/middlewares/users.middleware.ts:163-167 | registering a stored email is answered 422 with EMAIL_ALREADY_EXISTS on `email` |
| Sessions.BearerRoundTrip | src/middlewares/users.middleware.ts:190 | "Bearer " followed by a token is read back as that token |
| Sessions.IssuedAccessTokenAccepted | src/middlewares/users.middleware.ts:196-201 | an access token the service signs passes the access-token validator with the claims it was signed with |
| Sessions.RegisteredUserIsNotVerified | server/src/services/users.services.ts:90-93 | the access token register returns is accepted and says Unverified, so the verified-user gate answers 403 |
| Sessions.GateAnswers403 | src/middlewares/users.middleware.ts:325-334 | any token without the Verified claim is answered 403 EMAIL_NOT_VERIFIED |
| Sessions.VerifiedUserPassesGate | server/src/services/users.services.ts:126-128 | the access token verifyEmail returns is accepted and passes the gate |
| Sessions.OtherKindRefusedAsAccessToken | src/middlewares/users.middleware.ts:196-207 | a refresh, email-verify or forgot-password token presented as an access token is refused with 401 |
| Sessions.LegacyAccessTokenRefused | src/services/users.services.ts:10-20 | a legacy access token is refused by the current validator, and it would not pass the gate either |
| Sessions.LoginThenLogoutRestoresCounts | server/src/services/users.services.ts:108-124 | logging in and then out with the returned token leaves every token's record count as it was |
| Sessions.LoginRefreshTokenAccepted | server/src/services/users.services.ts:108-117 | the refresh token login returns is accepted by the refresh validator, with the signed claims |
| Sessions.LogoutRevokesRefreshToken | server/src/services/users.services.ts:119-120 | after logout, a token that had one record is answered REFRESH_TOKEN_NOT_FOUND |
| Sessions.VerifyEmailRefreshTokenNotFound | server/src/services/users.services.ts:126-147 | the refresh token verifyEmail returns is refused with REFRESH_TOKEN_NOT_FOUND, since it is never stored |
| Sessions.VerifyEmailPersistedRefreshTokenAccepted | server/src/services/users.services.ts:126-147 | with the refresh token stored, the refresh validator accepts it |
| Sessions.ForgotPasswordTokenSingleUse | server/src/services/users.services.ts:172-208 | the token forgotPassword stores is accepted; after resetPassword the same token is refused with 401 FORGOT_PASSWORD_TOKEN_INVALID |
| Sessions.ResentVerifyTokenAccepted | server/src/services/users.services.ts:149-166 | the token resendVerifyEmail stores is accepted by the email-verify validator with the user's id and Unverified |
| Sessions.FollowTwice | server/src/services/users.services.ts:262-279 | following twice answers FOLLOWED the second time and adds nothing more |
| Sessions.FollowThenUnfollowRestores | server/src/services/users.services.ts:262-296 | follow and then unfollow of a new edge both succeed and restore the followers |
| Sessions.MyProfileIgnoresSecrets | server/src/services/users.services.ts:210-221 | changing any user's password hash or tokens does not change what getMyProfile returns |
| Sessions.PublicProfileIgnoresSecrets | server/src/services/users.services.ts:248-259 | changing any user's password hash or tokens does not change what getProfile returns |
| Sessions.ProfileReadsIgnoreSecrets | server/src/services/users.services.ts:210-260 | both profile reads are unaffected by secrets |
| Sessions.UpdateThenReadAgrees | server/src/services/users.services.ts:224-246 | reading one's profile right after updating it returns what the update returned |

## Left out

- JWT signing and verification, the secrets' values, token expiry and password hashing are the `Crypto` parameter. Expiry shows up only as a verification failure.
- `ObjectId` creation and parsing: ids are strings supplied by the caller, and BSON errors on malformed ids are not modelled.
- `Promise.all` ordering and concurrent requests: each operation is one atomic step on the store.
- express-validator's `isEmail` and `isISO8601`, and `REGEX_USERNAME`, are the `Checkers` parameter.
- `isString` checks: request bodies are modelled as strings, so these checks always pass.
- `Strings.Trim`: removes ASCII whitespace only, not every Unicode space that `trim()` removes.
- `UsersMiddleware.IsStrongPassword`: the length is counted in Unicode scalar values. validator.js counts UTF-16 code units, so a password with a character outside the Basic Multilingual Plane is shorter here; "Aa1!" plus one emoji passes `minLength: 6` in the TypeScript code and fails here.
- `UsersService.ApplyProfileUpdate`: the body is taken to carry only the schema's keys. In the TypeScript code, `$set` spreads whatever keys the client sends, and nothing in the validator or service filters them. A body carrying `password`, `verify` or either token would overwrite that field, and the frame this model proves does not hold for such a body.
- `UsersMiddleware.VerifyEmailValidator`: the schema names no location, so express-validator looks for `emailVerifyToken` in every request location. The model takes the one string the request carries there.
- `UsersMiddleware.LoginValidator`: a missing password is modelled as "". The email lookup hashes it like any other string instead of hashing `undefined`.
- `UsersMiddleware.PasswordCheck`: the strong-password message mentions a maximum length that the options do not enforce, and none is modelled.
- `initFolder` and the parse step of `handleUploadImage` (file system and multipart I/O): only the upload filter is modelled.
- `FileUtils.UploadFilter`: the `form.emit('error', …)` a refused part triggers is left out (multipart I/O). Only the filter's yes or no is modelled.
- `console.log` calls and the emails that verification and reset would send.
- `server/src/constants/httpStatus.ts`, `User.schema.ts`, `crypto.ts` and `jwt.ts` are not part of this model. The statuses are taken as 401, 403, 422 and 500, and unspecified user fields default to "" and Unverified.
- `FileUtils.InnerDotsAreDropped`: states the "a.b.jpg" case for any three dot-free pieces instead of for that literal string.

## Findings

| source | as written | input that shows it | evidently intended | confidence | as-written member | corrected member |
|---|---|---|---|---|---|---|
| src/middlewares/users.middleware.ts:173 | the register schema validates the key `dateOfBirth`, but the register service reads `date_of_birth`; the profile-update schema has the same mismatch | a body whose date is sent only as `date_of_birth` fails with DATE_OF_BIRTH_MUST_BE_ISO8601; a body with a valid `dateOfBirth` and no `date_of_birth` passes, and the service parses `undefined` | validate the field the service stores | not executed | UsersMiddleware.RegisterDateKeyMismatch | UsersMiddleware.RegisterValidatorChecked |
| server/src/services/users.services.ts:126-147 | verifyEmail returns a fresh refresh token without storing it | any successful verifyEmail: presenting the returned refresh token is refused with 401 REFRESH_TOKEN_NOT_FOUND | store the refresh token, as register and login do | not executed | Sessions.VerifyEmailRefreshTokenNotFound | Sessions.VerifyEmailPersistedRefreshTokenAccepted |
| src/utils/file.ts:49-53 | getNameFromFullName joins the remaining pieces with '' | "a.b.jpg" gives "ab" | drop only the extension and keep inner dots, giving "a.b" | not executed | FileUtils.InnerDotsAreDropped | FileUtils.StemKeepsInnerDots |
