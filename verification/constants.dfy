/**
 * The message tags and HTTP status codes the account core returns.
 * Each constructor of `Message` stands for one entry of `USER_MESSAGES`;
 * `Literal` carries a message built at run time (a library error message,
 * or the `'AccessToken ' + ...` text of the access-token check).
 */
module Constants {

  datatype Message =
    | ValidationError
    | NameIsRequired
    | NameMustBeFrom3To100Characters
    | EmailIsRequired
    | EmailAlreadyExists
    | EmailIsInvalid
    | EmailOrPasswordIsIncorrect
    | EmailResendVerifySuccess
    | EmailNotFound
    | PasswordIsRequired
    | PasswordMustBeStrong
    | ConfirmPasswordIsRequired
    | PasswordConfirmationDoesNotMatchPassword
    | DateOfBirthMustBeIso8601
    | UserNotFound
    | AccessTokenIsRequired
    | RefreshTokenIsRequired
    | RefreshTokenIsInvalid
    | LogoutSuccess
    | RefreshTokenNotFound
    | CheckEmailToResetPassword
    | ForgotPasswordTokenIsRequired
    | ForgotPasswordTokenInvalid
    | ResetPasswordSuccess
    | EmailNotVerified
    | BioLength
    | LocationLength
    | WebsiteLength
    | UserNameInvalid
    | UsernameExist
    | ImageUrlLength
    | FollowUserSuccess
    | Followed
    | AlreadyUnfollowed
    | UnfollowUserSuccess
    | Literal(text: string)

  /** The HTTP status codes the core uses (standard values). */
  const Unauthorized: int := 401
  const Forbidden: int := 403
  const UnprocessableEntity: int := 422
  const InternalServerError: int := 500
}
