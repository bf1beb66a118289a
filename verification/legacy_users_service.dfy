/**
 * The older account service: registration without a persisted session, and
 * tokens that carry no verification claim and are signed with the default secret.
 */
module LegacyUsersService {
  import opened Wrappers
  import opened Enums
  import opened Tokens
  import opened Database
  import opened UsersService

  /**
   * The older `signAccessToken` / `signRefreshToken`: the payload holds the
   * user id and the kind only, and no private key is passed, so the library's
   * default secret is used.
   */
  function LegacySigner(kind: TokenType, userId: UserId): (r: SignRequest)
    ensures r.payload.tokenType == kind && r.payload.userId == userId
    ensures r.payload.verify.None?
    ensures r.secret == DefaultSecret
    ensures forall k: TokenType :: r.secret != SecretOf(k)
  {
    SignRequest(Payload(userId, kind, None), DefaultSecret)
  }

  /**
   * The older `register`: inserts one user (hashed password, parsed birth
   * date) under the id the driver generates, then returns an access/refresh
   * pair signed for that id; no refresh-token record is stored. The driver
   * only hands out ids no document holds, so the `DuplicateKey` branch is
   * never taken in the TypeScript code; the id is a parameter here, and the branch
   * says what an insert under a taken id would do.
   */
  function LegacyRegister(c: Crypto, parseDate: string -> int, s: Store, body: RegisterBody, newId: UserId, now: int)
    : (r: Result<Step<TokenPair>, ServiceError>)
    ensures r.Failure? <==> Lookup(s, newId).Some?
    ensures r.Success? ==>
      var s' := r.value.store;
      && |s'.users| == |s.users| + 1
      && (Wf(s) ==> Wf(s'))
      && (forall id :: id != newId ==> Lookup(s', id) == Lookup(s, id))
      && Lookup(s', newId).Some?
      && Lookup(s', newId).value.password == c.hash(body.password)
      && Lookup(s', newId).value.dateOfBirth == AtInstant(parseDate(body.dateOfBirthSnake))
      && Lookup(s', newId).value.email == body.email
      && s'.refreshTokens == s.refreshTokens
      && s'.followers == s.followers
      && r.value.result.accessToken == Issue(c, LegacySigner(AccessToken, newId))
      && r.value.result.refreshToken == Issue(c, LegacySigner(RefreshToken, newId))
  {
    if FindIndex(s.users, ById(newId)).Some? then Failure(DuplicateKey)
    else
      var user := User(newId, body.name, body.email, c.hash(body.password),
                       AtInstant(parseDate(body.dateOfBirthSnake)), Unverified,
                       "", "", "", "", "", "", "", "", now, None);
      var s' := s.(users := s.users + [user]);
      AppendKeepsLookups(s, user, s');
      Success(Step(s', TokenPair(Issue(c, LegacySigner(AccessToken, newId)), Issue(c, LegacySigner(RefreshToken, newId)))))
  }

  /** The older `checkEmailExist`: true exactly when some stored user has that email. */
  function LegacyCheckEmailExist(s: Store, email: string): (r: bool)
    ensures r <==> exists j :: 0 <= j < |s.users| && s.users[j].email == email
  {
    FindOne(s.users, ByEmail(email)).Some?
  }
}
