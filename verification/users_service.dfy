/**
 * The account service: each operation is one sequential read-then-write step
 * over the store, returning the new store and the operation's result.
 */
module UsersService {
  import opened Wrappers
  import opened Constants
  import opened Enums
  import opened Tokens
  import opened Database

  datatype TokenPair = TokenPair(accessToken: string, refreshToken: string)

  /** The store after an operation, and what the operation returned. */
  datatype Step<T> = Step(store: Store, result: T)

  /** `insertOne` refused the document because its `_id` is taken. */
  datatype ServiceError = DuplicateKey

  /**
   * The body of POST /register. The service reads the key `date_of_birth`;
   * the validator checks a different key, `dateOfBirth`, so both are kept.
   */
  datatype RegisterBody = RegisterBody(
    name: string,
    email: string,
    password: string,
    confirmPassword: string,
    dateOfBirthSnake: string,   // body key `date_of_birth`
    dateOfBirthCamel: string)   // body key `dateOfBirth`

  /**
   * The body of PATCH /my-profile, one optional value per key. As with
   * registration, the service reads `date_of_birth` and the validator `dateOfBirth`.
   */
  datatype ProfileUpdate = ProfileUpdate(
    name: Option<string>,
    dateOfBirthSnake: Option<string>,
    dateOfBirthCamel: Option<string>,
    bio: Option<string>,
    location: Option<string>,
    website: Option<string>,
    username: Option<string>,
    avatar: Option<string>,
    coverPhoto: Option<string>)

  /** `signAccessTokenAndRefreshToken`: an access and a refresh token for the same claims. */
  function SignPair(c: Crypto, userId: UserId, verify: UserVerifyStatus): (r: TokenPair)
    ensures PairFor(c, r, userId, verify)
  {
    TokenPair(Issue(c, Signer(AccessToken, userId, verify)), Issue(c, Signer(RefreshToken, userId, verify)))
  }

  /** The pair is the access/refresh pair of the given user and status. */
  predicate PairFor(c: Crypto, p: TokenPair, userId: UserId, verify: UserVerifyStatus)
  {
    && p.accessToken == Issue(c, Signer(AccessToken, userId, verify))
    && p.refreshToken == Issue(c, Signer(RefreshToken, userId, verify))
  }

  /**
   * `register`: under the fresh id, inserts one user whose password is the
   * hash of the given one, who is Unverified and holds an email-verify token
   * signed for that id and status; then stores one refresh-token record for the
   * returned refresh token. Fails, changing nothing, when the id is taken.
   */
  function Register(c: Crypto, parseDate: string -> int, s: Store, body: RegisterBody, newId: UserId, now: int)
    : (r: Result<Step<TokenPair>, ServiceError>)
    ensures r.Failure? <==> Lookup(s, newId).Some?
    ensures r.Success? ==>
      var s' := r.value.store;
      && |s'.users| == |s.users| + 1
      && (Wf(s) ==> Wf(s'))
      && (forall id :: id != newId ==> Lookup(s', id) == Lookup(s, id))
      && Lookup(s', newId).Some?
      && Lookup(s', newId).value.password == c.hash(body.password)
      && Lookup(s', newId).value.verify == Unverified
      && Lookup(s', newId).value.emailVerifyToken == Issue(c, Signer(EmailVerifyToken, newId, Unverified))
      && Lookup(s', newId).value.forgotPasswordToken == ""
      && Lookup(s', newId).value.name == body.name
      && Lookup(s', newId).value.email == body.email
      && Lookup(s', newId).value.dateOfBirth == AtInstant(parseDate(body.dateOfBirthSnake))
      && multiset(s'.refreshTokens) == multiset(s.refreshTokens) + multiset{RefreshTokenRecord(newId, r.value.result.refreshToken, now)}
      && s'.followers == s.followers
      && PairFor(c, r.value.result, newId, Unverified)
  {
    if FindIndex(s.users, ById(newId)).Some? then Failure(DuplicateKey)
    else
      var user := User(newId, body.name, body.email, c.hash(body.password),
                       AtInstant(parseDate(body.dateOfBirthSnake)), Unverified,
                       Issue(c, Signer(EmailVerifyToken, newId, Unverified)), "",
                       "", "", "", "", "", "", now, None);
      var withUser := s.(users := s.users + [user]);
      AppendKeepsLookups(s, user, withUser);
      var tokens := SignPair(c, newId, Unverified);
      var s' := withUser.(refreshTokens := s.refreshTokens + [RefreshTokenRecord(newId, tokens.refreshToken, now)]);
      Success(Step(s', tokens))
  }

  /** `checkEmailExist`: true exactly when some stored user has that email. */
  function CheckEmailExist(s: Store, email: string): (r: bool)
    ensures r <==> exists j :: 0 <= j < |s.users| && s.users[j].email == email
  {
    FindOne(s.users, ByEmail(email)).Some?
  }

  /**
   * `login`: issues a pair for the claimed user and status and adds one
   * refresh-token record for it; every earlier session stays, and users and
   * follower edges are untouched.
   */
  function Login(c: Crypto, s: Store, userId: UserId, verify: UserVerifyStatus, now: int): (r: Step<TokenPair>)
    ensures r.store.users == s.users && r.store.followers == s.followers
    ensures multiset(r.store.refreshTokens) == multiset(s.refreshTokens) + multiset{RefreshTokenRecord(userId, r.result.refreshToken, now)}
    ensures forall t :: Count(r.store.refreshTokens, t) == Count(s.refreshTokens, t) + (if t == r.result.refreshToken then 1 else 0)
    ensures PairFor(c, r.result, userId, verify)
  {
    var tokens := SignPair(c, userId, verify);
    var record := RefreshTokenRecord(userId, tokens.refreshToken, now);
    forall t ensures Count(s.refreshTokens + [record], t) == Count(s.refreshTokens, t) + Count([record], t) {
      CountAppend(s.refreshTokens, [record], t);
    }
    Step(s.(refreshTokens := s.refreshTokens + [record]), tokens)
  }

  /**
   * `logout`: removes at most one record holding the token, and answers
   * LOGOUT_SUCCESS whether or not one was there.
   */
  function Logout(s: Store, token: string): (r: Step<Message>)
    ensures r.result == LogoutSuccess
    ensures r.store.users == s.users && r.store.followers == s.followers
    ensures Count(s.refreshTokens, token) == 0 ==> r.store == s
    ensures Count(s.refreshTokens, token) > 0 ==>
      && Count(r.store.refreshTokens, token) == Count(s.refreshTokens, token) - 1
      && |r.store.refreshTokens| == |s.refreshTokens| - 1
    ensures multiset(r.store.refreshTokens) <= multiset(s.refreshTokens)
    ensures forall t :: t != token ==> Count(r.store.refreshTokens, t) == Count(s.refreshTokens, t)
  {
    Step(s.(refreshTokens := DeleteOneToken(s.refreshTokens, token)), LogoutSuccess)
  }

  /**
   * `verifyEmail`: clears the user's email-verify token and marks them
   * Verified (nothing else but `updated_at` changes), and returns a pair
   * tagged Verified; it stores no refresh-token record. An unknown id changes nothing.
   */
  function VerifyEmail(c: Crypto, s: Store, userId: UserId, now: int): (r: Step<TokenPair>)
    ensures r.store.refreshTokens == s.refreshTokens && r.store.followers == s.followers
    ensures |r.store.users| == |s.users| && (Wf(s) ==> Wf(r.store))
    ensures Lookup(s, userId).None? ==> r.store == s
    ensures Lookup(s, userId).Some? ==>
      Lookup(r.store, userId) == Some(Lookup(s, userId).value.(emailVerifyToken := "", verify := Verified, updatedAt := now))
    ensures forall id :: id != userId ==> Lookup(r.store, id) == Lookup(s, id)
    ensures PairFor(c, r.result, userId, Verified)
  {
    var tokens := SignPair(c, userId, Verified);
    match FindIndex(s.users, ById(userId))
    case None => Step(s, tokens)
    case Some(i) =>
      var u := s.users[i].(emailVerifyToken := "", verify := Verified, updatedAt := now);
      var s' := s.(users := s.users[i := u]);
      ReplaceKeepsLookups(s, i, u, s');
      Step(s', tokens)
  }

  /**
   * The same step with the returned refresh token persisted, as `register`
   * and `login` do.
   */
  function VerifyEmailPersisted(c: Crypto, s: Store, userId: UserId, now: int): (r: Step<TokenPair>)
    ensures r.store.followers == s.followers && r.store.users == VerifyEmail(c, s, userId, now).store.users
    ensures multiset(r.store.refreshTokens) == multiset(s.refreshTokens) + multiset{RefreshTokenRecord(userId, r.result.refreshToken, now)}
    ensures HasToken(r.store, r.result.refreshToken)
    ensures PairFor(c, r.result, userId, Verified)
  {
    var step := VerifyEmail(c, s, userId, now);
    var record := RefreshTokenRecord(userId, step.result.refreshToken, now);
    var s' := step.store.(refreshTokens := s.refreshTokens + [record]);
    assert s'.refreshTokens[|s.refreshTokens|] == record;
    Step(s', step.result)
  }

  /**
   * `resendVerifyEmail`: replaces only the email-verify token (and
   * `updated_at`) by a fresh one signed for the user as Unverified.
   */
  function ResendVerifyEmail(c: Crypto, s: Store, userId: UserId, now: int): (r: Step<Message>)
    ensures r.result == EmailResendVerifySuccess
    ensures r.store.refreshTokens == s.refreshTokens && r.store.followers == s.followers
    ensures |r.store.users| == |s.users| && (Wf(s) ==> Wf(r.store))
    ensures Lookup(s, userId).None? ==> r.store == s
    ensures Lookup(s, userId).Some? ==>
      Lookup(r.store, userId) == Some(Lookup(s, userId).value.(
        emailVerifyToken := Issue(c, Signer(EmailVerifyToken, userId, Unverified)), updatedAt := now))
    ensures forall id :: id != userId ==> Lookup(r.store, id) == Lookup(s, id)
  {
    match FindIndex(s.users, ById(userId))
    case None => Step(s, EmailResendVerifySuccess)
    case Some(i) =>
      var u := s.users[i].(emailVerifyToken := Issue(c, Signer(EmailVerifyToken, userId, Unverified)), updatedAt := now);
      var s' := s.(users := s.users[i := u]);
      ReplaceKeepsLookups(s, i, u, s');
      Step(s', EmailResendVerifySuccess)
  }

  /**
   * `forgotPassword`: overwrites only the forgot-password token (and
   * `updated_at`) with a ForgotPassword-kind token for the user.
   */
  function ForgotPassword(c: Crypto, s: Store, userId: UserId, verify: UserVerifyStatus, now: int): (r: Step<Message>)
    ensures r.result == CheckEmailToResetPassword
    ensures r.store.refreshTokens == s.refreshTokens && r.store.followers == s.followers
    ensures |r.store.users| == |s.users| && (Wf(s) ==> Wf(r.store))
    ensures Lookup(s, userId).None? ==> r.store == s
    ensures Lookup(s, userId).Some? ==>
      Lookup(r.store, userId) == Some(Lookup(s, userId).value.(
        forgotPasswordToken := Issue(c, Signer(ForgotPasswordToken, userId, verify)), updatedAt := now))
    ensures forall id :: id != userId ==> Lookup(r.store, id) == Lookup(s, id)
  {
    match FindIndex(s.users, ById(userId))
    case None => Step(s, CheckEmailToResetPassword)
    case Some(i) =>
      var u := s.users[i].(forgotPasswordToken := Issue(c, Signer(ForgotPasswordToken, userId, verify)), updatedAt := now);
      var s' := s.(users := s.users[i := u]);
      ReplaceKeepsLookups(s, i, u, s');
      Step(s', CheckEmailToResetPassword)
  }

  /**
   * `resetPassword`: consumes the forgot-password token (sets it to "") and
   * stores the hash of the new password; nothing else but `updated_at` changes.
   */
  function ResetPassword(c: Crypto, s: Store, userId: UserId, newPassword: string, now: int): (r: Step<Message>)
    ensures r.result == ResetPasswordSuccess
    ensures r.store.refreshTokens == s.refreshTokens && r.store.followers == s.followers
    ensures |r.store.users| == |s.users| && (Wf(s) ==> Wf(r.store))
    ensures Lookup(s, userId).None? ==> r.store == s
    ensures Lookup(s, userId).Some? ==>
      Lookup(r.store, userId) == Some(Lookup(s, userId).value.(
        forgotPasswordToken := "", password := c.hash(newPassword), updatedAt := now))
    ensures forall id :: id != userId ==> Lookup(r.store, id) == Lookup(s, id)
  {
    match FindIndex(s.users, ById(userId))
    case None => Step(s, ResetPasswordSuccess)
    case Some(i) =>
      var u := s.users[i].(forgotPasswordToken := "", password := c.hash(newPassword), updatedAt := now);
      var s' := s.(users := s.users[i := u]);
      ReplaceKeepsLookups(s, i, u, s');
      Step(s', ResetPasswordSuccess)
  }

  /** `getMyProfile`: the user's document without its secret fields, or null. */
  function GetMyProfile(s: Store, userId: UserId): (r: Option<Profile>)
    ensures r.Some? <==> Lookup(s, userId).Some?
    ensures r.Some? ==> r.value == ToProfile(Lookup(s, userId).value) && r.value.id == userId
  {
    match Lookup(s, userId)
    case None => None
    case Some(u) => Some(ToProfile(u))
  }

  /** `getProfile`: the first user with that username, without secret fields, or null. */
  function GetProfile(s: Store, username: string): (r: Option<Profile>)
    ensures r.Some? <==> exists j :: 0 <= j < |s.users| && s.users[j].username == username
    ensures r.Some? ==> r.value.username == username
    ensures r.Some? ==> exists j :: 0 <= j < |s.users| && r.value == ToProfile(s.users[j])
  {
    match FindIndex(s.users, ByUsername(username))
    case None => None
    case Some(i) => Some(ToProfile(s.users[i]))
  }

  /** The date value `$set` writes: parsed when the text is non-empty, the text itself otherwise. */
  function BirthDateOf(parseDate: string -> int, text: string): BirthDate
  {
    if text != "" then AtInstant(parseDate(text)) else AsText(text)
  }

  /**
   * The `$set` of `updateMyProfile` on one document: every key present in the
   * body replaces its field, every absent key leaves it, and `updated_at`
   * becomes now. `date_of_birth` is parsed when non-empty; `dateOfBirth`, the
   * key the validator checks, is stored unparsed as a field of its own. The
   * body has no key for the id, email, status, password hash or either token,
   * so those never change.
   */
  function ApplyProfileUpdate(u: User, body: ProfileUpdate, parseDate: string -> int, now: int): (r: User)
    ensures r.id == u.id && r.email == u.email && r.verify == u.verify
    ensures r.password == u.password && r.emailVerifyToken == u.emailVerifyToken
    ensures r.forgotPasswordToken == u.forgotPasswordToken
    ensures r.name == body.name.GetOr(u.name) && r.bio == body.bio.GetOr(u.bio)
    ensures r.location == body.location.GetOr(u.location) && r.website == body.website.GetOr(u.website)
    ensures r.username == body.username.GetOr(u.username) && r.avatar == body.avatar.GetOr(u.avatar)
    ensures r.coverPhoto == body.coverPhoto.GetOr(u.coverPhoto)
    ensures body.dateOfBirthSnake.None? ==> r.dateOfBirth == u.dateOfBirth
    ensures body.dateOfBirthSnake.Some? && body.dateOfBirthSnake.value != "" ==>
      r.dateOfBirth == AtInstant(parseDate(body.dateOfBirthSnake.value))
    ensures body.dateOfBirthSnake == Some("") ==> r.dateOfBirth == AsText("")
    ensures body.dateOfBirthCamel.Some? ==> r.dateOfBirthKey == body.dateOfBirthCamel
    ensures body.dateOfBirthCamel.None? ==> r.dateOfBirthKey == u.dateOfBirthKey
    ensures r.updatedAt == now
  {
    u.(name := body.name.GetOr(u.name),
       dateOfBirth := if body.dateOfBirthSnake.Some? then BirthDateOf(parseDate, body.dateOfBirthSnake.value) else u.dateOfBirth,
       bio := body.bio.GetOr(u.bio),
       location := body.location.GetOr(u.location),
       website := body.website.GetOr(u.website),
       username := body.username.GetOr(u.username),
       avatar := body.avatar.GetOr(u.avatar),
       coverPhoto := body.coverPhoto.GetOr(u.coverPhoto),
       updatedAt := now,
       dateOfBirthKey := if body.dateOfBirthCamel.Some? then body.dateOfBirthCamel else u.dateOfBirthKey)
  }

  /**
   * `updateMyProfile`: applies the update to the user's document and returns
   * the updated document without secret fields; an unknown id changes nothing
   * and returns null.
   */
  function UpdateMyProfile(parseDate: string -> int, s: Store, userId: UserId, body: ProfileUpdate, now: int)
    : (r: Step<Option<Profile>>)
    ensures r.store.refreshTokens == s.refreshTokens && r.store.followers == s.followers
    ensures |r.store.users| == |s.users| && (Wf(s) ==> Wf(r.store))
    ensures Lookup(s, userId).None? ==> r.store == s && r.result.None?
    ensures Lookup(s, userId).Some? ==>
      && Lookup(r.store, userId) == Some(ApplyProfileUpdate(Lookup(s, userId).value, body, parseDate, now))
      && r.result == Some(ToProfile(Lookup(r.store, userId).value))
    ensures forall id :: id != userId ==> Lookup(r.store, id) == Lookup(s, id)
  {
    match FindIndex(s.users, ById(userId))
    case None => Step(s, None)
    case Some(i) =>
      var u := ApplyProfileUpdate(s.users[i], body, parseDate, now);
      var s' := s.(users := s.users[i := u]);
      ReplaceKeepsLookups(s, i, u, s');
      Step(s', Some(ToProfile(u)))
  }

  /**
   * `followUser`: adds the edge when it is absent (FOLLOW_USER_SUCCESS),
   * otherwise changes nothing (FOLLOWED).
   */
  function FollowUser(s: Store, userId: UserId, followUserId: UserId): (r: Step<Message>)
    ensures r.store.users == s.users && r.store.refreshTokens == s.refreshTokens
    ensures FollowEdge(userId, followUserId) in r.store.followers
    ensures r.store.followers - {FollowEdge(userId, followUserId)} == s.followers - {FollowEdge(userId, followUserId)}
    ensures r.result == FollowUserSuccess <==> FollowEdge(userId, followUserId) !in s.followers
    ensures r.result == Followed <==> FollowEdge(userId, followUserId) in s.followers
  {
    var edge := FollowEdge(userId, followUserId);
    if edge !in s.followers then
      Step(s.(followers := s.followers + {edge}), FollowUserSuccess)
    else
      Step(s, Followed)
  }

  /**
   * `unFollowUser`: deletes the edge when it is present (UNFOLLOW_USER_SUCCESS),
   * otherwise changes nothing (ALREADY_UNFOLLOWED).
   */
  function UnFollowUser(s: Store, userId: UserId, followUserId: UserId): (r: Step<Message>)
    ensures r.store.users == s.users && r.store.refreshTokens == s.refreshTokens
    ensures FollowEdge(userId, followUserId) !in r.store.followers
    ensures r.store.followers + {FollowEdge(userId, followUserId)} == s.followers + {FollowEdge(userId, followUserId)}
    ensures r.result == UnfollowUserSuccess <==> FollowEdge(userId, followUserId) in s.followers
    ensures r.result == AlreadyUnfollowed <==> FollowEdge(userId, followUserId) !in s.followers
    ensures r.result == AlreadyUnfollowed ==> r.store == s
  {
    var edge := FollowEdge(userId, followUserId);
    if edge in s.followers then
      Step(s.(followers := s.followers - {edge}), UnfollowUserSuccess)
    else
      Step(s, AlreadyUnfollowed)
  }
}
