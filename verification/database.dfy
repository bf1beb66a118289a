/**
 * The three collections the account core reads and writes, as values: users
 * and refresh-token records in insertion (natural) order, so that "the first
 * document matching a filter" is determined, and follower edges as a set.
 */
module Database {
  import opened Wrappers
  import opened Enums
  import opened Tokens

  /** A stored birth date: a parsed instant, or the raw text when it was not parsed. */
  datatype BirthDate = AtInstant(ms: int) | AsText(text: string)

  /**
   * A user document. `password` holds the hash, never the clear text.
   * `dateOfBirthKey` is the text a profile update sent under the key
   * `dateOfBirth`, which `$set` stores as a field of its own; it is absent
   * until such an update.
   */
  datatype User = User(
    id: UserId,
    name: string,
    email: string,
    password: string,
    dateOfBirth: BirthDate,
    verify: UserVerifyStatus,
    emailVerifyToken: string,
    forgotPasswordToken: string,
    username: string,
    bio: string,
    location: string,
    website: string,
    avatar: string,
    coverPhoto: string,
    updatedAt: int,
    dateOfBirthKey: Option<string>)

  /** A persisted refresh token: the session it opens belongs to `userId`. */
  datatype RefreshTokenRecord = RefreshTokenRecord(userId: UserId, token: string, createdAt: int)

  /** A follower document, keyed by the pair of ids. */
  datatype FollowEdge = FollowEdge(userId: UserId, followerUserId: UserId)

  datatype Store = Store(users: seq<User>, refreshTokens: seq<RefreshTokenRecord>, followers: set<FollowEdge>)

  /** The `_id` index is unique. */
  predicate Wf(s: Store)
  {
    forall i, j :: 0 <= i < j < |s.users| ==> s.users[i].id != s.users[j].id
  }

  /** The user filters the core sends to `findOne`. */
  datatype Filter =
    | ById(id: UserId)
    | ByEmail(email: string)
    | ByCredentials(email: string, password: string)
    | ByUsername(username: string)

  predicate Matches(u: User, f: Filter)
  {
    match f
    case ById(id) => u.id == id
    case ByEmail(e) => u.email == e
    case ByCredentials(e, p) => u.email == e && u.password == p
    case ByUsername(n) => u.username == n
  }

  /** The index of the first user at or after `from` that matches `f`. */
  function FindFrom(users: seq<User>, f: Filter, from: nat): (r: Option<nat>)
    requires from <= |users|
    decreases |users| - from
    ensures r.Some? ==> from <= r.value < |users| && Matches(users[r.value], f)
    ensures r.Some? ==> forall j :: from <= j < r.value ==> !Matches(users[j], f)
    ensures r.None? ==> forall j :: from <= j < |users| ==> !Matches(users[j], f)
  {
    if from == |users| then None
    else if Matches(users[from], f) then Some(from)
    else FindFrom(users, f, from + 1)
  }

  function FindIndex(users: seq<User>, f: Filter): (r: Option<nat>)
    ensures r.Some? ==> r.value < |users| && Matches(users[r.value], f)
    ensures r.Some? ==> forall j :: 0 <= j < r.value ==> !Matches(users[j], f)
    ensures r.None? <==> forall j :: 0 <= j < |users| ==> !Matches(users[j], f)
  {
    FindFrom(users, f, 0)
  }

  /** `users.findOne(filter)`: the first matching document, or null. */
  function FindOne(users: seq<User>, f: Filter): (r: Option<User>)
    ensures r.Some? <==> exists j :: 0 <= j < |users| && Matches(users[j], f)
    ensures r.Some? ==> r.value in users && Matches(r.value, f)
  {
    match FindIndex(users, f)
    case Some(i) => Some(users[i])
    case None => None
  }

  /** The user with a given `_id`. */
  function Lookup(s: Store, id: UserId): Option<User>
  {
    FindOne(s.users, ById(id))
  }

  /** Some stored user already has this username. */
  predicate UsernameTaken(s: Store, name: string)
  {
    exists j :: 0 <= j < |s.users| && s.users[j].username == name
  }

  /** `findOne({ username })` finds a user exactly when the username is taken. */
  lemma FindByUsername(s: Store, name: string)
    ensures FindOne(s.users, ByUsername(name)).Some? <==> UsernameTaken(s, name)
  {
    if UsernameTaken(s, name) {
      var j :| 0 <= j < |s.users| && s.users[j].username == name;
      assert Matches(s.users[j], ByUsername(name));
    }
  }

  /** Two user lists on which a filter picks out the same positions select the same index. */
  lemma {:induction false} FindFromAgrees(u1: seq<User>, u2: seq<User>, f: Filter, from: nat)
    requires |u1| == |u2| && from <= |u1|
    requires forall j :: from <= j < |u1| ==> (Matches(u1[j], f) <==> Matches(u2[j], f))
    ensures FindFrom(u1, f, from) == FindFrom(u2, f, from)
    decreases |u1| - from
  {
    if from < |u1| && !Matches(u1[from], f) {
      FindFromAgrees(u1, u2, f, from + 1);
    }
  }

  /**
   * Replacing the first user with some id by a record with the same id leaves
   * every id lookup in place: that id now finds the new record, every other id
   * finds what it found before, and unique ids stay unique.
   */
  lemma ReplaceKeepsLookups(s: Store, i: nat, u: User, s': Store)
    requires FindIndex(s.users, ById(u.id)) == Some(i)
    requires s'.users == s.users[i := u]
    ensures Wf(s) ==> Wf(s')
    ensures Lookup(s', u.id) == Some(u)
    ensures forall id :: id != u.id ==> Lookup(s', id) == Lookup(s, id)
  {
    forall id
      ensures FindFrom(s'.users, ById(id), 0) == FindFrom(s.users, ById(id), 0)
    {
      FindFromAgrees(s'.users, s.users, ById(id), 0);
    }
  }

  /** Appending a user with a new id keeps old lookups and makes the new one findable. */
  lemma AppendKeepsLookups(s: Store, u: User, s': Store)
    requires Lookup(s, u.id).None?
    requires s'.users == s.users + [u]
    ensures Wf(s) ==> Wf(s')
    ensures Lookup(s', u.id) == Some(u)
    ensures forall id :: id != u.id ==> Lookup(s', id) == Lookup(s, id)
  {
    var n := |s.users|;
    assert forall j :: 0 <= j < n ==> s'.users[j] == s.users[j];
    var r := FindIndex(s'.users, ById(u.id));
    assert Matches(s'.users[n], ById(u.id));
    assert r.Some? && r.value == n;
    forall id | id != u.id
      ensures Lookup(s', id) == Lookup(s, id)
    {
      var a := FindIndex(s.users, ById(id));
      var b := FindIndex(s'.users, ById(id));
      match a
      case None =>
        assert b.None?;
      case Some(i) =>
        assert b.Some? && b.value <= i;
        assert b.value == i;
    }
  }

  /** Number of refresh-token records holding the token value `t`. */
  function Count(rs: seq<RefreshTokenRecord>, t: string): (n: nat)
    ensures n <= |rs|
    ensures n > 0 <==> exists i :: 0 <= i < |rs| && rs[i].token == t
  {
    if |rs| == 0 then 0
    else (if rs[0].token == t then 1 else 0) + Count(rs[1..], t)
  }

  lemma {:induction false} CountAppend(a: seq<RefreshTokenRecord>, b: seq<RefreshTokenRecord>, t: string)
    ensures Count(a + b, t) == Count(a, t) + Count(b, t)
  {
    if |a| == 0 {
      assert a + b == b;
    } else {
      assert (a + b)[0] == a[0];
      assert (a + b)[1..] == a[1..] + b;
      CountAppend(a[1..], b, t);
    }
  }

  /** `refreshTokens.findOne({ token: t })` found something. */
  predicate HasToken(s: Store, t: string)
  {
    exists i :: 0 <= i < |s.refreshTokens| && s.refreshTokens[i].token == t
  }

  /** The index of the first record holding token `t`. */
  function FirstTokenIndex(rs: seq<RefreshTokenRecord>, t: string): (r: Option<nat>)
    ensures r.Some? ==> r.value < |rs| && rs[r.value].token == t
    ensures r.Some? ==> forall j :: 0 <= j < r.value ==> rs[j].token != t
    ensures r.None? <==> forall j :: 0 <= j < |rs| ==> rs[j].token != t
  {
    if |rs| == 0 then None
    else if rs[0].token == t then Some(0)
    else match FirstTokenIndex(rs[1..], t)
      case None => None
      case Some(k) => Some(k + 1)
  }

  /**
   * `refreshTokens.deleteOne({ token: t })`: removes the first record holding
   * `t`, if any. Exactly one record with that token disappears when one exists,
   * the multiset of records loses exactly that record, and no other token
   * value's count changes.
   */
  function DeleteOneToken(rs: seq<RefreshTokenRecord>, t: string): (r: seq<RefreshTokenRecord>)
    ensures Count(rs, t) == 0 ==> r == rs
    ensures Count(rs, t) > 0 ==> Count(r, t) == Count(rs, t) - 1 && |r| == |rs| - 1
    ensures Count(rs, t) > 0 ==>
      multiset(r) + multiset{rs[FirstTokenIndex(rs, t).value]} == multiset(rs)
    ensures forall t' :: t' != t ==> Count(r, t') == Count(rs, t')
  {
    match FirstTokenIndex(rs, t)
    case None => rs
    case Some(i) =>
      var r := rs[..i] + rs[i + 1..];
      assert rs == rs[..i] + [rs[i]] + rs[i + 1..];
      forall t' ensures Count(rs, t') == Count(r, t') + (if rs[i].token == t' then 1 else 0) {
        CountAppend(rs[..i] + [rs[i]], rs[i + 1..], t');
        CountAppend(rs[..i], [rs[i]], t');
        CountAppend(rs[..i], rs[i + 1..], t');
      }
      r
  }

  /** A user document with the three secret fields projected away. */
  datatype Profile = Profile(
    id: UserId,
    name: string,
    email: string,
    dateOfBirth: BirthDate,
    verify: UserVerifyStatus,
    username: string,
    bio: string,
    location: string,
    website: string,
    avatar: string,
    coverPhoto: string,
    updatedAt: int,
    dateOfBirthKey: Option<string>)

  /**
   * The projection `{ password: 0, email_verify_token: 0, forgot_password_token: 0 }`:
   * it depends on no secret field, and keeps every other field.
   */
  function ToProfile(u: User): (p: Profile)
    ensures p.id == u.id && p.email == u.email && p.verify == u.verify && p.username == u.username
  {
    Profile(u.id, u.name, u.email, u.dateOfBirth, u.verify, u.username, u.bio,
            u.location, u.website, u.avatar, u.coverPhoto, u.updatedAt, u.dateOfBirthKey)
  }

  /** The projection does not depend on the password hash or on either single-use token. */
  lemma ProfileIgnoresSecrets(u: User, pw: string, evt: string, fpt: string)
    ensures ToProfile(u) == ToProfile(u.(password := pw, emailVerifyToken := evt, forgotPasswordToken := fpt))
  {
  }
}
