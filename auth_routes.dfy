/**
 * The authentication routes over the user collection: register, login,
 * forgot-password (issue a reset token valid for one hour) and
 * reset-password (redeem it once). Users are keyed by their unique email.
 * bcrypt, the random token generator, JWT signing and the clock are
 * parameters; mail delivery is not modelled.
 */
module AuthRoutes {
  import opened Wrappers

  /** The database id of a stored user, drawn from a counter. Requests and JWT
      payloads carry it as text, which is why the middleware and the post
      routes use `string` ids; `sign` does that conversion. */
  type UserId = nat

  /** How long a reset token stays valid: one hour, in milliseconds. */
  const ResetWindow: int := 3600000

  const UnknownUserMessage: string := "User not found!"
  const ResetLinkSentMessage: string := "Password reset link sent to your email."
  const BadResetTokenMessage: string := "Invalid or expired token!"
  const ResetDoneMessage: string := "Password reset successful!"
  const UserExistsMessage: string := "User already exists!"
  const RegisteredMessage: string := "User registered successfully!"
  const BadCredentialsMessage: string := "Invalid email or password!"
  const LoggedInMessage: string := "Login successful!"

  /** A bcrypt digest. It is a type of its own, so a plaintext password can
      never be stored where a digest belongs. */
  datatype Digest = Digest(code: nat)

  /** The password-hashing library: `hash(password, salt)` with a fresh salt,
      and `compare(password, digest)`. */
  datatype Bcrypt = Bcrypt(hash: (string, nat) -> Digest, compare: (string, Digest) -> bool)

  /** What bcrypt promises: a password matches every digest made from it. */
  ghost predicate Sound(b: Bcrypt)
  {
    forall password, salt :: b.compare(password, b.hash(password, salt))
  }

  datatype User = User(
    id: UserId,
    name: Option<string>,
    email: string,
    password: Digest,
    profilePicture: Option<string>,
    visibility: Option<string>,
    resetToken: Option<string>,
    resetTokenExpiry: Option<int>)

  /** The user as the login reply shows it: no password field. */
  datatype Profile = Profile(
    id: UserId,
    name: Option<string>,
    email: string,
    profilePicture: Option<string>,
    visibility: Option<string>)

  datatype Reply = Reply(status: nat, message: string)

  /** Registration's reply carries the whole stored user document. */
  datatype RegisterReply = RegisterReply(status: nat, message: string, user: Option<User>, token: Option<string>)

  datatype LoginReply = LoginReply(status: nat, message: string, user: Option<Profile>, token: Option<string>)

  /** A reset token and its expiry are present together or absent together. */
  predicate TokenPaired(u: User)
  {
    u.resetToken.Some? <==> u.resetTokenExpiry.Some?
  }

  /** The reset-password query: the user holds `token` and its expiry is
      strictly later than `now`. */
  predicate Redeemable(u: User, token: string, now: int)
  {
    u.resetToken == Some(token) && u.resetTokenExpiry.Some? && u.resetTokenExpiry.value > now
  }

  /** Forgot-password's update: a new token that expires one hour from now,
      replacing any earlier one. */
  function IssueToken(u: User, token: string, now: int): (v: User)
    ensures v.resetToken == Some(token) && v.resetTokenExpiry == Some(now + ResetWindow)
    ensures TokenPaired(v)
    ensures v.(resetToken := u.resetToken, resetTokenExpiry := u.resetTokenExpiry) == u
  {
    u.(resetToken := Some(token), resetTokenExpiry := Some(now + ResetWindow))
  }

  /** Reset-password's update: the new digest, and both token fields cleared. */
  function Consume(u: User, digest: Digest): (v: User)
    ensures v.password == digest
    ensures TokenPaired(v) && v.resetToken.None? && v.resetTokenExpiry.None?
    ensures v.(password := u.password, resetToken := u.resetToken, resetTokenExpiry := u.resetTokenExpiry) == u
  {
    u.(password := digest, resetToken := None, resetTokenExpiry := None)
  }

  /** An issued token can be redeemed exactly while less than an hour has passed. */
  lemma IssuedTokenWindow(u: User, token: string, issuedAt: int, now: int)
    ensures Redeemable(IssueToken(u, token, issuedAt), token, now) <==> now < issuedAt + ResetWindow
  {
  }

  /** Issuing a new token revokes the previous one. */
  lemma ReissueRevokes(u: User, previous: string, token: string, issuedAt: int, now: int)
    requires previous != token
    ensures !Redeemable(IssueToken(u, token, issuedAt), previous, now)
  {
  }

  /** A consumed token cannot be redeemed again, at any time. */
  lemma ConsumedNotRedeemable(u: User, digest: Digest, token: string, now: int)
    ensures !Redeemable(Consume(u, digest), token, now)
  {
  }

  function ProfileOf(u: User): Profile
  {
    Profile(u.id, u.name, u.email, u.profilePicture, u.visibility)
  }

  class UserStore {
    /** The user collection, by email. */
    var users: map<string, User>
    /** The next id to hand out. */
    var nextId: UserId

    ghost predicate Valid()
      reads this
    {
      && (forall e :: e in users ==> users[e].email == e && users[e].id < nextId && TokenPaired(users[e]))
      && (forall e1, e2 :: e1 in users && e2 in users && users[e1].id == users[e2].id ==> e1 == e2)
    }

    /** No two users hold the same reset token. */
    ghost predicate TokensDistinct()
      reads this
    {
      forall e1, e2 ::
        (e1 in users && e2 in users && users[e1].resetToken.Some? && users[e1].resetToken == users[e2].resetToken)
        ==> e1 == e2
    }

    constructor ()
      ensures Valid() && TokensDistinct() && users == map[]
    {
      users, nextId := map[], 0;
    }

    /** POST /forgot-password, with `token` the fresh random token and `now`
        the clock. */
    method ForgotPassword(email: string, token: string, now: int) returns (r: Reply)
      requires Valid()
      modifies this
      ensures Valid() && nextId == old(nextId)
      ensures email !in old(users) ==> r == Reply(404, UnknownUserMessage) && users == old(users)
      ensures email in old(users) ==>
        && users == old(users)[email := IssueToken(old(users)[email], token, now)]
        && r == Reply(200, ResetLinkSentMessage)
      ensures (old(TokensDistinct()) &&
               forall e :: e in old(users) && e != email ==> old(users)[e].resetToken != Some(token))
        ==> TokensDistinct()
    {
      if email !in users {
        return Reply(404, UnknownUserMessage);
      }
      var user := users[email];
      user := user.(resetToken := Some(token));
      user := user.(resetTokenExpiry := Some(now + ResetWindow));
      users := users[email := user];
      r := Reply(200, ResetLinkSentMessage);
    }

    /** POST /reset-password/:token; `salt` is the salt bcrypt draws. Any one
        user whose token matches and has not expired may be chosen. */
    method ResetPassword(token: string, newPassword: string, now: int, b: Bcrypt, salt: nat) returns (r: Reply)
      requires Valid()
      modifies this
      ensures Valid() && nextId == old(nextId)
      ensures r.status == 200 <==> exists e :: e in old(users) && Redeemable(old(users)[e], token, now)
      ensures r.status != 200 ==> r == Reply(400, BadResetTokenMessage) && users == old(users)
      ensures r.status == 200 ==>
        && r.message == ResetDoneMessage
        && exists e :: e in old(users) && Redeemable(old(users)[e], token, now) &&
             users == old(users)[e := Consume(old(users)[e], b.hash(newPassword, salt))]
      ensures old(TokensDistinct()) ==> TokensDistinct()
      ensures r.status == 200 && old(TokensDistinct()) ==>
        forall e :: e in users ==> users[e].resetToken != Some(token)
    {
      if !exists e :: e in users && Redeemable(users[e], token, now) {
        return Reply(400, BadResetTokenMessage);
      }
      var e :| e in users && Redeemable(users[e], token, now);
      var user := users[e];
      user := user.(password := b.hash(newPassword, salt));
      user := user.(resetToken := None);
      user := user.(resetTokenExpiry := None);
      users := users[e := user];
      r := Reply(200, ResetDoneMessage);
    }

    /** POST /register; `salt` is bcrypt's and `sign` issues the JWT for an id. */
    method Register(name: Option<string>, email: string, password: string, profilePicture: Option<string>,
                    visibility: Option<string>, b: Bcrypt, salt: nat, sign: UserId -> string)
      returns (r: RegisterReply)
      requires Valid()
      modifies this
      ensures Valid()
      ensures old(TokensDistinct()) ==> TokensDistinct()
      ensures email in old(users) ==>
        r == RegisterReply(400, UserExistsMessage, None, None) && users == old(users)
      ensures email !in old(users) ==>
        var u := User(old(nextId), name, email, b.hash(password, salt), profilePicture, visibility, None, None);
        && users == old(users)[email := u]
        && r == RegisterReply(201, RegisteredMessage, Some(u), Some(sign(u.id)))
    {
      if email in users {
        return RegisterReply(400, UserExistsMessage, None, None);
      }
      var hashed := b.hash(password, salt);
      var u := User(nextId, name, email, hashed, profilePicture, visibility, None, None);
      users := users[email := u];
      nextId := nextId + 1;
      r := RegisterReply(201, RegisteredMessage, Some(u), Some(sign(u.id)));
    }

    /** POST /login: an unknown email and a wrong password get the same
        answer; success shows the profile, never the password. */
    method Login(email: string, password: string, b: Bcrypt, sign: UserId -> string) returns (r: LoginReply)
      ensures r.status == 200 <==> email in users && b.compare(password, users[email].password)
      ensures r.status != 200 ==> r == LoginReply(400, BadCredentialsMessage, None, None)
      ensures r.status == 200 ==>
        var u := users[email];
        r == LoginReply(200, LoggedInMessage,
                        Some(Profile(u.id, u.name, u.email, u.profilePicture, u.visibility)), Some(sign(u.id)))
    {
      if email !in users {
        return LoginReply(400, BadCredentialsMessage, None, None);
      }
      var user := users[email];
      var isMatch := b.compare(password, user.password);
      if !isMatch {
        return LoginReply(400, BadCredentialsMessage, None, None);
      }
      r := LoginReply(200, LoggedInMessage, Some(ProfileOf(user)), Some(sign(user.id)));
    }
  }

  /** A user who has just registered can log in with the same password:
      the digest register stores is the one login compares against. */
  method RegisterThenLogIn(store: UserStore, name: Option<string>, email: string, password: string,
                           profilePicture: Option<string>, visibility: Option<string>,
                           b: Bcrypt, salt: nat, sign: UserId -> string)
    returns (registered: RegisterReply, login: LoginReply)
    requires store.Valid() && Sound(b)
    requires email !in store.users
    modifies store
    ensures registered.status == 201
    ensures login.status == 200 && login.user.Some? && login.user.value.email == email
  {
    registered := store.Register(name, email, password, profilePicture, visibility, b, salt, sign);
    login := store.Login(email, password, b, sign);
  }

  /** After a successful reset the new password logs in. With distinct
      tokens, the user who asked for the token is the one whose password
      changes, and the same token cannot be used a second time. */
  method ResetThenLogIn(store: UserStore, email: string, token: string, newPassword: string,
                        now: int, b: Bcrypt, salt: nat, sign: UserId -> string)
    returns (reset: Reply, login: LoginReply, again: Reply)
    requires store.Valid() && store.TokensDistinct() && Sound(b)
    requires email in store.users && Redeemable(store.users[email], token, now)
    modifies store
    ensures reset == Reply(200, ResetDoneMessage)
    ensures login.status == 200 && login.user.Some? && login.user.value.email == email
    ensures again == Reply(400, BadResetTokenMessage)
  {
    reset := store.ResetPassword(token, newPassword, now, b, salt);
    assert store.users[email].password == b.hash(newPassword, salt);
    login := store.Login(email, newPassword, b, sign);
    again := store.ResetPassword(token, newPassword, now, b, salt);
  }
}
