/** Registration, login with a single refresh session, refresh-token
    rotation with reuse detection, logout, and the password-reset flow.
    bcrypt and sha256 are modelled as injective hashes and JSON Web Tokens
    as values that carry their payload, secret and expiry. */
module Auth {
  import opened Wrappers
  import opened Types
  import Store

  // ---------------------------------------------------------------------
  // Foreign libraries

  /** `bcrypt.hash(x)`: the salt is abstracted away, so a hash determines
      what was hashed. */
  datatype Hash<T> = Bcrypt(preimage: T)

  /** `bcrypt.compare(x, h)`: true exactly when `h` is a hash of `x`. */
  predicate BcryptCompare<T(==)>(x: T, h: Hash<T>) {
    h.preimage == x
  }

  /** `sha256(x).digest("hex")`: distinct inputs give distinct digests. */
  datatype Digest = Sha256(plain: string)

  /** The two signing keys, JWT_SECRET and JWT_REFRESH_SECRET, taken to be
      different keys (their fallback values are). */
  datatype Secret = AccessSecret | RefreshSecret

  /** A token as `jwt.sign` produces it: payload, key, issue serial and `exp`
      in seconds. `Malformed` is any other string a client may present. */
  datatype Jwt =
    | Signed(secret: Secret, payload: Payload, serial: nat, exp: int)
    | Malformed(raw: string)

  /** `jwt.sign(payload, secret, { expiresIn })` at time `nowMs`: the token
      expires `ttl` seconds after its issue second. */
  function Sign(secret: Secret, payload: Payload, serial: nat, nowMs: int, ttl: int): (r: Jwt) {
    Signed(secret, payload, serial, nowMs / 1000 + ttl)
  }

  /** `jwt.verify(token, secret)` at time `nowMs`: the payload when the token
      was signed with this secret and the current second is before `exp`;
      otherwise a JsonWebTokenError (a TokenExpiredError is one too). */
  function Verify(token: Jwt, secret: Secret, nowMs: int): (r: Result<Payload>)
    ensures r.Err? ==> r.error == JwtError
  {
    if token.Signed? && token.secret == secret && nowMs / 1000 < token.exp then Ok(token.payload)
    else Err(JwtError)
  }

  /** A signed token verifies, with its own payload, under its own secret for
      exactly its lifetime, and never under the other secret: an access token
      is not accepted as a refresh token nor the other way round. */
  lemma SignVerify(secret: Secret, other: Secret, p: Payload, serial: nat, signedAt: int, ttl: int, nowMs: int)
    requires other != secret
    ensures var t := Sign(secret, p, serial, signedAt, ttl);
      && (Verify(t, secret, nowMs) == Ok(p) <==> nowMs / 1000 < signedAt / 1000 + ttl)
      && Verify(t, other, nowMs) == Err(JwtError)
  {
  }

  // ---------------------------------------------------------------------
  // Records

  datatype User = User(
    id: string,
    email: string,
    name: string,
    password: Hash<string>,
    role: Role,
    isVerified: bool,
    refreshToken: Option<Hash<Jwt>>)

  /** The user fields register and login return; never the password or the
      stored token. */
  datatype Profile = Profile(id: string, email: string, name: string, role: Role, isVerified: bool)

  function ProfileOf(u: User): (r: Profile) {
    Profile(u.id, u.email, u.name, u.role, u.isVerified)
  }

  /** A password-reset record, stored under the digest of its token.
      `expiresAt` is in milliseconds. */
  datatype Reset = Reset(userId: string, expiresAt: int)

  datatype Tokens = Tokens(accessToken: Jwt, refreshToken: Jwt)

  /** The user fields login returns: no `isVerified`, which is true on every
      successful login anyway. */
  datatype LoginUser = LoginUser(id: string, email: string, name: string, role: Role)

  datatype Session = Session(user: LoginUser, tokens: Tokens)

  const EmailConflict: Error := ApiError(409, EmailTaken)
  const LoginFailed: Error := ApiError(401, BadCredentials)
  const LoginUnverified: Error := ApiError(400, NotVerified)
  const NoSession: Error := ApiError(403, RefreshInvalid)
  const Reuse: Error := ApiError(403, RefreshReused)
  const RefreshFailed: Error := ApiError(403, RefreshRejected)
  const ResetFailed: Error := ApiError(400, ResetRejected)
  const MissingUser: Error := DbError(RecordNotFound)

  /** One hour, in milliseconds. */
  const ResetLifetime: int := 60 * 60 * 1000

  /** The payload a user's tokens carry. */
  function PayloadOf(u: User): (r: Payload) {
    Payload(u.id, u.email, u.role)
  }

  /** The users table with one user's refresh-token hash replaced. */
  function WithRefresh(users: map<string, User>, id: string, h: Option<Hash<Jwt>>): (r: map<string, User>)
    requires id in users
    ensures r.Keys == users.Keys && r[id] == users[id].(refreshToken := h)
    ensures forall k :: k in users && k != id ==> r[k] == users[k]
  {
    users[id := users[id].(refreshToken := h)]
  }

  /** The reset table with every record of one user removed (deleteMany). */
  function WithoutResetsOf(resets: map<Digest, Reset>, userId: string): (r: map<Digest, Reset>)
    ensures forall d :: d in r <==> d in resets && resets[d].userId != userId
    ensures forall d :: d in r ==> r[d] == resets[d]
  {
    map d | d in resets && resets[d].userId != userId :: resets[d]
  }

  /** generateTokens: an access and a refresh token for the user's id,
      email and role, both with the given serial, living for the access and
      the refresh lifetime. */
  function GenerateTokens(u: User, serial: nat, nowMs: int, accessTtl: int, refreshTtl: int): (r: Tokens) {
    Tokens(Sign(AccessSecret, PayloadOf(u), serial, nowMs, accessTtl),
           Sign(RefreshSecret, PayloadOf(u), serial, nowMs, refreshTtl))
  }

  /** Users are keyed by their id, which was issued before `issued`; the
      email index is a bijection with the users; each reset belongs to a user
      and each user has at most one. */
  ghost predicate Consistent(users: map<string, User>, emails: map<string, string>, resets: map<Digest, Reset>, issued: nat) {
    && (forall id :: id in users ==> users[id].id == id && |id| <= issued && SessionBefore(users[id], issued))
    && (forall id :: id in users ==> users[id].email in emails && emails[users[id].email] == id)
    && (forall e :: e in emails ==> emails[e] in users && users[emails[e]].email == e)
    && (forall d :: d in resets ==> resets[d].userId in users)
    && (forall d1, d2 :: d1 in resets && d2 in resets && resets[d1].userId == resets[d2].userId ==> d1 == d2)
  }

  /** The user's stored refresh token, if any, was signed before `issued`. */
  predicate SessionBefore(u: User, issued: nat) {
    u.refreshToken.Some? ==> IssuedBefore(u.refreshToken.value.preimage, issued)
  }

  /** A token signed with a serial drawn before `issued`. */
  predicate IssuedBefore(t: Jwt, issued: nat) {
    t.Signed? ==> t.serial < issued
  }

  /** Changing a user's password or session, drawing more serials, and
      dropping reset records all keep the tables consistent. */
  lemma UpdateKeepsConsistent(users: map<string, User>, emails: map<string, string>, resets: map<Digest, Reset>,
                              issued: nat, id: string, u: User, resets': map<Digest, Reset>, issued': nat)
    requires Consistent(users, emails, resets, issued)
    requires id in users && u.id == id && u.email == users[id].email
    requires issued <= issued'
    requires SessionBefore(u, issued')
    requires forall d :: d in resets' ==> d in resets && resets'[d] == resets[d]
    ensures Consistent(users[id := u], emails, resets', issued')
  {
  }

  /** Storing a token signed with serial `issued` in place of the one that
      was presented keeps the tables consistent, and the presented token no
      longer matches what is stored. */
  lemma RotationKeepsConsistent(users: map<string, User>, emails: map<string, string>, resets: map<Digest, Reset>,
                                issued: nat, u: User, presented: Jwt, next: Jwt)
    requires Consistent(users, emails, resets, issued)
    requires u.id in users && users[u.id] == u && u.refreshToken.Some? && BcryptCompare(presented, u.refreshToken.value)
    requires next.Signed? && next.serial == issued
    ensures Consistent(WithRefresh(users, u.id, Some(Bcrypt(next))), emails, resets, issued + 1)
    ensures !BcryptCompare(presented, Bcrypt(next))
  {
    UpdateKeepsConsistent(users, emails, resets, issued, u.id, u.(refreshToken := Some(Bcrypt(next))), resets, issued + 1);
  }

  /** A new user under a fresh id and an unused email keeps the tables
      consistent. */
  lemma AddUserKeepsConsistent(users: map<string, User>, emails: map<string, string>, resets: map<Digest, Reset>,
                               issued: nat, u: User)
    requires Consistent(users, emails, resets, issued)
    requires u.email !in emails && |u.id| == issued + 1 && u.refreshToken.None?
    ensures u.id !in users
    ensures Consistent(users[u.id := u], emails[u.email := u.id], resets, issued + 1)
  {
  }

  /** A new reset for a user who has none keeps the tables consistent. */
  lemma AddResetKeepsConsistent(users: map<string, User>, emails: map<string, string>, resets: map<Digest, Reset>,
                                issued: nat, d: Digest, rec: Reset)
    requires Consistent(users, emails, resets, issued)
    requires rec.userId in users && d !in resets
    requires forall d' :: d' in resets ==> resets[d'].userId != rec.userId
    ensures Consistent(users, emails, resets[d := rec], issued)
  {
  }

  /** bcryptjs hashes only the first 72 bytes of what it is given; every
      character of a JWT is one byte. */
  const BcryptLimit: nat := 72

  /** The part of a text bcrypt hashes. */
  function BcryptInput(s: string): (r: string)
    ensures r <= s && |r| <= BcryptLimit
    ensures |s| <= BcryptLimit ==> r == s
  {
    if |s| <= BcryptLimit then s else s[..BcryptLimit]
  }

  /** `bcrypt.compare(token, hash)` on token texts, as bcryptjs computes it:
      only the first 72 characters of either text take part. */
  predicate BcryptCompareAsWritten(token: string, stored: Hash<string>) {
    BcryptInput(token) == BcryptInput(stored.preimage)
  }

  /** Any two token texts that agree on their first 72 characters match. */
  lemma LongTokensCollide(presented: string, stored: string)
    requires |presented| >= BcryptLimit && |stored| >= BcryptLimit
    requires presented[..BcryptLimit] == stored[..BcryptLimit]
    ensures BcryptCompareAsWritten(presented, Bcrypt(stored))
  {
  }

  /** Two refresh tokens of one user, signed an hour apart with HS256: the
      header and the payload's `{"userId":"…` opening fill the first 72
      characters of both (the payload holds userId, email and role before
      iat and exp). */
  const TokenHead: string := "eyJhbGciOiJIUzI1NiIsInR5cCI6IkpXVCJ9.eyJ1c2VySWQiOiIzZjBjMmE5ZS02YjFkLTR"
  const TokenBody: string := "jNTUtOWE3ZS0yZDhmNDFiMGM2YTEiLCJlbWFpbCI6InJlbGF3YW5Ac2lnYW5hLmlkIiwicm9sZSI6IlJFTEFXQU4iLCJpYXQiOjE3NjA1MD"
  const EarlierTail: string := "A" + "wMDAsImV4cCI6MTc2MTEwNDgwMH0.5jCXjj--szu5ZlfiOC9wbpgyLsBEW1hrUX2hqRAgkpw"
  const LaterTail: string := "M" + "2MDAsImV4cCI6MTc2MTEwODQwMH0.EeYndFUZPuAt3QwKweM46jmA1z1Qm0uJ9WMGoyORrO4"

  /** The refresh flow as written accepts a rotated-out token: after the
      earlier token was exchanged for the later one, the stored hash is the
      later token's, and presenting the earlier token again still compares
      equal, so the reuse branch is never reached. */
  lemma RotatedTokenStillMatches()
    ensures var earlier := TokenHead + TokenBody + EarlierTail;
      var later := TokenHead + TokenBody + LaterTail;
      earlier != later && BcryptCompareAsWritten(earlier, Bcrypt(later))
  {
    var earlier := TokenHead + TokenBody + EarlierTail;
    var later := TokenHead + TokenBody + LaterTail;
    assert |TokenHead| == BcryptLimit;
    assert earlier[..BcryptLimit] == TokenHead;
    assert later[..BcryptLimit] == TokenHead;
    LongTokensCollide(earlier, later);
    var shared := TokenHead + TokenBody;
    assert earlier == shared + EarlierTail && later == shared + LaterTail;
    assert EarlierTail[0] == 'A' && LaterTail[0] == 'M';
    assert earlier[|shared|] != later[|shared|];
  }

  class AuthService {
    /** Schema defaults for a new user's role and verification flag, and the
        two token lifetimes in seconds (JWT_ACCESS_EXPIRES_IN,
        JWT_REFRESH_EXPIRES_IN). */
    const defaultRole: Role
    const defaultVerified: bool
    const accessTtl: int
    const refreshTtl: int

    /** The user table by id, the unique email index, the password-reset
        table by token digest, and the counter ids and token serials are
        drawn from. */
    var users: map<string, User>
    var emails: map<string, string>
    var resets: map<Digest, Reset>
    var issued: nat

    ghost predicate Valid()
      reads this
    {
      Consistent(users, emails, resets, issued)
    }

    constructor(defaultRole: Role, defaultVerified: bool, accessTtl: int, refreshTtl: int)
      ensures Valid()
      ensures this.defaultRole == defaultRole && this.defaultVerified == defaultVerified
      ensures this.accessTtl == accessTtl && this.refreshTtl == refreshTtl
      ensures users == map[] && emails == map[] && resets == map[]
    {
      this.defaultRole := defaultRole;
      this.defaultVerified := defaultVerified;
      this.accessTtl := accessTtl;
      this.refreshTtl := refreshTtl;
      users, emails, resets, issued := map[], map[], map[], 0;
    }

    /** register: 409 for an email already taken; otherwise a new user with
        the hashed password, the default role and verification flag, and no
        session. */
    method Register(email: string, password: string, name: string) returns (r: Result<Profile>)
      requires Valid()
      modifies this
      ensures Valid()
      ensures resets == old(resets)
      ensures email in old(emails) ==>
        r == Err(EmailConflict) && users == old(users) && emails == old(emails)
      ensures email !in old(emails) ==>
        && r.Ok? && r.value.id !in old(users)
        && users == old(users)[r.value.id := User(r.value.id, email, name, Bcrypt(password), defaultRole, defaultVerified, None)]
        && emails == old(emails)[email := r.value.id]
        && r.value == ProfileOf(users[r.value.id])
    {
      if email in emails {
        return Err(EmailConflict);
      }
      var id := Store.GeneratedId(issued);
      var u := User(id, email, name, Bcrypt(password), defaultRole, defaultVerified, None);
      AddUserKeepsConsistent(users, emails, resets, issued, u);
      issued := issued + 1;
      users := users[id := u];
      emails := emails[email := id];
      r := Ok(ProfileOf(u));
    }

    /** login: the same 401 for an unknown email and a wrong password, 400 for
        an unverified account; on success a new token pair, and the stored
        refresh hash replaced by the new refresh token's, so that only the
        newest session can refresh. */
    method Login(email: string, password: string, nowMs: int) returns (r: Result<Session>)
      requires Valid()
      modifies this
      ensures Valid()
      ensures emails == old(emails) && resets == old(resets)
      ensures email !in old(emails) ==> r == Err(LoginFailed) && users == old(users)
      ensures email in old(emails) ==>
        var u := old(users)[old(emails)[email]];
        && (!BcryptCompare(password, u.password) ==> r == Err(LoginFailed) && users == old(users))
        && (BcryptCompare(password, u.password) && !u.isVerified ==> r == Err(LoginUnverified) && users == old(users))
        && (BcryptCompare(password, u.password) && u.isVerified ==>
              && r == Ok(Session(LoginUser(u.id, u.email, u.name, u.role), GenerateTokens(u, old(issued), nowMs, accessTtl, refreshTtl)))
              && users == WithRefresh(old(users), u.id, Some(Bcrypt(r.value.tokens.refreshToken))))
    {
      if email !in emails {
        return Err(LoginFailed);
      }
      var u := users[emails[email]];
      if !BcryptCompare(password, u.password) {
        return Err(LoginFailed);
      }
      if !u.isVerified {
        return Err(LoginUnverified);
      }
      var tokens := GenerateTokens(u, issued, nowMs, accessTtl, refreshTtl);
      UpdateKeepsConsistent(users, emails, resets, issued, u.id, u.(refreshToken := Some(Bcrypt(tokens.refreshToken))), resets, issued + 1);
      issued := issued + 1;
      users := WithRefresh(users, u.id, Some(Bcrypt(tokens.refreshToken)));
      r := Ok(Session(LoginUser(u.id, u.email, u.name, u.role), tokens));
    }

    /** refreshToken: a token that does not verify under the refresh secret,
        or whose user is gone or has no session, is refused with 403 and
        changes nothing. A verified token that is not the stored one is a
        reuse: the session is revoked, then 403. The stored one is rotated:
        a new pair is issued, the new refresh hash stored, and the user's
        current email and role go into the new tokens. */
    method RefreshToken(token: Jwt, nowMs: int) returns (r: Result<Tokens>)
      requires Valid()
      modifies this
      ensures Valid()
      ensures emails == old(emails) && resets == old(resets)
      ensures Verify(token, RefreshSecret, nowMs).Err? ==> r == Err(RefreshFailed) && users == old(users)
      ensures Verify(token, RefreshSecret, nowMs).Ok? ==>
        var id := Verify(token, RefreshSecret, nowMs).value.userId;
        && (id !in old(users) || old(users)[id].refreshToken.None? ==> r == Err(NoSession) && users == old(users))
        && (id in old(users) && old(users)[id].refreshToken.Some? ==>
              var u := old(users)[id];
              && (!BcryptCompare(token, u.refreshToken.value) ==>
                    r == Err(Reuse) && users == WithRefresh(old(users), id, None))
              && (BcryptCompare(token, u.refreshToken.value) ==>
                    && r == Ok(GenerateTokens(u, old(issued), nowMs, accessTtl, refreshTtl))
                    && users == WithRefresh(old(users), id, Some(Bcrypt(r.value.refreshToken)))))
      ensures r.Ok? ==> var id := Verify(token, RefreshSecret, nowMs).value.userId;
        id in users && users[id].refreshToken.Some? && !BcryptCompare(token, users[id].refreshToken.value)
    {
      var decoded := Verify(token, RefreshSecret, nowMs);
      if decoded.Err? {
        return Err(RefreshFailed);
      }
      var id := decoded.value.userId;
      if id !in users || users[id].refreshToken.None? {
        return Err(NoSession);
      }
      var u := users[id];
      if !BcryptCompare(token, u.refreshToken.value) {
        UpdateKeepsConsistent(users, emails, resets, issued, id, u.(refreshToken := None), resets, issued);
        users := WithRefresh(users, id, None);
        return Err(Reuse);
      }
      var tokens := GenerateTokens(u, issued, nowMs, accessTtl, refreshTtl);
      RotationKeepsConsistent(users, emails, resets, issued, u, token, tokens.refreshToken);
      issued := issued + 1;
      users := WithRefresh(users, id, Some(Bcrypt(tokens.refreshToken)));
      r := Ok(tokens);
    }

    /** logout: the user's stored refresh hash is cleared; updating a missing
        user is a database error. */
    method Logout(userId: string) returns (r: Result<()>)
      requires Valid()
      modifies this
      ensures Valid()
      ensures emails == old(emails) && resets == old(resets)
      ensures userId !in old(users) ==> r == Err(MissingUser) && users == old(users)
      ensures userId in old(users) ==> r == Ok(()) && users == WithRefresh(old(users), userId, None)
    {
      if userId !in users {
        return Err(MissingUser);
      }
      UpdateKeepsConsistent(users, emails, resets, issued, userId, users[userId].(refreshToken := None), resets, issued);
      users := WithRefresh(users, userId, None);
      r := Ok(());
    }

    /** logoutByRefreshToken: the refresh token must verify (its error is
        passed on as it is); the session of the user it names is cleared. */
    method LogoutByRefreshToken(token: Jwt, nowMs: int) returns (r: Result<()>)
      requires Valid()
      modifies this
      ensures Valid()
      ensures emails == old(emails) && resets == old(resets)
      ensures Verify(token, RefreshSecret, nowMs).Err? ==> r == Err(JwtError) && users == old(users)
      ensures Verify(token, RefreshSecret, nowMs).Ok? ==>
        var id := Verify(token, RefreshSecret, nowMs).value.userId;
        && (id !in old(users) ==> r == Err(MissingUser) && users == old(users))
        && (id in old(users) ==> r == Ok(()) && users == WithRefresh(old(users), id, None))
    {
      var decoded := Verify(token, RefreshSecret, nowMs);
      if decoded.Err? {
        return Err(decoded.error);
      }
      r := Logout(decoded.value.userId);
    }

    /** forgotPassword: for an unknown email nothing happens and nothing is
        sent. Otherwise the user's earlier resets are deleted and one new
        record, under the digest of the random token and expiring an hour from
        now, is created; the plain token is what the email carries. A digest
        already held by another user's reset violates the unique key after the
        deletion has happened. */
    method ForgotPassword(email: string, randomToken: string, nowMs: int) returns (r: Result<Option<string>>)
      requires Valid()
      modifies this
      ensures Valid()
      ensures users == old(users) && emails == old(emails)
      ensures email !in old(emails) ==> r == Ok(None) && resets == old(resets)
      ensures email in old(emails) ==>
        var id := old(emails)[email];
        var kept := WithoutResetsOf(old(resets), id);
        && (Sha256(randomToken) in kept ==> r.Err? && r.error.DbError? && resets == kept)
        && (Sha256(randomToken) !in kept ==>
              r == Ok(Some(randomToken)) && resets == kept[Sha256(randomToken) := Reset(id, nowMs + ResetLifetime)])
    {
      if email !in emails {
        return Ok(None);
      }
      var id := emails[email];
      var kept := WithoutResetsOf(resets, id);
      UpdateKeepsConsistent(users, emails, resets, issued, id, users[id], kept, issued);
      assert users[id := users[id]] == users;
      resets := kept;
      var digest := Sha256(randomToken);
      if digest in resets {
        return Err(DbError(UniqueViolation));
      }
      AddResetKeepsConsistent(users, emails, resets, issued, digest, Reset(id, nowMs + ResetLifetime));
      resets := resets[digest := Reset(id, nowMs + ResetLifetime)];
      r := Ok(Some(randomToken));
    }

    /** resetPassword: an unknown token or one whose expiry is before now is
        refused with 400 (a token expiring exactly now is still accepted).
        Otherwise the password is replaced, the session revoked, and the
        reset record deleted, so a token works once. */
    method ResetPassword(token: string, newPassword: string, nowMs: int) returns (r: Result<()>)
      requires Valid()
      modifies this
      ensures Valid()
      ensures emails == old(emails)
      ensures Sha256(token) !in old(resets) || old(resets)[Sha256(token)].expiresAt < nowMs ==>
        r == Err(ResetFailed) && users == old(users) && resets == old(resets)
      ensures Sha256(token) in old(resets) && nowMs <= old(resets)[Sha256(token)].expiresAt ==>
        var id := old(resets)[Sha256(token)].userId;
        && r == Ok(())
        && id in old(users)
        && users == old(users)[id := old(users)[id].(password := Bcrypt(newPassword), refreshToken := None)]
        && resets == old(resets) - {Sha256(token)}
    {
      var digest := Sha256(token);
      if digest !in resets || resets[digest].expiresAt < nowMs {
        return Err(ResetFailed);
      }
      var id := resets[digest].userId;
      UpdateKeepsConsistent(users, emails, resets, issued, id, users[id].(password := Bcrypt(newPassword), refreshToken := None), resets - {digest}, issued);
      users := users[id := users[id].(password := Bcrypt(newPassword), refreshToken := None)];
      resets := resets - {digest};
      r := Ok(());
    }
  }
}
