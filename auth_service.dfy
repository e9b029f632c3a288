/** The auth service: registration, login with lockout, promotion to officer and token refresh. */
module Auth {
  import opened Base
  import opened JavaText
  import opened RefreshTokens
  import AuthCurrentUser

  datatype Role = USER | OFFICER | ADMIN

  datatype User = User(
    id: Uuid,
    username: string,
    passwordHash: string,
    roles: set<Role>,
    createdAt: Instant,
    enabled: bool,
    failedLoginAttempts: int,
    lockUntil: Option<Instant>)

  /** Events handed to the application event publisher. */
  datatype AuthEvent =
    | UserRegistered(userId: Uuid, email: string, registeredAt: Instant)
    | UserPromoted(actorId: Uuid, targetUserId: Uuid, occurredAt: Instant)
    | AccountLocked(userId: Uuid, lockUntil: Instant, reason: string)

  datatype AuthResponse = AuthResponse(accessToken: string, refreshToken: string)

  datatype AuthError =
    | UserAlreadyExists
    | InvalidCredentials
    | AccountLockedError
    | UserNotFound
    | NotAuthenticated(message: string)
    | TokenRejected(cause: TokenError)

  const MaxFailedAttempts: int := 5
  const AccountLockDuration: int := 15 * NanosPerMinute
  const BruteForce: string := "BRUTE_FORCE"

  /** The username an e-mail is stored and looked up under. */
  function NormalizeEmail(email: string): string
  {
    ToLower(Trim(email))
  }

  /** existsByUsernameIgnoreCase */
  predicate UsernameTaken(users: map<Uuid, User>, name: string)
  {
    exists id :: id in users && EqualsIgnoreCase(users[id].username, name)
  }

  /** The duplicate check register performs: the e-mail is lower-cased but not trimmed. */
  predicate DuplicateCheckAsWritten(users: map<Uuid, User>, email: string)
  {
    UsernameTaken(users, ToLower(email))
  }

  /** The duplicate check on the username that would actually be stored. */
  predicate IsDuplicateRegistration(users: map<Uuid, User>, email: string)
  {
    UsernameTaken(users, NormalizeEmail(email))
  }

  /** The two readings of the padded e-mail " a@b.com": lower-cased only, and normalised. */
  lemma PaddedEmailReadings()
    ensures NormalizeEmail(" a@b.com") == "a@b.com"
    ensures !EqualsIgnoreCase("a@b.com", ToLower(" a@b.com"))
  {
    TrimSkipsLeading(' ', "a@b.com");
    assert [' '] + "a@b.com" == " a@b.com";
    TrimKeepsClean("a@b.com");
    assert |ToLower(ToLower(" a@b.com"))| == 8;
  }

  /** With "a@b.com" registered, " a@b.com" passes the as-written check although it would be stored
      as "a@b.com" again. */
  lemma UntrimmedDuplicatePassesCheck(u: User)
    requires u.username == "a@b.com"
    ensures !DuplicateCheckAsWritten(map[u.id := u], " a@b.com")
    ensures IsDuplicateRegistration(map[u.id := u], " a@b.com")
    ensures NormalizeEmail(" a@b.com") == u.username
  {
    PaddedEmailReadings();
    var users := map[u.id := u];
    assert u.id in users && EqualsIgnoreCase(users[u.id].username, NormalizeEmail(" a@b.com"));
  }

  function NewUser(id: Uuid, email: string, passwordHash: string, now: Instant): User
  {
    User(id, NormalizeEmail(email), passwordHash, {USER}, now, true, 0, None)
  }

  predicate IsLocked(u: User, now: Instant)
  {
    u.lockUntil.Some? && u.lockUntil.value > now
  }

  /** handleFailedLogin: one more failure; the fifth locks the account for 15 minutes and emits an event. */
  function AfterFailedLogin(u: User, now: Instant): (r: (User, seq<AuthEvent>))
    ensures r.0 == u.(failedLoginAttempts := r.0.failedLoginAttempts, lockUntil := r.0.lockUntil)
    ensures u.failedLoginAttempts + 1 < MaxFailedAttempts ==>
      r.0.failedLoginAttempts == u.failedLoginAttempts + 1 && r.0.lockUntil == u.lockUntil && r.1 == []
    ensures u.failedLoginAttempts + 1 >= MaxFailedAttempts ==>
      && r.0.failedLoginAttempts == 0
      && r.0.lockUntil == Some(now + AccountLockDuration)
      && r.1 == [AccountLocked(u.id, now + AccountLockDuration, BruteForce)]
  {
    var attempts := u.failedLoginAttempts + 1;
    if attempts >= MaxFailedAttempts then
      var lockUntil := now + AccountLockDuration;
      (u.(failedLoginAttempts := 0, lockUntil := Some(lockUntil)), [AccountLocked(u.id, lockUntil, BruteForce)])
    else
      (u.(failedLoginAttempts := attempts), [])
  }

  /** resetLoginFailures */
  function AfterSuccessfulLogin(u: User): (r: User)
    ensures r == u.(failedLoginAttempts := r.failedLoginAttempts, lockUntil := None)
    ensures u.failedLoginAttempts >= 0 ==> r.failedLoginAttempts == 0
  {
    if u.failedLoginAttempts > 0 || u.lockUntil.Some? then u.(failedLoginAttempts := 0, lockUntil := None) else u
  }

  /** A run of failed logins at the given instants, one after another. */
  function FailRepeatedly(u: User, times: seq<Instant>): (User, seq<AuthEvent>)
    decreases |times|
  {
    if times == [] then (u, [])
    else
      var first := AfterFailedLogin(u, times[0]);
      var rest := FailRepeatedly(first.0, times[1..]);
      (rest.0, first.1 + rest.1)
  }

  /** From a clean counter, four failures only count; the fifth locks from its own instant and emits
      exactly one event. */
  lemma {:induction false} FailuresCountUpToLock(u: User, times: seq<Instant>)
    requires 0 <= u.failedLoginAttempts && u.failedLoginAttempts + |times| < MaxFailedAttempts
    ensures FailRepeatedly(u, times).0 == u.(failedLoginAttempts := u.failedLoginAttempts + |times|)
    ensures FailRepeatedly(u, times).1 == []
    decreases |times|
  {
    if times != [] {
      FailuresCountUpToLock(AfterFailedLogin(u, times[0]).0, times[1..]);
    }
  }

  lemma FifthFailureLocks(u: User, times: seq<Instant>)
    requires u.failedLoginAttempts == 0 && |times| == MaxFailedAttempts
    ensures var r := FailRepeatedly(u, times);
      && r.0 == u.(lockUntil := Some(times[4] + AccountLockDuration))
      && r.1 == [AccountLocked(u.id, times[4] + AccountLockDuration, BruteForce)]
  {
    FailuresCountUpToLock(u, times[..4]);
    assert times[..4][1..] == times[1..4];
    var four := FailRepeatedly(u, times[..4]);
    PrefixThenOne(u, times);
  }

  /** Failing on `times` is failing on all but the last instant, then once more. */
  lemma {:induction false} PrefixThenOne(u: User, times: seq<Instant>)
    requires times != []
    ensures var before := FailRepeatedly(u, times[..|times| - 1]);
      var last := AfterFailedLogin(before.0, times[|times| - 1]);
      FailRepeatedly(u, times) == (last.0, before.1 + last.1)
    decreases |times|
  {
    var n := |times|;
    var first := AfterFailedLogin(u, times[0]);
    if n == 1 {
      assert times[..0] == [];
      assert times[1..] == [];
      assert first.1 + [] == first.1;
      assert [] + first.1 == first.1;
      assert FailRepeatedly(first.0, times[1..]) == (first.0, []);
    } else {
      PrefixThenOne(first.0, times[1..]);
      assert times[1..][..n - 2] == times[..n - 1][1..];
      assert times[1..][n - 2] == times[n - 1];
      var before' := FailRepeatedly(first.0, times[1..][..n - 2]);
      var last := AfterFailedLogin(before'.0, times[n - 1]);
      assert FailRepeatedly(u, times[..n - 1]) == (before'.0, first.1 + before'.1);
      assert first.1 + (before'.1 + last.1) == (first.1 + before'.1) + last.1;
    }
  }

  /** The stored counter never reaches the threshold. */
  lemma FailedLoginKeepsCounterBelowThreshold(u: User, now: Instant)
    requires 0 <= u.failedLoginAttempts < MaxFailedAttempts
    ensures 0 <= AfterFailedLogin(u, now).0.failedLoginAttempts < MaxFailedAttempts
  {
  }

  /** The service's invariant over users and the refresh tokens it issued. */
  ghost predicate UsersConsistent(users: map<Uuid, User>, tokens: map<string, RefreshToken>)
  {
    && (forall id :: id in users ==> users[id].id == id)
    && (forall a, b :: a in users && b in users && EqualsIgnoreCase(users[a].username, users[b].username) ==> a == b)
    && (forall id :: id in users ==> 0 <= users[id].failedLoginAttempts < MaxFailedAttempts)
    && (forall t :: t in tokens ==> tokens[t].userId in users)
  }

  /** Two stored users answering to the same name are the same user. */
  lemma NamedUserIsUnique(users: map<Uuid, User>, tokens: map<string, RefreshToken>, a: Uuid, b: Uuid, name: string)
    requires UsersConsistent(users, tokens)
    requires a in users && EqualsIgnoreCase(users[a].username, name)
    requires b in users && EqualsIgnoreCase(users[b].username, name)
    ensures a == b
  {
    assert EqualsIgnoreCase(users[a].username, users[b].username);
  }

  /** Replacing a user's record by one with the same id and username and a counter below the threshold
      keeps the invariant. */
  lemma UpdateKeepsConsistent(users: map<Uuid, User>, tokens: map<string, RefreshToken>, id: Uuid, u: User)
    requires UsersConsistent(users, tokens)
    requires id in users && u.id == id && u.username == users[id].username
    requires 0 <= u.failedLoginAttempts < MaxFailedAttempts
    ensures UsersConsistent(users[id := u], tokens)
  {
    var users' := users[id := u];
    forall a, b | a in users' && b in users' && EqualsIgnoreCase(users'[a].username, users'[b].username)
      ensures a == b
    {
      assert users'[a].username == users[a].username && users'[b].username == users[b].username;
    }
  }

  /** Issuing a token to a stored user keeps the invariant. */
  lemma IssueKeepsConsistent(users: map<Uuid, User>, tokens: map<string, RefreshToken>, value: string, rt: RefreshToken)
    requires UsersConsistent(users, tokens)
    requires rt.userId in users
    ensures UsersConsistent(users, tokens[value := rt])
  {
  }

  class AuthService {
    var users: map<Uuid, User>
    /** Events handed to the application event publisher, oldest first. */
    var events: seq<AuthEvent>
    const refreshTokens: RefreshTokenService

    ghost predicate Valid()
      reads this, refreshTokens
    {
      UsersConsistent(users, refreshTokens.tokens)
    }

    constructor (refreshTokens: RefreshTokenService)
      requires refreshTokens.tokens == map[]
      ensures Valid()
      ensures this.refreshTokens == refreshTokens
      ensures users == map[] && events == []
    {
      this.refreshTokens := refreshTokens;
      users, events := map[], [];
    }

    /** register: refuses a taken username; otherwise stores an enabled USER and emits UserRegistered. */
    method Register(email: string, password: string, now: Instant, newId: Uuid, encode: string -> string)
      returns (r: Outcome<AuthError>)
      requires Valid()
      requires newId !in users
      modifies this
      ensures Valid()
      ensures r.Fail? <==> IsDuplicateRegistration(old(users), email)
      ensures r.Fail? ==> r.error == UserAlreadyExists && users == old(users) && events == old(events)
      ensures r.Pass? ==>
        && users == old(users)[newId := NewUser(newId, email, encode(password), now)]
        && events == old(events) + [UserRegistered(newId, NormalizeEmail(email), now)]
    {
      if IsDuplicateRegistration(users, email) {
        return Fail(UserAlreadyExists);
      }
      var user := NewUser(newId, email, encode(password), now);
      forall a | a in users
        ensures !EqualsIgnoreCase(users[a].username, user.username)
      {
      }
      users := users[newId := user];
      events := events + [UserRegistered(user.id, user.username, user.createdAt)];
      r := Pass;
    }

    /** The user a login e-mail names, if any. */
    ghost predicate Names(id: Uuid, email: string)
      reads this
    {
      id in users && EqualsIgnoreCase(users[id].username, NormalizeEmail(email))
    }

    /** login: unknown user, then the lock, then the password; a failure is recorded on the user. */
    method Login(email: string, password: string, now: Instant,
                 matches: (string, string) -> bool, accessTokenFor: User -> string, newRefreshValue: string)
      returns (r: Result<AuthResponse, AuthError>)
      requires Valid()
      requires newRefreshValue !in refreshTokens.tokens
      modifies this, refreshTokens
      ensures Valid()
      ensures !UsernameTaken(old(users), NormalizeEmail(email)) ==>
        && r == Failure(InvalidCredentials)
        && users == old(users) && events == old(events) && refreshTokens.tokens == old(refreshTokens.tokens)
      ensures forall id | old(Names(id, email)) && IsLocked(old(users)[id], now) ::
        && r == Failure(AccountLockedError)
        && users == old(users) && events == old(events)
        && refreshTokens.tokens == old(refreshTokens.tokens)
      ensures forall id | old(Names(id, email)) && !IsLocked(old(users)[id], now)
                          && !matches(password, old(users)[id].passwordHash) ::
        var failed := AfterFailedLogin(old(users)[id], now);
        && r == Failure(InvalidCredentials)
        && users == old(users)[id := failed.0]
        && events == old(events) + failed.1
        && refreshTokens.tokens == old(refreshTokens.tokens)
      ensures forall id | old(Names(id, email)) && !IsLocked(old(users)[id], now)
                          && matches(password, old(users)[id].passwordHash) ::
        var u := AfterSuccessfulLogin(old(users)[id]);
        && users == old(users)[id := u]
        && events == old(events)
        && refreshTokens.tokens == old(refreshTokens.tokens)[newRefreshValue :=
             RefreshToken(newRefreshValue, id, now, now + RefreshTokenLifetime, false)]
        && r == Success(AuthResponse(accessTokenFor(u), newRefreshValue))
    {
      var name := NormalizeEmail(email);
      if !UsernameTaken(users, name) {
        return Failure(InvalidCredentials);
      }
      var id :| id in users && EqualsIgnoreCase(users[id].username, name);
      forall other | Names(other, email)
        ensures other == id
      {
        NamedUserIsUnique(users, refreshTokens.tokens, other, id, name);
      }
      var user := users[id];
      if IsLocked(user, now) {
        return Failure(AccountLockedError);
      }
      if !matches(password, user.passwordHash) {
        var failed := AfterFailedLogin(user, now);
        FailedLoginKeepsCounterBelowThreshold(user, now);
        UpdateKeepsConsistent(users, refreshTokens.tokens, id, failed.0);
        users := users[id := failed.0];
        events := events + failed.1;
        return Failure(InvalidCredentials);
      }
      user := AfterSuccessfulLogin(user);
      UpdateKeepsConsistent(users, refreshTokens.tokens, id, user);
      users := users[id := user];
      var accessToken := accessTokenFor(user);
      IssueKeepsConsistent(users, refreshTokens.tokens, newRefreshValue,
        RefreshToken(newRefreshValue, id, now, now + RefreshTokenLifetime, false));
      var refreshToken := refreshTokens.CreateForUser(id, now, newRefreshValue);
      r := Success(AuthResponse(accessToken, refreshToken.token));
    }

    /** promoteToOfficer: the caller's id first, then the target; OFFICER already held changes nothing. */
    method PromoteToOfficer(targetUserId: Uuid, auth: Option<AuthCurrentUser.Authentication>,
                            parse: UuidParser, now: Instant)
      returns (r: Outcome<AuthError>)
      requires Valid()
      modifies this
      ensures Valid()
      ensures var caller := AuthCurrentUser.GetUserId(auth, parse);
        && (caller.Failure? ==> r == Fail(NotAuthenticated(caller.error)) && users == old(users) && events == old(events))
        && (caller.Success? && targetUserId !in old(users) ==>
              r == Fail(UserNotFound) && users == old(users) && events == old(events))
        && (caller.Success? && targetUserId in old(users) && OFFICER in old(users)[targetUserId].roles ==>
              r == Pass && users == old(users) && events == old(events))
        && (caller.Success? && targetUserId in old(users) && OFFICER !in old(users)[targetUserId].roles ==>
              var u := old(users)[targetUserId];
              && r == Pass
              && users == old(users)[targetUserId := u.(roles := u.roles + {OFFICER})]
              && events == old(events) + [UserPromoted(caller.value, targetUserId, now)])
    {
      var caller := AuthCurrentUser.GetUserId(auth, parse);
      if caller.Failure? {
        return Fail(NotAuthenticated(caller.error));
      }
      var adminId := caller.value;
      if targetUserId !in users {
        return Fail(UserNotFound);
      }
      var user := users[targetUserId];
      if OFFICER in user.roles {
        return Pass;
      }
      users := users[targetUserId := user.(roles := user.roles + {OFFICER})];
      events := events + [UserPromoted(adminId, targetUserId, now)];
      r := Pass;
    }

    /** refresh: validate, revoke the presented token, and issue a new one for the same user. */
    method Refresh(tokenValue: string, now: Instant, newRefreshValue: string, accessTokenFor: User -> string)
      returns (r: Result<AuthResponse, AuthError>)
      requires Valid()
      requires newRefreshValue !in refreshTokens.tokens
      modifies refreshTokens
      ensures Valid()
      ensures var checked := Validate(old(refreshTokens.tokens), tokenValue, now);
        && (checked.Failure? ==> r == Failure(TokenRejected(checked.error)) && refreshTokens.tokens == old(refreshTokens.tokens))
        && (checked.Success? ==>
              var owner := checked.value.userId;
              && refreshTokens.tokens == WithRevoked(old(refreshTokens.tokens), tokenValue)[newRefreshValue :=
                   RefreshToken(newRefreshValue, owner, now, now + RefreshTokenLifetime, false)]
              && owner in users
              && r == Success(AuthResponse(accessTokenFor(users[owner]), newRefreshValue)))
      ensures r.Success? ==>
        && Validate(refreshTokens.tokens, tokenValue, now) == Failure(RefreshTokenRevoked)
        && Validate(refreshTokens.tokens, newRefreshValue, now).Success?
    {
      var checked := Validate(refreshTokens.tokens, tokenValue, now);
      if checked.Failure? {
        return Failure(TokenRejected(checked.error));
      }
      var presented := checked.value;
      refreshTokens.tokens := WithRevoked(refreshTokens.tokens, tokenValue);
      var issued := refreshTokens.CreateForUser(presented.userId, now, newRefreshValue);
      var accessToken := accessTokenFor(users[presented.userId]);
      r := Success(AuthResponse(accessToken, issued.token));
    }
  }
}
