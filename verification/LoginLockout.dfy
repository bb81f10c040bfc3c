/** Login lockout: `login` and `registerFailedLogin` in
    apps/api/src/auth/auth.service.ts. A login is one atomic step. */
module LoginLockout {
  import opened Common

  const FAILED_LOGIN_LOCK_THRESHOLD := 5
  const FAILED_LOGIN_LOCK_DURATION_MS := 15 * 60 * 1000

  datatype UserStatus = PendingVerification | Active | Locked | Suspended

  datatype User = User(
    status: UserStatus, failedLoginAttempts: nat, lockedUntil: Option<int>, lastLoginAt: Option<int>,
    emailVerified: bool, twoFactorEnabled: bool, hasSecret: bool)

  /** What the caller presents: whether the password is right, and the code, if any,
      with whether it is right. */
  datatype Credentials = Credentials(passwordOk: bool, totp: Option<bool>)

  datatype Outcome =
    | UnknownUser | AccountSuspended | TemporarilyLocked | WrongPassword | EmailUnverified
    | CodeRequired | NoSecretConfigured | WrongCode | LoggedIn

  function RegisterFailedLogin(u: User, now: int): User {
    var attempts := u.failedLoginAttempts + 1;
    if attempts >= FAILED_LOGIN_LOCK_THRESHOLD then
      u.(failedLoginAttempts := attempts, lockedUntil := Some(now + FAILED_LOGIN_LOCK_DURATION_MS), status := Locked)
    else u.(failedLoginAttempts := attempts)
  }

  function Login(u: User, c: Credentials, now: int): (User, Outcome) {
    if u.status == Suspended then (u, AccountSuspended)
    else if u.lockedUntil.Some? && u.lockedUntil.value > now then (u, TemporarilyLocked)
    else if !c.passwordOk then (RegisterFailedLogin(u, now), WrongPassword)
    else if !u.emailVerified then (u, EmailUnverified)
    else if u.twoFactorEnabled && c.totp.None? then (u, CodeRequired)
    else if u.twoFactorEnabled && !u.hasSecret then (u, NoSecretConfigured)
    else if u.twoFactorEnabled && !c.totp.value then (RegisterFailedLogin(u, now), WrongCode)
    else (u.(failedLoginAttempts := 0, lockedUntil := None, status := Active, lastLoginAt := Some(now)), LoggedIn)
  }

  /** While the lock lasts nothing succeeds and nothing changes, right password or not. */
  lemma LockedMeansLocked(u: User, c: Credentials, now: int)
    requires u.lockedUntil.Some? && now < u.lockedUntil.value
    ensures Login(u, c, now).0 == u && Login(u, c, now).1 in {AccountSuspended, TemporarilyLocked}
  {
  }

  predicate EveryFactorRight(u: User, c: Credentials) {
    c.passwordOk && u.emailVerified && (u.twoFactorEnabled ==> u.hasSecret && c.totp == Some(true))
  }

  /** A login succeeds exactly for an unsuspended, unlocked user with every factor right;
      it then clears the counter and the lock and makes the user active. */
  lemma SuccessExactlyWhen(u: User, c: Credentials, now: int)
    ensures Login(u, c, now).1 == LoggedIn <==>
      && u.status != Suspended && (u.lockedUntil.Some? ==> u.lockedUntil.value <= now)
      && c.passwordOk && u.emailVerified
      && (u.twoFactorEnabled ==> u.hasSecret && c.totp == Some(true))
    ensures Login(u, c, now).1 == LoggedIn ==>
      var v := Login(u, c, now).0;
      && v.status == Active && v.failedLoginAttempts == 0 && v.lockedUntil == None && v.lastLoginAt == Some(now)
      && v == u.(status := v.status, failedLoginAttempts := 0, lockedUntil := None, lastLoginAt := v.lastLoginAt)
  {
  }

  /** A failure counts exactly for an unsuspended, unlocked user with a wrong password, or
      with the right one and a wrong code: the fifth and every further one locks the user
      for a quarter of an hour. Every other refusal leaves the user as it was. */
  lemma FailureExactlyWhen(u: User, c: Credentials, now: int)
    ensures var (v, outcome) := Login(u, c, now);
      var open := u.status != Suspended && (u.lockedUntil.Some? ==> u.lockedUntil.value <= now);
      && (outcome == AccountSuspended <==> u.status == Suspended)
      && (outcome == TemporarilyLocked <==> u.status != Suspended && !open)
      && (outcome == WrongPassword <==> open && !c.passwordOk)
      && (outcome == EmailUnverified <==> open && c.passwordOk && !u.emailVerified)
      && (outcome == CodeRequired <==> open && c.passwordOk && u.emailVerified && u.twoFactorEnabled && c.totp == None)
      && (outcome == NoSecretConfigured <==>
            open && c.passwordOk && u.emailVerified && u.twoFactorEnabled && c.totp != None && !u.hasSecret)
      && (outcome == WrongCode <==>
            open && c.passwordOk && u.emailVerified && u.twoFactorEnabled && u.hasSecret && c.totp == Some(false))
      && outcome != UnknownUser
      && (outcome !in {LoggedIn, WrongPassword, WrongCode} ==> v == u)
      && (outcome in {WrongPassword, WrongCode} ==>
            && v == u.(failedLoginAttempts := u.failedLoginAttempts + 1, lockedUntil := v.lockedUntil, status := v.status)
            && v.status == (if u.failedLoginAttempts >= 4 then Locked else u.status)
            && v.lockedUntil == (if u.failedLoginAttempts >= 4 then Some(now + 900_000) else u.lockedUntil))
  {
  }

  // ----- whole histories

  /** A login, or an administrative change that leaves the lockout fields alone. */
  datatype Event =
    | Try(credentials: Credentials, at: int)
    | Change(status: UserStatus, emailVerified: bool, twoFactorEnabled: bool, hasSecret: bool)

  function UserAfter(u: User, events: seq<Event>): User {
    if events == [] then u else
      var before := UserAfter(u, events[..|events| - 1]);
      match events[|events| - 1]
      case Try(c, at) => Login(before, c, at).0
      case Change(s, v, t, h) => before.(status := s, emailVerified := v, twoFactorEnabled := t, hasSecret := h)
  }

  /** The times of the failures registered since the last successful login. */
  function Failures(u: User, events: seq<Event>): seq<int> {
    if events == [] then [] else
      var init := events[..|events| - 1];
      match events[|events| - 1]
      case Change(_, _, _, _) => Failures(u, init)
      case Try(c, at) =>
        var outcome := Login(UserAfter(u, init), c, at).1;
        if outcome == LoggedIn then []
        else if outcome in {WrongPassword, WrongCode} then Failures(u, init) + [at]
        else Failures(u, init)
  }

  predicate Untried(u: User) {
    u.failedLoginAttempts == 0 && u.lockedUntil == None
  }

  /** The two columns say exactly this about the failures. */
  lemma {:induction false} ColumnsMean(u: User, events: seq<Event>)
    requires Untried(u)
    ensures var v, fs := UserAfter(u, events), Failures(u, events);
      && v.failedLoginAttempts == |fs|
      && v.lockedUntil == if |fs| < 5 then None else Some(fs[|fs| - 1] + 900_000)
  {
    if events != [] {
      ColumnsMean(u, events[..|events| - 1]);
    }
  }

  /** From the fifth failure on, failures are at least a quarter of an hour apart. */
  lemma {:induction false} FailuresAreSpaced(u: User, events: seq<Event>)
    requires Untried(u)
    ensures var fs := Failures(u, events);
      forall k :: 5 <= k < |fs| ==> fs[k] >= fs[k - 1] + 900_000
  {
    if events != [] {
      FailuresAreSpaced(u, events[..|events| - 1]);
      ColumnsMean(u, events[..|events| - 1]);
    }
  }

  lemma {:induction false} SpacingAddsUp(fs: seq<int>, d: nat)
    requires |fs| >= 5 && forall k :: 5 <= k < |fs| ==> fs[k] >= fs[k - 1] + d
    ensures fs[|fs| - 1] - fs[4] >= (|fs| - 5) * d
  {
    if |fs| > 5 {
      SpacingAddsUp(fs[..|fs| - 1], d);
      assert (|fs| - 5) * d == (|fs| - 6) * d + d;
    }
  }

  /** n failures since the last success take at least (n - 5) quarters of an hour from
      the fifth on, at any rate of guessing. */
  lemma GuessingIsSlow(u: User, events: seq<Event>)
    requires Untried(u) && |Failures(u, events)| >= 5
    ensures var fs := Failures(u, events);
      fs[|fs| - 1] - fs[4] >= (|fs| - 5) * 900_000
  {
    FailuresAreSpaced(u, events);
    SpacingAddsUp(Failures(u, events), 900_000);
  }

  // ----- a lock ends

  /** Nothing but logins happens. */
  predicate OnlyTries(events: seq<Event>) {
    forall k :: 0 <= k < |events| ==> events[k].Try?
  }

  /** Logins never suspend anybody, and leave alone what they do not own. */
  lemma {:induction false} NeverSuspended(u: User, events: seq<Event>)
    requires u.status != Suspended && OnlyTries(events)
    ensures var v := UserAfter(u, events);
      && v.status != Suspended
      && (v.emailVerified, v.twoFactorEnabled, v.hasSecret) == (u.emailVerified, u.twoFactorEnabled, u.hasSecret)
  {
    if events != [] {
      NeverSuspended(u, events[..|events| - 1]);
      assert events[|events| - 1].Try?;
    }
  }

  /** So after any logins a user who was not suspended gets in, with every factor right, if
      and only if there were fewer than five failures since the last success or the last
      of them is at least a quarter of an hour old; and is active then. */
  lemma LockEndsExactlyWhen(u: User, events: seq<Event>, c: Credentials, now: int)
    requires Untried(u) && u.status != Suspended && OnlyTries(events) && EveryFactorRight(u, c)
    ensures var fs := Failures(u, events);
      && (Login(UserAfter(u, events), c, now).1 == LoggedIn <==> |fs| < 5 || now >= fs[|fs| - 1] + 900_000)
      && (Login(UserAfter(u, events), c, now).1 == LoggedIn ==> Login(UserAfter(u, events), c, now).0.status == Active)
  {
    NeverSuspended(u, events);
    ColumnsMean(u, events);
    SuccessExactlyWhen(UserAfter(u, events), c, now);
  }

  // ----- the service

  class AuthService {
    var users: map<string, User>

    constructor ()
      ensures users == map[]
    {
      users := map[];
    }

    method RegisterFailure(email: string, user: User, now: int)
      modifies this
      requires email in users && users[email] == user
      ensures users == old(users)[email := RegisterFailedLogin(user, now)]
    {
      var attempts := user.failedLoginAttempts + 1;
      var row := user.(failedLoginAttempts := attempts);
      if attempts >= FAILED_LOGIN_LOCK_THRESHOLD {
        row := row.(lockedUntil := Some(now + FAILED_LOGIN_LOCK_DURATION_MS), status := Locked);
      }
      users := users[email := row];
    }

    method TryLogin(email: string, c: Credentials, now: int) returns (outcome: Outcome)
      modifies this
      ensures email !in old(users) ==> outcome == UnknownUser && users == old(users)
      ensures email in old(users) ==>
        outcome == Login(old(users)[email], c, now).1 && users == old(users)[email := Login(old(users)[email], c, now).0]
    {
      if email !in users {
        return UnknownUser;
      }
      var user := users[email];
      assert users[email := user] == users;
      if user.status == Suspended {
        return AccountSuspended;
      }
      if user.lockedUntil.Some? && user.lockedUntil.value > now {
        return TemporarilyLocked;
      }
      if !c.passwordOk {
        RegisterFailure(email, user, now);
        return WrongPassword;
      }
      if !user.emailVerified {
        return EmailUnverified;
      }
      if user.twoFactorEnabled {
        if c.totp.None? {
          return CodeRequired;
        }
        if !user.hasSecret {
          return NoSecretConfigured;
        }
        if !c.totp.value {
          RegisterFailure(email, user, now);
          return WrongCode;
        }
      }
      users := users[email := user.(failedLoginAttempts := 0, lockedUntil := None, status := Active, lastLoginAt := Some(now))];
      return LoggedIn;
    }
  }
}
