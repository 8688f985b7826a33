/**
 * desarrollador-2-fix.js: login validation that rejects out-of-range or
 * dangerous user names and locks an account for fifteen minutes after five
 * failed attempts. The clock (`Date.now()`) is the parameter `now`.
 */
module AuthFix {
  import opened Wrappers

  const MaxLoginAttempts: nat := 5
  const LockoutDuration: int := 15 * 60 * 1000

  datatype Attempts = Attempts(count: nat, lastAttempt: int)

  datatype LoginError = BadLength | DangerousCharacters | Locked

  /** A character of the class `[<>"'&]`. */
  predicate Dangerous(c: char)
  {
    c == '<' || c == '>' || c == '"' || c == '\'' || c == '&'
  }

  predicate HasDangerous(s: string)
  {
    exists i :: 0 <= i < |s| && Dangerous(s[i])
  }

  /** `isAccountLocked`: five or more failures, the last one less than fifteen minutes ago. */
  predicate IsLocked(failed: map<string, Attempts>, username: string, now: int)
  {
    username in failed && failed[username].count >= MaxLoginAttempts
    && now - failed[username].lastAttempt < LockoutDuration
  }

  /** `recordFailedAttempt`: one more failure, dated now (a first failure starts from zero). */
  function Recorded(failed: map<string, Attempts>, username: string, now: int): map<string, Attempts>
  {
    var count := if username in failed then failed[username].count else 0;
    failed[username := Attempts(count + 1, now)]
  }

  /** `resetFailedAttempts`. */
  function Reset(failed: map<string, Attempts>, username: string): map<string, Attempts>
  {
    failed - {username}
  }

  /** The first check of `validateLogin` that throws, in the source's order. */
  function Refusal(failed: map<string, Attempts>, username: string, now: int): Option<LoginError>
  {
    if |username| < 3 || |username| > 50 then Some(BadLength)
    else if HasDangerous(username) then Some(DangerousCharacters)
    else if IsLocked(failed, username, now) then Some(Locked)
    else None
  }

  predicate PasswordAccepted(password: string) { |password| >= 8 }

  /** The fifth failure within the window locks the account until fifteen minutes have passed, and no longer. */
  lemma {:induction false} FifthFailureLocks(failed: map<string, Attempts>, username: string, now: int, later: int)
    requires username in failed && failed[username].count >= MaxLoginAttempts - 1
    requires now <= later
    ensures IsLocked(Recorded(failed, username, now), username, later) <==> later < now + LockoutDuration
  {
  }

  /** Fewer than four earlier failures: one more does not lock. */
  lemma {:induction false} EarlyFailureDoesNotLock(failed: map<string, Attempts>, username: string, now: int, later: int)
    requires username in failed ==> failed[username].count < MaxLoginAttempts - 1
    ensures !IsLocked(Recorded(failed, username, now), username, later)
  {
  }

  /** A reset unlocks that account and leaves every other one as it was. */
  lemma {:induction false} ResetUnlocks(failed: map<string, Attempts>, username: string, other: string, now: int)
    requires other != username
    ensures !IsLocked(Reset(failed, username), username, now)
    ensures IsLocked(Reset(failed, username), other, now) <==> IsLocked(failed, other, now)
  {
  }

  /** A well-formed user name is refused exactly when its account is locked, whatever the password. */
  lemma {:induction false} LockedRefused(failed: map<string, Attempts>, username: string, now: int)
    requires 3 <= |username| <= 50 && !HasDangerous(username)
    ensures Refusal(failed, username, now) == Some(Locked) <==> IsLocked(failed, username, now)
  {
  }

  class AuthFix {
    var failedAttempts: map<string, Attempts>

    constructor()
      ensures failedAttempts == map[]
    {
      failedAttempts := map[];
    }

    /** `validateLogin`: a refusal throws; otherwise the password check resets or records a failure. */
    method ValidateLogin(username: string, password: string, now: int) returns (r: Result<bool, LoginError>)
      modifies this
      ensures r.Err? <==> Refusal(old(failedAttempts), username, now).Some?
      ensures r.Err? ==> (r.error == Refusal(old(failedAttempts), username, now).value
        && failedAttempts == old(failedAttempts))
      ensures r.Ok? ==> r.value == PasswordAccepted(password)
      ensures r == Ok(true) ==> failedAttempts == Reset(old(failedAttempts), username)
      ensures r == Ok(false) ==> failedAttempts == Recorded(old(failedAttempts), username, now)
    {
      if |username| < 3 || |username| > 50 {
        return Err(BadLength);
      }
      var i := 0;
      while i < |username|
        invariant 0 <= i <= |username|
        invariant forall k :: 0 <= k < i ==> !Dangerous(username[k])
      {
        if Dangerous(username[i]) {
          return Err(DangerousCharacters);
        }
        i := i + 1;
      }
      if IsAccountLocked(username, now) {
        return Err(Locked);
      }
      if |password| >= 8 {
        ResetFailedAttempts(username);
        return Ok(true);
      } else {
        RecordFailedAttempt(username, now);
        return Ok(false);
      }
    }

    function IsAccountLocked(username: string, now: int): (b: bool)
      reads this
      ensures b ==> username in failedAttempts && failedAttempts[username].count >= MaxLoginAttempts
      ensures username in failedAttempts ==>
        (b <==> failedAttempts[username].count >= MaxLoginAttempts && now < failedAttempts[username].lastAttempt + LockoutDuration)
    {
      IsLocked(failedAttempts, username, now)
    }

    method RecordFailedAttempt(username: string, now: int)
      modifies this
      ensures failedAttempts == Recorded(old(failedAttempts), username, now)
    {
      var attempts := if username in failedAttempts then failedAttempts[username] else Attempts(0, 0);
      attempts := attempts.(count := attempts.count + 1, lastAttempt := now);
      failedAttempts := failedAttempts[username := attempts];
    }

    method ResetFailedAttempts(username: string)
      modifies this
      ensures failedAttempts == Reset(old(failedAttempts), username)
    {
      failedAttempts := failedAttempts - {username};
    }
  }
}
