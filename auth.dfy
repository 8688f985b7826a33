/**
 * auth.js: user registration, login and sessions. The users are kept in a
 * map from id to user, read back in insertion order; here that map is a
 * sequence of users with distinct ids.
 */
module Auth {
  import opened Wrappers
  import opened Seqs
  import opened Strings
  import opened Validation

  /** 24 hours, in milliseconds. */
  const SessionLength: int := 24 * 60 * 60 * 1000

  /** `lastLogin` and the timestamps are milliseconds; `None` is `null`. */
  datatype User = User(
    id: string,
    username: string,
    email: string,
    password: string,
    role: string,
    isActive: bool,
    createdAt: int,
    lastLogin: Option<int>)

  datatype Session = Session(userId: string, username: string, role: string, createdAt: int, expiresAt: int)

  /** The errors `UserAuth` throws. */
  datatype AuthError =
    | InvalidUsername | InvalidEmail | InvalidPassword | UsernameTaken | EmailTaken
    | UserNotFound | UserInactive | WrongPassword

  /** The fields an `updateUser` call carries; `None` is a field the object does not have. */
  datatype Updates = Updates(
    username: Option<string>,
    email: Option<string>,
    password: Option<string>,
    role: Option<string>,
    isActive: Option<bool>)

  datatype Stats = Stats(totalUsers: nat, activeUsers: nat, activeSessions: nat, roles: seq<string>, permissions: seq<string>)

  const Roles: seq<string> := ["admin", "user", "guest"]
  const Permissions: seq<string> := ["read", "write", "delete", "admin"]

  /** The default administrator, created with the service. */
  function Admin(now: int): User
  {
    User("admin-001", "admin", "admin@example.com", "admin123", "admin", true, now, None)
  }

  // ----------------------------------------------------------- validators

  /** `validateUsername`: `^[a-zA-Z0-9]{3,20}$`. */
  predicate ValidUsername(username: string)
  {
    3 <= |username| <= 20 && forall i :: 0 <= i < |username| ==> IsAsciiAlnum(username[i])
  }

  /** A character of `[a-zA-Z\d@$!%*?&]`. */
  predicate PasswordChar(c: char) { IsAsciiAlnum(c) || c in "@$!%*?&" }

  /** `validatePassword`: eight or more allowed characters with a lower-case letter, an upper-case letter and a digit. */
  predicate ValidPassword(password: string)
  {
    && |password| >= 8
    && (forall i :: 0 <= i < |password| ==> PasswordChar(password[i]))
    && (exists i :: 0 <= i < |password| && IsAsciiLower(password[i]))
    && (exists i :: 0 <= i < |password| && IsAsciiUpper(password[i]))
    && (exists i :: 0 <= i < |password| && IsDigit(password[i]))
  }

  /** The default administrator's password would not pass the registration check: it has no upper-case letter. */
  lemma {:induction false} AdminPasswordNotValid(now: int)
    ensures !ValidPassword(Admin(now).password)
  {
    var p := Admin(now).password;
    assert forall i :: 0 <= i < |p| ==> !IsAsciiUpper(p[i]);
  }

  // -------------------------------------------------------------- lookups

  predicate DistinctIds(users: seq<User>)
  {
    forall i, j :: 0 <= i < j < |users| ==> users[i].id != users[j].id
  }

  /** The position of the user stored under `id` (`users.get`), or `|users|`. */
  function IdIndex(users: seq<User>, id: string): (i: nat)
    ensures i <= |users|
    ensures i < |users| ==> users[i].id == id
    ensures forall j :: 0 <= j < i ==> users[j].id != id
  {
    FindIndex(users, (u: User) => u.id == id)
  }

  /** `getUserByUsername`: the position of the earliest user with that name, or `|users|`. */
  function NameIndex(users: seq<User>, username: string): (i: nat)
    ensures i <= |users|
    ensures i < |users| ==> users[i].username == username
    ensures forall j :: 0 <= j < i ==> users[j].username != username
  {
    FindIndex(users, (u: User) => u.username == username)
  }

  /** `getUserByEmail` finds a user. */
  predicate EmailUsed(users: seq<User>, email: string)
  {
    FindIndex(users, (u: User) => u.email == email) < |users|
  }

  /** `users.set(user.id, user)`: replace the user stored under that id, or append. */
  function PutUser(users: seq<User>, user: User): seq<User>
  {
    var i := IdIndex(users, user.id);
    if i < |users| then users[i := user] else users + [user]
  }

  lemma {:induction false} PutUserProps(users: seq<User>, user: User)
    requires DistinctIds(users)
    ensures DistinctIds(PutUser(users, user))
    ensures IdIndex(users, user.id) == |users| ==> PutUser(users, user) == users + [user]
    ensures IdIndex(users, user.id) < |users| ==> |PutUser(users, user)| == |users|
  {
    var i := IdIndex(users, user.id);
    var r := PutUser(users, user);
    forall a, b | 0 <= a < b < |r| ensures r[a].id != r[b].id {
      if i == |users| && b == |users| {
        assert r[a] == users[a];
      }
    }
  }

  // ---------------------------------------------------------- the checks

  /** The first check `register` fails, in the order the source makes them; `None` when all pass. */
  function RegisterError(users: seq<User>, username: string, email: string, password: string): (e: Option<AuthError>)
    ensures e.None? ==> ValidUsername(username) && ValidEmail(email) && ValidPassword(password)
    ensures e == Some(EmailTaken) ==> EmailUsed(users, email)
  {
    if !ValidUsername(username) then Some(InvalidUsername)
    else if !ValidEmail(email) then Some(InvalidEmail)
    else if !ValidPassword(password) then Some(InvalidPassword)
    else if IdIndex(users, username) < |users| then Some(UsernameTaken)
    else if EmailUsed(users, email) then Some(EmailTaken)
    else None
  }

  /** The checks of `login`: the position of the user who logs in, or the error. */
  function LoginCheck(users: seq<User>, username: string, password: string): (r: Result<nat, AuthError>)
    ensures r.Ok? ==> r.value < |users|
  {
    var i := NameIndex(users, username);
    if i == |users| then Err(UserNotFound)
    else if !users[i].isActive then Err(UserInactive)
    else if users[i].password != password then Err(WrongPassword)
    else Ok(i)
  }

  /** `Object.assign(user, updates)` for the modelled fields. */
  function Apply(u: User, up: Updates): (r: User)
    ensures r.id == u.id && r.createdAt == u.createdAt && r.lastLogin == u.lastLogin
  {
    u.(username := if up.username.Some? then up.username.value else u.username,
       email := if up.email.Some? then up.email.value else u.email,
       password := if up.password.Some? then up.password.value else u.password,
       role := if up.role.Some? then up.role.value else u.role,
       isActive := if up.isActive.Some? then up.isActive.value else u.isActive)
  }

  /** The checks of `updateUser`: an empty field is falsy and skips its check. */
  function UpdateError(users: seq<User>, userId: string, up: Updates): Option<AuthError>
  {
    if IdIndex(users, userId) == |users| then Some(UserNotFound)
    else if up.username.Some? && up.username.value != "" && !ValidUsername(up.username.value) then Some(InvalidUsername)
    else if up.email.Some? && up.email.value != "" && !ValidEmail(up.email.value) then Some(InvalidEmail)
    else None
  }

  // ------------------------------------------------------ the properties

  /** A registration passes exactly when the three validators pass, no id equals the name, and the e-mail is new. */
  lemma {:induction false} RegisterErrorIff(users: seq<User>, username: string, email: string, password: string)
    ensures RegisterError(users, username, email, password).None? <==>
      ValidUsername(username) && ValidEmail(email) && ValidPassword(password)
      && (forall i :: 0 <= i < |users| ==> users[i].id != username && users[i].email != email)
  {
    var k := FindIndex(users, (u: User) => u.email == email);
    if k < |users| {
      assert users[k].email == email;
    }
  }

  /** A registered e-mail is rejected whatever the other arguments. */
  lemma {:induction false} DuplicateEmailRejected(users: seq<User>, username: string, email: string, password: string, i: nat)
    requires i < |users| && users[i].email == email
    ensures RegisterError(users, username, email, password).Some?
  {
    RegisterErrorIff(users, username, email, password);
  }

  /**
   * The name check looks up ids, not names: when every id holds a `-`, as
   * `admin-001` and the generated `user-...` ids do, a name that is already
   * taken registers again.
   */
  lemma {:induction false} RepeatedUsernameRegisters(users: seq<User>, j: nat, email: string, password: string)
    requires j < |users| && ValidUsername(users[j].username)
    requires forall i :: 0 <= i < |users| ==> '-' in users[i].id
    requires ValidEmail(email) && ValidPassword(password)
    requires forall i :: 0 <= i < |users| ==> users[i].email != email
    ensures RegisterError(users, users[j].username, email, password).None?
  {
    var name := users[j].username;
    forall i | 0 <= i < |users| ensures users[i].id != name {
      var id := users[i].id;
      var k :| 0 <= k < |id| && id[k] == '-';
      assert !IsAsciiAlnum(id[k]);
    }
    RegisterErrorIff(users, name, email, password);
  }

  /** With a name registered twice, `login` keeps using the earlier user. */
  lemma {:induction false} EarliestUserLogsIn(users: seq<User>, user: User, password: string)
    requires NameIndex(users, user.username) < |users|
    requires IdIndex(users, user.id) == |users|
    ensures NameIndex(PutUser(users, user), user.username) == NameIndex(users, user.username)
    ensures LoginCheck(PutUser(users, user), user.username, password) == LoginCheck(users, user.username, password)
  {
    var r := users + [user];
    var i := NameIndex(users, user.username);
    assert r[i] == users[i];
    forall j | 0 <= j < i ensures r[j].username != user.username {
      assert r[j] == users[j];
    }
    assert PutUser(users, user) == r;
    assert NameIndex(r, user.username) == i;
  }

  /** `login` succeeds for the earliest user with that name, when active and the password matches. */
  lemma {:induction false} LoginCheckMeaning(users: seq<User>, username: string, password: string)
    ensures LoginCheck(users, username, password).Ok? <==>
      exists i :: 0 <= i < |users| && users[i].username == username && users[i].isActive && users[i].password == password
        && (forall j :: 0 <= j < i ==> users[j].username != username)
    ensures LoginCheck(users, username, password) == Err(UserNotFound) <==>
      forall i :: 0 <= i < |users| ==> users[i].username != username
  {
    var i := NameIndex(users, username);
    if exists k :: 0 <= k < |users| && users[k].username == username && users[k].isActive && users[k].password == password
        && (forall j :: 0 <= j < k ==> users[j].username != username) {
      var k :| 0 <= k < |users| && users[k].username == username && users[k].isActive && users[k].password == password
        && (forall j :: 0 <= j < k ==> users[j].username != username);
      assert i == k;
    }
  }

  /** A newly registered user can log in at once with the password given. */
  lemma {:induction false} RegisterThenLogin(users: seq<User>, user: User)
    requires IdIndex(users, user.id) == |users| && NameIndex(users, user.username) == |users|
    requires user.isActive
    ensures LoginCheck(PutUser(users, user), user.username, user.password) == Ok(|users|)
  {
    var r := users + [user];
    assert PutUser(users, user) == r;
    forall j | 0 <= j < |users| ensures r[j].username != user.username {
      assert r[j] == users[j];
    }
    assert r[|users|] == user;
    assert NameIndex(r, user.username) == |users|;
  }

  /** Once the earliest user with a name is deactivated, every login with that name fails as inactive. */
  lemma {:induction false} DeactivatedCannotLogin(users: seq<User>, i: nat, password: string)
    requires i < |users| && NameIndex(users, users[i].username) == i
    ensures LoginCheck(users[i := users[i].(isActive := false)], users[i].username, password) == Err(UserInactive)
  {
    var r := users[i := users[i].(isActive := false)];
    forall j | 0 <= j < i ensures r[j].username != users[i].username {
      assert r[j] == users[j];
    }
    assert r[i].username == users[i].username;
    assert NameIndex(r, users[i].username) == i;
  }

  /** An update passes when the user exists and the name and e-mail it sets are valid or empty. */
  lemma {:induction false} UpdateErrorIff(users: seq<User>, userId: string, up: Updates)
    ensures UpdateError(users, userId, up).None? <==>
      (exists i :: 0 <= i < |users| && users[i].id == userId)
      && (up.username.Some? && up.username.value != "" ==> ValidUsername(up.username.value))
      && (up.email.Some? && up.email.value != "" ==> ValidEmail(up.email.value))
  {
    var i := IdIndex(users, userId);
    if exists k :: 0 <= k < |users| && users[k].id == userId {
      var k :| 0 <= k < |users| && users[k].id == userId;
      assert i <= k;
    }
  }

  // ------------------------------------------------------------ the class

  class UserAuth {
    var users: seq<User>
    var sessions: map<string, Session>

    ghost predicate Valid()
      reads this
    {
      DistinctIds(users)
    }

    /** The service starts with the administrator and no sessions. */
    constructor(now: int)
      ensures Valid()
      ensures users == [Admin(now)] && sessions == map[]
    {
      users := [Admin(now)];
      sessions := map[];
    }

    /** `register`, with the generated id and the clock as parameters; an omitted role is `"user"`. */
    method Register(username: string, email: string, password: string, role: string := "user", id: string, now: int)
      returns (r: Result<User, AuthError>)
      requires Valid()
      modifies this
      ensures Valid()
      ensures r.Err? <==> RegisterError(old(users), username, email, password).Some?
      ensures r.Err? ==> r.error == RegisterError(old(users), username, email, password).value && users == old(users)
      ensures r.Ok? ==> (r.value == User(id, username, email, password, role, true, now, None)
        && users == PutUser(old(users), r.value))
      ensures sessions == old(sessions)
    {
      if !ValidUsername(username) {
        return Err(InvalidUsername);
      }
      if !ValidEmail(email) {
        return Err(InvalidEmail);
      }
      if !ValidPassword(password) {
        return Err(InvalidPassword);
      }
      if IdIndex(users, username) < |users| {
        return Err(UsernameTaken);
      }
      if EmailUsed(users, email) {
        return Err(EmailTaken);
      }
      var user := User(id, username, email, password, role, true, now, None);
      PutUserProps(users, user);
      users := PutUser(users, user);
      return Ok(user);
    }

    /** `login`: on success one session more and the user's `lastLogin` set. */
    method Login(username: string, password: string, sessionId: string, now: int)
      returns (r: Result<(string, User), AuthError>)
      requires Valid()
      modifies this
      ensures Valid()
      ensures LoginCheck(old(users), username, password).Err? ==>
        r == Err(LoginCheck(old(users), username, password).error)
        && users == old(users) && sessions == old(sessions)
      ensures LoginCheck(old(users), username, password).Ok? ==>
        var i := LoginCheck(old(users), username, password).value;
        var u := old(users)[i].(lastLogin := Some(now));
        && users == old(users)[i := u]
        && sessions == old(sessions)[sessionId := Session(u.id, u.username, u.role, now, now + SessionLength)]
        && r == Ok((sessionId, u))
    {
      var i := NameIndex(users, username);
      if i == |users| {
        return Err(UserNotFound);
      }
      var user := users[i];
      if !user.isActive {
        return Err(UserInactive);
      }
      if user.password != password {
        return Err(WrongPassword);
      }
      sessions := sessions[sessionId := Session(user.id, user.username, user.role, now, now + SessionLength)];
      user := user.(lastLogin := Some(now));
      users := users[i := user];
      return Ok((sessionId, user));
    }

    /** `logout`: true exactly when the session existed; it is gone afterwards. */
    method Logout(sessionId: string) returns (ok: bool)
      modifies this
      ensures ok <==> sessionId in old(sessions)
      ensures sessions == old(sessions) - {sessionId} && users == old(users)
    {
      if sessionId in sessions {
        sessions := sessions - {sessionId};
        return true;
      }
      return false;
    }

    /** `validateSession`: an expired session is deleted and rejected. */
    method ValidateSession(sessionId: string, now: int) returns (r: Option<Session>)
      modifies this
      ensures sessionId !in old(sessions) ==> r == None && sessions == old(sessions)
      ensures sessionId in old(sessions) && now > old(sessions)[sessionId].expiresAt ==>
        r == None && sessions == old(sessions) - {sessionId}
      ensures sessionId in old(sessions) && now <= old(sessions)[sessionId].expiresAt ==>
        r == Some(old(sessions)[sessionId]) && sessions == old(sessions)
      ensures users == old(users)
    {
      if sessionId !in sessions {
        return None;
      }
      var session := sessions[sessionId];
      if now > session.expiresAt {
        sessions := sessions - {sessionId};
        return None;
      }
      return Some(session);
    }

    /** `updateUser`: the fields given replace the user's own. */
    method UpdateUser(userId: string, up: Updates) returns (r: Result<User, AuthError>)
      requires Valid()
      modifies this
      ensures Valid()
      ensures r.Err? <==> UpdateError(old(users), userId, up).Some?
      ensures r.Err? ==> r.error == UpdateError(old(users), userId, up).value && users == old(users)
      ensures r.Ok? ==> var i := IdIndex(old(users), userId);
        i < |old(users)| && r.value == Apply(old(users)[i], up) && users == old(users)[i := r.value]
      ensures sessions == old(sessions)
    {
      var i := IdIndex(users, userId);
      if i == |users| {
        return Err(UserNotFound);
      }
      if up.username.Some? && up.username.value != "" && !ValidUsername(up.username.value) {
        return Err(InvalidUsername);
      }
      if up.email.Some? && up.email.value != "" && !ValidEmail(up.email.value) {
        return Err(InvalidEmail);
      }
      var user := Apply(users[i], up);
      users := users[i := user];
      return Ok(user);
    }

    /** `deactivateUser`. */
    method DeactivateUser(userId: string) returns (r: Result<User, AuthError>)
      requires Valid()
      modifies this
      ensures Valid()
      ensures r.Err? <==> IdIndex(old(users), userId) == |old(users)|
      ensures r.Err? ==> r.error == UserNotFound && users == old(users)
      ensures r.Ok? ==> var i := IdIndex(old(users), userId);
        i < |old(users)| && r.value == old(users)[i].(isActive := false) && users == old(users)[i := r.value]
      ensures sessions == old(sessions)
    {
      var i := IdIndex(users, userId);
      if i == |users| {
        return Err(UserNotFound);
      }
      var user := users[i].(isActive := false);
      users := users[i := user];
      return Ok(user);
    }

    /** `getStats` at time `now`. */
    function GetStats(now: int): (s: Stats)
      reads this
      ensures s.totalUsers == |users| && s.activeUsers <= s.totalUsers
    {
      Stats(|users|, Count(users, (u: User) => u.isActive),
            |set id | id in sessions && now <= sessions[id].expiresAt|, Roles, Permissions)
    }
  }

  /** Deactivating an active user lowers the active count by one, and leaves the total. */
  lemma {:induction false} DeactivateCounts(users: seq<User>, i: nat)
    requires i < |users| && users[i].isActive
    ensures Count(users[i := users[i].(isActive := false)], (u: User) => u.isActive)
      == Count(users, (u: User) => u.isActive) - 1
  {
    CountUpdate(users, i, users[i].(isActive := false), (u: User) => u.isActive);
  }
}
