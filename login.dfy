/** login.js: a map from user names to passwords. */
module Login {
  import opened Wrappers

  datatype LoginError = UserExists | InvalidCredentials

  /** `login` accepts when a stored password exists, is not empty (a falsy `''`), and equals the one given. */
  predicate Accepts(users: map<string, string>, username: string, password: string)
  {
    username in users && users[username] != "" && users[username] == password
  }

  /** A name registered with a non-empty password logs in with it and no other; an empty password never logs in. */
  lemma {:induction false} RegisterThenLogin(users: map<string, string>, username: string, password: string, other: string)
    requires other != password
    ensures Accepts(users[username := password], username, password) <==> password != ""
    ensures !Accepts(users[username := password], username, other)
  {
  }

  /** Registering a name leaves the logins of every other name as they were. */
  lemma {:induction false} RegisterKeepsOthers(users: map<string, string>, username: string, password: string, name: string, p: string)
    requires name != username
    ensures Accepts(users[username := password], name, p) <==> Accepts(users, name, p)
  {
  }

  class LoginSystem {
    var users: map<string, string>

    constructor()
      ensures users == map[]
    {
      users := map[];
    }

    /** `register`: throws for a name that exists, which keeps its password. */
    method Register(username: string, password: string) returns (r: Result<bool, LoginError>)
      modifies this
      ensures r.Err? <==> username in old(users)
      ensures r.Err? ==> r.error == UserExists && users == old(users)
      ensures r.Ok? ==> r.value && users == old(users)[username := password]
    {
      if username in users {
        return Err(UserExists);
      }
      users := users[username := password];
      return Ok(true);
    }

    method Login(username: string, password: string) returns (r: Result<bool, LoginError>)
      ensures r.Ok? <==> Accepts(users, username, password)
      ensures r.Ok? ==> r.value
      ensures r.Err? ==> r.error == InvalidCredentials
    {
      var stored := if username in users then Some(users[username]) else None;
      if stored.None? || stored.value == "" || stored.value != password {
        return Err(InvalidCredentials);
      }
      return Ok(true);
    }

    method Logout() returns (ok: bool)
      ensures ok
    {
      return true;
    }
  }
}
