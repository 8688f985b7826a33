/** example-feature.js: a single signed-in flag. */
module ExampleFeature {

  /** `username && password`: both present and not empty. */
  predicate Accepts(username: string, password: string)
  {
    username != "" && password != ""
  }

  /** The flag after `login`: set by an accepted login, otherwise as it was. */
  function AfterLogin(flag: bool, username: string, password: string): bool
  {
    if Accepts(username, password) then true else flag
  }

  /** A refused login neither signs in nor signs out; an accepted one always signs in. */
  lemma {:induction false} LoginFlag(flag: bool, username: string, password: string)
    ensures AfterLogin(flag, username, password) <==> flag || (username != "" && password != "")
    ensures username == "" || password == "" ==> AfterLogin(flag, username, password) == flag
  {
  }

  class AuthService {
    var isAuthenticated: bool

    constructor()
      ensures !isAuthenticated
    {
      isAuthenticated := false;
    }

    method Login(username: string, password: string) returns (ok: bool)
      modifies this
      ensures ok <==> Accepts(username, password)
      ensures isAuthenticated == AfterLogin(old(isAuthenticated), username, password)
    {
      if username != "" && password != "" {
        isAuthenticated := true;
        return true;
      }
      return false;
    }

    method Logout()
      modifies this
      ensures !isAuthenticated
    {
      isAuthenticated := false;
    }

    function IsLoggedIn(): bool
      reads this
    {
      isAuthenticated
    }
  }
}
