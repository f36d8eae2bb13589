/**
 * The server's account endpoints: register, log in, log out and "who am
 * I", over a user table and the requesting client's session.
 *
 * The user table maps a username to the credential it was created with;
 * `Authenticates` stands for Django's `authenticate` (password hashing is
 * not modelled).
 */
module AuthViews {
  import opened Base

  const REQUIRED := "Username and password are required"
  const TAKEN := "Username already exists"
  const INVALID := "Invalid credentials"

  datatype AuthReply = AuthReply(message: string, username: string)
  datatype UserStatus = UserStatus(username: Option<string>, isAuthenticated: bool)

  /** The credentials match a stored account. */
  predicate Authenticates(users: map<string, string>, username: string, password: string) {
    username in users && users[username] == password
  }

  /** Both request fields are present and non-empty (`not x` is false). */
  predicate HasCredentials(username: Option<string>, password: Option<string>) {
    Truthy(username) && Truthy(password)
  }

  /** `current_user`: the session's username and `is_authenticated`
      true, or `is_authenticated` false with 401. */
  function CurrentUser(session: Option<string>): (r: Response<UserStatus>)
    ensures r.Reply?
    ensures r.status == 200 <==> session.Some?
    ensures r.body.isAuthenticated <==> session.Some?
    ensures session.Some? ==> r.body.username == session
    ensures session.None? ==> r.status == 401 && r.body.username.None?
  {
    match session
    case Some(u) => Reply(200, UserStatus(Some(u), true))
    case None => Reply(401, UserStatus(None, false))
  }

  class AuthService {
    /** username -> credential */
    var users: map<string, string>
    /** The user the requesting client's session is logged in as. */
    var session: Option<string>

    constructor ()
      ensures users == map[] && session.None?
    {
      users, session := map[], None;
    }

    /** `register`: validates, refuses a taken name, otherwise creates the
        account and logs the client in as it. */
    method Register(username: Option<string>, password: Option<string>) returns (r: Response<AuthReply>)
      modifies this
      ensures !HasCredentials(username, password) ==> r == Refused(400, REQUIRED) && unchanged(this)
      ensures HasCredentials(username, password) && username.value in old(users) ==>
                r == Refused(400, TAKEN) && unchanged(this)
      ensures HasCredentials(username, password) && username.value !in old(users) ==>
                && users == old(users)[username.value := password.value]
                && |users| == |old(users)| + 1
                && session == Some(username.value)
                && Authenticates(users, username.value, password.value)
                && r == Reply(201, AuthReply("User registered successfully", username.value))
    {
      if !HasCredentials(username, password) {
        return Refused(400, REQUIRED);
      }
      var u, p := username.value, password.value;
      if u in users {
        return Refused(400, TAKEN);
      }
      users := users[u := p];
      session := Some(u);
      r := Reply(201, AuthReply("User registered successfully", u));
    }

    /** `login_view`: 200 with the username exactly when the credentials
        authenticate, 401 otherwise; the user table never changes. */
    method Login(username: Option<string>, password: Option<string>) returns (r: Response<AuthReply>)
      modifies this
      ensures users == old(users)
      ensures !HasCredentials(username, password) ==> r == Refused(400, REQUIRED) && unchanged(this)
      ensures HasCredentials(username, password) ==>
                (r.Reply? <==> Authenticates(users, username.value, password.value))
      ensures r.Reply? ==> r == Reply(200, AuthReply("Login successful", username.value)) && session == username
      ensures HasCredentials(username, password) && !r.Reply? ==> r == Refused(401, INVALID) && unchanged(this)
    {
      if !HasCredentials(username, password) {
        return Refused(400, REQUIRED);
      }
      var u, p := username.value, password.value;
      if Authenticates(users, u, p) {
        session := Some(u);
        r := Reply(200, AuthReply("Login successful", u));
      } else {
        r := Refused(401, INVALID);
      }
    }

    /** `logout_view`: ends the session. */
    method Logout() returns (r: Response<string>)
      modifies this
      ensures users == old(users) && session.None?
      ensures r == Reply(200, "Logout successful")
    {
      session := None;
      r := Reply(200, "Logout successful");
    }
  }

  /** An account just registered can log in again after logging out, and
      `current_user` then reports it. */
  method RegisterLogoutLogin(s: AuthService, username: string, password: string)
    returns (registered: Response<AuthReply>, loggedIn: Response<AuthReply>)
    requires username != "" && password != "" && username !in s.users
    modifies s
    ensures registered.Reply? && registered.status == 201
    ensures loggedIn == Reply(200, AuthReply("Login successful", username))
    ensures CurrentUser(s.session) == Reply(200, UserStatus(Some(username), true))
  {
    registered := s.Register(Some(username), Some(password));
    var out := s.Logout();
    loggedIn := s.Login(Some(username), Some(password));
  }

  /** A second registration under the same name is refused and changes
      nothing. */
  method RegisterTwice(s: AuthService, username: string, p1: string, p2: string)
    returns (first: Response<AuthReply>, second: Response<AuthReply>)
    requires username != "" && p1 != "" && p2 != "" && username !in s.users
    modifies s
    ensures first.Reply? && second == Refused(400, TAKEN)
    ensures s.users == old(s.users)[username := p1]
  {
    first := s.Register(Some(username), Some(p1));
    second := s.Register(Some(username), Some(p2));
  }
}
