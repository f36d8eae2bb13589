/**
 * The sign-in form: one submit in login or registration mode, its error
 * text, and the switch between the two modes.
 */
module AuthPage {
  import opened Base
  import opened AuthViews

  const AUTH_FAILED := "Authentication failed"

  /** The call a submit makes. */
  datatype AuthCall = LoginCall(username: string, password: string) | RegisterCall(username: string, password: string)

  /** The error a failed submit shows: the thrown Error's message, or the
      generic text for anything else thrown. */
  function SubmitError(failure: Option<string>): (r: string)
    ensures failure.Some? ==> r == failure.value
    ensures failure.None? ==> r == AUTH_FAILED
  {
    failure.GetOr(AUTH_FAILED)
  }

  class AuthPageState {
    var isLogin: bool
    var username: string
    var password: string
    var error: string
    var isLoading: bool

    /** The form opens in login mode, empty and idle. */
    constructor ()
      ensures isLogin && username == "" && password == "" && error == "" && !isLoading
    {
      isLogin, username, password, error, isLoading := true, "", "", "", false;
    }

    /** `handleSubmit`: the error is cleared and loading shown before the
        call; login mode logs in, the other registers; success calls
        `onAuthSuccess` once, failure shows the error; loading ends either
        way. */
    method Submit(result: Remote<()>) returns (call: AuthCall, successCalls: nat)
      modifies this
      ensures call == (if isLogin then LoginCall(username, password) else RegisterCall(username, password))
      ensures result.Ok? ==> successCalls == 1 && error == ""
      ensures result.Err? ==> successCalls == 0 && error == SubmitError(result.message)
      ensures !isLoading
      ensures isLogin == old(isLogin) && username == old(username) && password == old(password)
    {
      error := "";
      isLoading := true;
      if isLogin {
        call := LoginCall(username, password);
      } else {
        call := RegisterCall(username, password);
      }
      successCalls := 0;
      if result.Ok? {
        successCalls := successCalls + 1;
      } else {
        error := SubmitError(result.message);
      }
      isLoading := false;
    }

    /** The mode link: login and registration swap and the error clears. */
    method ToggleMode()
      modifies this
      ensures isLogin == !old(isLogin) && error == ""
      ensures username == old(username) && password == old(password) && isLoading == old(isLoading)
    {
      isLogin := !isLogin;
      error := "";
    }
  }

  /** Switching mode twice returns to the same mode with no error shown. */
  method ToggleTwice(page: AuthPageState)
    modifies page
    ensures page.isLogin == old(page.isLogin) && page.error == ""
  {
    page.ToggleMode();
    page.ToggleMode();
  }

  /** What the login wrapper yields for a server reply: success for an ok
      status, otherwise an Error carrying the reply's error text, or
      `fallback` when there is none. */
  function Outcome<T>(reply: Response<T>, fallback: string): (r: Remote<()>)
    requires fallback != ""
    ensures r.Ok? <==> reply.Reply? && 200 <= reply.status < 300
    ensures r.Err? ==> r.message.Some? && r.message.value != ""
    ensures reply.Refused? && reply.error != "" ==> r == Err(Some(reply.error))
    ensures reply.NotFound? || (reply.Refused? && reply.error == "") || (reply.Reply? && !(200 <= reply.status < 300)) ==>
              r == Err(Some(fallback))
  {
    if reply.Reply? && 200 <= reply.status < 300 then Ok(())
    else if reply.Refused? && reply.error != "" then Err(Some(reply.error))
    else Err(Some(fallback))
  }

  /** Signing in from the form against the server: it succeeds exactly for
      a known user with the right password, and otherwise the form shows
      the server's "Invalid credentials". */
  method SignIn(page: AuthPageState, service: AuthService, username: string, password: string)
    returns (successCalls: nat)
    requires page.isLogin && page.username == username && page.password == password
    requires username != "" && password != ""
    modifies page, service
    ensures successCalls == 1 <==> Authenticates(service.users, username, password)
    ensures successCalls != 1 ==> successCalls == 0 && page.error == INVALID
    ensures !page.isLoading
  {
    var reply := service.Login(Some(username), Some(password));
    var call;
    call, successCalls := page.Submit(Outcome(reply, "Login failed"));
  }
}
