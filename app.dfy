/**
 * The application shell: the route table's guards and redirects, and the
 * start-up authentication check with the login and logout handlers.
 */
module App {
  import opened Base
  import opened AuthViews

  /** The entries of the route table. */
  datatype Route = Auth | Shared | Chats | Intelligence | Analytics | Bookmarks | Root

  /** Routes wrapped in `ProtectedRoute`. */
  predicate IsProtected(r: Route) {
    r == Chats || r == Intelligence || r == Analytics || r == Bookmarks
  }

  /** What a route renders: its page, or a redirect elsewhere. */
  datatype Outcome = Show(route: Route) | Redirect(to: Route)

  /** The element of each route for the current authentication flag:
      protected pages send a signed-out user to /auth, the auth page sends
      a signed-in user to /, the root picks /chats or /auth, and a shared
      conversation is open to everyone. */
  function Resolve(r: Route, isAuthenticated: bool): (o: Outcome)
    ensures IsProtected(r) ==> (o == Show(r) <==> isAuthenticated) && (o.Redirect? ==> o.to == Auth)
    ensures r == Auth ==> (o == Show(Auth) <==> !isAuthenticated) && (o.Redirect? ==> o.to == Root)
    ensures r == Root ==> o == Redirect(if isAuthenticated then Chats else Auth)
    ensures r == Shared ==> o == Show(Shared)
  {
    match r
    case Auth => if isAuthenticated then Redirect(Root) else Show(Auth)
    case Shared => Show(Shared)
    case Root => Redirect(if isAuthenticated then Chats else Auth)
    case _ => if isAuthenticated then Show(r) else Redirect(Auth)
  }

  /** Where following redirects from a route ends. */
  function Landing(r: Route, isAuthenticated: bool): (page: Route)
    ensures Resolve(page, isAuthenticated) == Show(page)
    ensures Resolve(r, isAuthenticated).Show? ==> page == r
    ensures isAuthenticated ==> page != Auth && page != Root
    ensures !isAuthenticated ==> page == Auth || page == Shared
  {
    match Resolve(r, isAuthenticated)
    case Show(p) => p
    case Redirect(next) =>
      match Resolve(next, isAuthenticated)
      case Show(p) => p
      case Redirect(last) => last
  }

  /** A call the shell makes on start-up. */
  datatype AppCall = FetchCsrf | GetCurrentUser

  class AppState {
    var isAuthenticated: bool
    /** The "Loading..." screen is shown while this holds. */
    var isLoading: bool

    constructor ()
      ensures !isAuthenticated && isLoading
    {
      isAuthenticated, isLoading := false, true;
    }

    /** `checkAuth`: the server's flag (false for a non-ok reply), false
        when the call throws; loading ends either way. */
    method CheckAuth(user: Remote<bool>)
      modifies this
      ensures isAuthenticated <==> user == Ok(true)
      ensures !isLoading
    {
      if user.Ok? {
        isAuthenticated := user.value;
      } else {
        isAuthenticated := false;
      }
      isLoading := false;
    }

    /** `initApp`: the CSRF cookie request, then `checkAuth` whether or not
        that request failed. */
    method InitApp(csrf: Remote<()>, user: Remote<bool>) returns (calls: seq<AppCall>)
      modifies this
      ensures calls == [FetchCsrf, GetCurrentUser]
      ensures isAuthenticated <==> user == Ok(true)
      ensures !isLoading
    {
      calls := [FetchCsrf];
      CheckAuth(user);
      calls := calls + [GetCurrentUser];
    }

    /** `handleLogout`: signed out, so every protected page redirects to
        /auth. */
    method HandleLogout()
      modifies this
      ensures !isAuthenticated && isLoading == old(isLoading)
      ensures forall r :: IsProtected(r) ==> Resolve(r, isAuthenticated) == Redirect(Auth)
    {
      isAuthenticated := false;
    }

    /** `handleAuthSuccess`: signed in, so the auth page now leads to the
        chats. */
    method HandleAuthSuccess()
      modifies this
      ensures isAuthenticated && isLoading == old(isLoading)
      ensures Landing(Auth, isAuthenticated) == Chats
    {
      isAuthenticated := true;
    }
  }

  /** What `getCurrentUser` yields for a reply of the user endpoint: the
      reply's flag when the status is ok (2xx), false otherwise. */
  function UserFlag(reply: Response<UserStatus>): (r: Remote<bool>)
    ensures r.Ok?
    ensures reply.Reply? && 200 <= reply.status < 300 ==> r.value == reply.body.isAuthenticated
    ensures !(reply.Reply? && 200 <= reply.status < 300) ==> !r.value
  {
    if reply.Reply? && 200 <= reply.status < 300 then Ok(reply.body.isAuthenticated) else Ok(false)
  }

  /** Start-up against the server: the shell is signed in exactly when the
      server session holds a user. */
  method StartUp(app: AppState, session: Option<string>, csrf: Remote<()>)
    modifies app
    ensures app.isAuthenticated <==> session.Some?
    ensures !app.isLoading
  {
    var calls := app.InitApp(csrf, UserFlag(CurrentUser(session)));
  }
}
