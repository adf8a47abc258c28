// The session-based account views: register, login_user and logout_user.
// Login writes the user's id, username and role into the session dictionary
// the custom middleware reads back; logout flushes it.
module MainViews {
  import opened Common
  import opened Accounts
  import opened Http
  import Middleware

  const RegisterPage: string := "register.html"
  const LoginPage: string := "login.html"
  const RegisterRoute: string := "main:register"
  const LoginRoute: string := "main:login"
  const HomeRoute: string := "main:show_main"
  const LastLoginCookie: string := "last_login"

  /** `if not username or not password`: both fields must be present and non-empty. */
  predicate RegisterFieldsGiven(post: map<string, string>)
  {
    Truthy(Get(post, "username")) && Truthy(Get(post, "password"))
  }

  /** The row a successful register stores: the posted username and role
      (default "user"), the hash of the posted password, every other field
      at its default. */
  function RegisteredUser(id: string, post: map<string, string>, hasher: Hasher): (u: User)
    requires RegisterFieldsGiven(post)
    ensures u.id == id && u.username == post["username"]
    ensures u.role == (if "role" in post then post["role"] else UserRole)
    ensures u.password == hasher.make(Some(post["password"]))
    ensures u.isActive && !u.isStaff && u.bio.None? && u.profilePicture.None?
  {
    NewUser(id, post["username"], hasher.make(Some(post["password"])),
            NoExtraFields.(role := Some(GetOrDefault(post, "role", UserRole))))
  }

  /** The user login_user logs in: the row with the posted username, if its
      stored hash checks against the posted password. `is_active` plays no part. */
  function Credentials(rows: map<string, User>, post: map<string, string>, hasher: Hasher): (r: Option<User>)
    requires UniqueUsernames(rows)
    ensures r.Some? <==>
              "username" in post &&
              exists k :: k in rows && rows[k].username == post["username"] &&
                           hasher.check(rows[k].password, Get(post, "password"))
    ensures r.Some? ==> r.value.username == post["username"] && exists k :: k in rows && rows[k] == r.value
  {
    if "username" !in post then None
    else
      match FindByUsername(rows, post["username"])
      case None => None
      case Some(u) => if hasher.check(u.password, Get(post, "password")) then Some(u) else None
  }

  /** A stored user whose hash checks against the posted password is the one
      the credentials find: usernames being unique, there is no other. */
  lemma CredentialsFindStored(rows: map<string, User>, post: map<string, string>, hasher: Hasher, k: string)
    requires UniqueUsernames(rows)
    requires k in rows && "username" in post && rows[k].username == post["username"]
    requires hasher.check(rows[k].password, Get(post, "password"))
    ensures Credentials(rows, post, hasher) == Some(rows[k])
  {
    var found := Credentials(rows, post, hasher);
    assert found.Some?;
    var j :| j in rows && rows[j] == found.value;
    assert rows[j].username == rows[k].username;
  }

  /** The three keys login_user writes over the session. */
  function LoggedInSession(data: map<string, string>, u: User): (d: map<string, string>)
    ensures d.Keys == data.Keys + {"user_id", "username", "role"}
    ensures d["user_id"] == u.id && d["username"] == u.username && d["role"] == u.role
    ensures forall k :: k in data && k !in {"user_id", "username", "role"} ==> d[k] == data[k]
  {
    data["user_id" := u.id]["username" := u.username]["role" := u.role]
  }

  /** register: a POST with both fields and a free username adds one user and
      sends the client to the login page; every other POST goes back to the
      register page with the table unchanged; any other method renders the form. */
  method Register(request: Request, users: UserTable, hasher: Hasher, freshId: string)
    returns (response: Response)
    requires users.Valid()
    requires freshId !in users.rows
    modifies users
    ensures users.Valid()
    ensures request.verb != POST ==> response == Render(RegisterPage) && users.rows == old(users.rows)
    ensures request.verb == POST && !RegisterFieldsGiven(request.post) ==>
              response == Redirect(RegisterRoute) && users.rows == old(users.rows)
    ensures request.verb == POST && RegisterFieldsGiven(request.post) &&
            UsernameTaken(old(users.rows), request.post["username"]) ==>
              response == Redirect(RegisterRoute) && users.rows == old(users.rows)
    ensures request.verb == POST && RegisterFieldsGiven(request.post) &&
            !UsernameTaken(old(users.rows), request.post["username"]) ==>
              response == Redirect(LoginRoute) &&
              users.rows == old(users.rows)[freshId := RegisteredUser(freshId, request.post, hasher)]
  {
    if request.verb != POST {
      return Render(RegisterPage);
    }
    if !RegisterFieldsGiven(request.post) {
      return Redirect(RegisterRoute);
    }
    if UsernameTaken(users.rows, request.post["username"]) {
      return Redirect(RegisterRoute);
    }
    var ok := users.Insert(RegisteredUser(freshId, request.post, hasher));
    response := Redirect(LoginRoute);
  }

  /** login_user: on matching credentials the session gets the user's id,
      username and role, the response goes home and sets the last_login cookie
      to the current time; otherwise, and for any other method, the login page
      is shown and the session is untouched. */
  method LoginUser(request: Request, users: UserTable, hasher: Hasher, now: string)
    returns (response: Response, cookie: CookieOp)
    requires users.Valid()
    modifies request.session
    ensures var u := if request.verb == POST then Credentials(users.rows, request.post, hasher) else None;
      && (u.Some? ==>
            && response == Redirect(HomeRoute) && cookie == SetCookie(LastLoginCookie, now)
            && request.session.data == LoggedInSession(old(request.session.data), u.value))
      && (u.None? ==>
            && response == Render(LoginPage) && cookie == KeepCookies
            && request.session.data == old(request.session.data))
  {
    if request.verb == POST {
      var u := Credentials(users.rows, request.post, hasher);
      if u.Some? {
        request.session.data := LoggedInSession(request.session.data, u.value);
        return Redirect(HomeRoute), SetCookie(LastLoginCookie, now);
      }
    }
    return Render(LoginPage), KeepCookies;
  }

  /** logout_user: the whole session is flushed and last_login deleted, whoever
      (if anyone) was logged in. */
  method LogoutUser(request: Request) returns (response: Response, cookie: CookieOp)
    modifies request.session
    ensures request.session.data == map[]
    ensures response == Redirect(HomeRoute) && cookie == DeleteCookie(LastLoginCookie)
  {
    request.session.data := map[];
    response := Redirect(HomeRoute);
    cookie := DeleteCookie(LastLoginCookie);
  }

  /** The session login_user writes is one the middleware resolves back to the
      same user on the next request. */
  lemma LoggedInSessionResolves(rows: map<string, User>, data: map<string, string>, u: User)
    requires forall k :: k in rows ==> rows[k].id == k
    requires exists k :: k in rows && rows[k] == u
    requires u.id != ""
    ensures Middleware.ResolveUser(Anonymous, LoggedInSession(data, u), rows) == Authenticated(u)
  {
    var k :| k in rows && rows[k] == u;
    assert k == u.id;
  }

  /** Registering a new name and then logging in with the same credentials
      leaves that user's id, username and role in the session, and the
      middleware then sees that user; logging out empties the session again. */
  method RegisterLoginLogout(initial: map<string, User>, username: string, password: string,
                             role: Option<string>, hasher: Hasher, freshId: string, now: string)
    returns (registered: Response, loggedIn: Response, afterLogin: map<string, string>,
             resolved: Identity, afterLogout: map<string, string>)
    requires Sound(hasher)
    requires forall k :: k in initial ==> initial[k].id == k
    requires UniqueUsernames(initial)
    requires freshId !in initial && freshId != ""
    requires username != "" && password != ""
    requires !UsernameTaken(initial, username)
    ensures registered == Redirect(LoginRoute)
    ensures loggedIn == Redirect(HomeRoute)
    ensures afterLogin == map["user_id" := freshId, "username" := username, "role" := role.GetOr(UserRole)]
    ensures resolved.Authenticated? && resolved.user.username == username
    ensures afterLogout == map[]
  {
    var users := new UserTable(initial);
    var form := map["username" := username, "password" := password];
    if role.Some? {
      form := form["role" := role.value];
    }
    var session := new Session(map[]);
    var registration := new Request(POST, false, form, map[], Malformed, session, Anonymous);
    registered := Register(registration, users, hasher, freshId);
    var u := RegisteredUser(freshId, form, hasher);
    assert users.rows[freshId] == u;
    assert hasher.check(u.password, Some(password));
    var credentials := map["username" := username, "password" := password];
    var login := new Request(POST, false, credentials, map[], Malformed, session, Anonymous);
    CredentialsFindStored(users.rows, credentials, hasher, freshId);
    var cookie;
    loggedIn, cookie := LoginUser(login, users, hasher, now);
    afterLogin := session.data;
    LoggedInSessionResolves(users.rows, afterLogin, u);
    resolved := Middleware.ResolveUser(Anonymous, afterLogin, users.rows);
    var logout := new Request(GET, false, map[], map[], Malformed, session, resolved);
    var loggedOut;
    loggedOut, cookie := LogoutUser(logout);
    afterLogout := session.data;
  }
}
