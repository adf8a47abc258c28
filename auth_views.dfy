// The JSON account endpoints the mobile client uses: login, register and
// logout. They go through the framework's own `authenticate`, `login` and
// `logout`, which keep the user in the session under "_auth_user_id".
module AuthViews {
  import opened Common
  import opened Accounts
  import opened Http

  /** The session key the framework's login stores the user's primary key under. */
  const AuthSessionKey: string := "_auth_user_id"
  /** The session keys login also writes: the backend's dotted path and the session auth hash. */
  const BackendSessionKey: string := "_auth_user_backend"
  const HashSessionKey: string := "_auth_user_hash"
  /** dribbl_id/settings.py names no AUTHENTICATION_BACKENDS, so authenticate
      always tags the user with the default model backend. */
  const ModelBackend: string := "django.contrib.auth.backends.ModelBackend"

  /** `user.get_session_auth_hash()`, an oracle: a keyed hash of the stored password hash. */
  type SessionHasher = Hash -> string

  /** The framework's `authenticate(username=..., password=...)`, an oracle:
      the user the credentials identify, or None. */
  type Authenticator = (Option<string>, Option<string>) -> Option<User>

  function Message(ok: bool, text: string): map<string, Json>
  {
    map["status" := JBool(ok), "message" := JStr(text)]
  }

  /** The user a login request logs in, if any: a POST with a JSON object
      whose credentials authenticate an active user. */
  function LoginTarget(verb: Method, body: JsonBody, authenticate: Authenticator): (r: Option<User>)
    ensures r.Some? <==>
              verb == POST && body.Object? &&
              var found := authenticate(Get(body.fields, "username"), Get(body.fields, "password"));
              found.Some? && found.value.isActive
    ensures r.Some? ==> r == authenticate(Get(body.fields, "username"), Get(body.fields, "password"))
  {
    if verb == POST && body.Object? then
      var found := authenticate(Get(body.fields, "username"), Get(body.fields, "password"));
      if found.Some? && found.value.isActive then found else None
    else None
  }

  /** The response of login, in the order the view checks: method, JSON body,
      credentials, then whether the account is active. */
  function LoginResponse(verb: Method, body: JsonBody, authenticate: Authenticator): (r: Response)
    ensures r.Status?
    ensures r.code == 200 <==> LoginTarget(verb, body, authenticate).Some?
    ensures r.code == 200 ==>
              var u := LoginTarget(verb, body, authenticate).value;
              && "username" in r.body && r.body["username"] == JStr(u.username)
              && "role" in r.body && r.body["role"] == JStr(u.role)
              && "status" in r.body && r.body["status"] == JBool(true)
    ensures r.code != 200 ==> "status" in r.body && r.body["status"] == JBool(false)
    ensures verb != POST ==> r.code == 405
    ensures verb == POST && body.Malformed? ==> r.code == 400
    ensures verb == POST && body.Object? && LoginTarget(verb, body, authenticate).None? ==> r.code == 401
  {
    if verb != POST then Status(405, Message(false, "Method not allowed"))
    else if body.Malformed? then Status(400, Message(false, "Invalid JSON data"))
    else
      match authenticate(Get(body.fields, "username"), Get(body.fields, "password"))
      case None => Status(401, Message(false, "Login failed, please check your username or password."))
      case Some(u) =>
        if u.isActive then
          Status(200, map["username" := JStr(u.username), "role" := JStr(u.role),
                          "status" := JBool(true), "message" := JStr("Login successful!")])
        else Status(401, Message(false, "Login failed, account is disabled."))
  }

  /** The session login finds belongs to somebody else: it holds another
      user's key, or a session auth hash other than the user's own. A missing
      hash reads as "", and an empty auth hash is never compared. */
  predicate StaleSession(data: map<string, string>, u: User, authHash: string)
  {
    AuthSessionKey in data &&
    (data[AuthSessionKey] != u.id || (authHash != "" && Get(data, HashSessionKey) != Some(authHash)))
  }

  /** The framework's `login(request, user)`: a stale session is flushed
      first, then the user's key, the backend and the session auth hash are
      stored, and every other key is kept. */
  function AuthLoginSession(data: map<string, string>, u: User, authHash: string): (d: map<string, string>)
    ensures d.Keys == (if StaleSession(data, u, authHash) then {} else data.Keys) +
                      {AuthSessionKey, BackendSessionKey, HashSessionKey}
    ensures d[AuthSessionKey] == u.id && d[BackendSessionKey] == ModelBackend && d[HashSessionKey] == authHash
    ensures !StaleSession(data, u, authHash) ==>
              forall k :: k in data && k != AuthSessionKey && k != BackendSessionKey && k != HashSessionKey ==>
                d[k] == data[k]
  {
    var kept := if StaleSession(data, u, authHash) then map[] else data;
    kept[AuthSessionKey := u.id][BackendSessionKey := ModelBackend][HashSessionKey := authHash]
  }

  /** Logging the same user in again changes nothing: the session login
      leaves behind is not stale for that user. */
  lemma LoginSessionIdempotent(data: map<string, string>, u: User, authHash: string)
    ensures !StaleSession(AuthLoginSession(data, u, authHash), u, authHash)
    ensures AuthLoginSession(AuthLoginSession(data, u, authHash), u, authHash) == AuthLoginSession(data, u, authHash)
  {
  }

  /** login: only a successful login changes the request's user and the session. */
  method Login(request: Request, authenticate: Authenticator, sessionHash: SessionHasher) returns (response: Response)
    modifies request, request.session
    ensures response == LoginResponse(request.verb, request.body, authenticate)
    ensures var target := LoginTarget(request.verb, request.body, authenticate);
      && (target.Some? ==>
            request.user == Authenticated(target.value) &&
            request.session.data ==
              AuthLoginSession(old(request.session.data), target.value, sessionHash(target.value.password)))
      && (target.None? ==> request.user == old(request.user) && request.session.data == old(request.session.data))
  {
    response := LoginResponse(request.verb, request.body, authenticate);
    var target := LoginTarget(request.verb, request.body, authenticate);
    if target.Some? {
      request.session.data := AuthLoginSession(request.session.data, target.value, sessionHash(target.value.password));
      request.user := Authenticated(target.value);
    }
  }

  /** The three keys register reads with `data[...]`; a missing one raises. */
  predicate HasRegisterKeys(body: JsonBody)
  {
    body.Object? && "username" in body.fields && "password" in body.fields && "role" in body.fields
  }

  /** register: non-POST gets 400; a body json.loads rejects or one without the
      three keys raises (500); a taken username gets 400; otherwise one user is
      created with the given role and the hash of the given password. */
  method Register(request: Request, users: UserTable, hasher: Hasher, freshId: string)
    returns (response: Response)
    requires users.Valid()
    requires freshId !in users.rows
    modifies users
    ensures users.Valid()
    ensures request.verb != POST ==>
              response == Status(400, Message(false, "Invalid request method.")) && users.rows == old(users.rows)
    ensures request.verb == POST && !HasRegisterKeys(request.body) ==>
              response == ServerError && users.rows == old(users.rows)
    ensures request.verb == POST && HasRegisterKeys(request.body) &&
            UsernameTaken(old(users.rows), request.body.fields["username"]) ==>
              response == Status(400, Message(false, "Username already exists.")) && users.rows == old(users.rows)
    ensures request.verb == POST && HasRegisterKeys(request.body) &&
            !UsernameTaken(old(users.rows), request.body.fields["username"]) ==>
              var f := request.body.fields;
              var u := NewUser(freshId, f["username"], hasher.make(Some(f["password"])),
                               NoExtraFields.(role := Some(f["role"])));
              && users.rows == old(users.rows)[freshId := u]
              && response == Status(200, map["username" := JStr(u.username), "role" := JStr(u.role),
                                             "status" := JStr("success"),
                                             "message" := JStr("User created successfully!")])
  {
    if request.verb != POST {
      return Status(400, Message(false, "Invalid request method."));
    }
    if !HasRegisterKeys(request.body) {
      return ServerError;
    }
    var f := request.body.fields;
    if UsernameTaken(users.rows, f["username"]) {
      return Status(400, Message(false, "Username already exists."));
    }
    var u := NewUser(freshId, f["username"], hasher.make(Some(f["password"])),
                     NoExtraFields.(role := Some(f["role"])));
    var ok := users.Insert(u);
    response := Status(200, map["username" := JStr(u.username), "role" := JStr(u.role),
                                "status" := JStr("success"), "message" := JStr("User created successfully!")]);
  }

  /** `request.user.username`, read before the view's try block: "" for the
      anonymous user, None for the None the middleware may leave. */
  function UsernameOf(u: Identity): (r: Option<string>)
    ensures r.None? <==> u.NoneUser?
    ensures u.Authenticated? ==> r == Some(u.user.username)
  {
    match u
    case Anonymous => Some("")
    case Authenticated(user) => Some(user.username)
    case NoneUser => None
  }

  /** logout: the framework's logout empties the session and makes the request
      anonymous; the response names the user that was logged in. With None in
      request.user the first line raises and nothing changes. */
  method Logout(request: Request) returns (response: Response)
    modifies request, request.session
    ensures old(request.user).NoneUser? ==>
              response == ServerError && request.user == NoneUser && request.session.data == old(request.session.data)
    ensures !old(request.user).NoneUser? ==>
              && request.user == Anonymous && request.session.data == map[]
              && response == Status(200, map["username" := JStr(UsernameOf(old(request.user)).value),
                                             "status" := JBool(true),
                                             "message" := JStr("Logged out successfully!")])
  {
    var username := UsernameOf(request.user);
    if username.None? {
      return ServerError;
    }
    request.session.data := map[];
    request.user := Anonymous;
    response := Status(200, map["username" := JStr(username.value), "status" := JBool(true),
                                "message" := JStr("Logged out successfully!")]);
  }

  /** Logging in and then out through the JSON endpoints leaves an anonymous
      request with an empty session. */
  method LoginThenLogout(verb: Method, body: JsonBody, authenticate: Authenticator, sessionHash: SessionHasher,
                         data: map<string, string>)
    returns (loggedIn: Response, loggedOut: Response, user: Identity, afterLogout: map<string, string>)
    ensures loggedIn == LoginResponse(verb, body, authenticate)
    ensures loggedOut.Status? && loggedOut.code == 200
    ensures LoginTarget(verb, body, authenticate).Some? ==>
              "username" in loggedOut.body && loggedOut.body["username"] == JStr(LoginTarget(verb, body, authenticate).value.username)
    ensures user == Anonymous && afterLogout == map[]
  {
    var session := new Session(data);
    var request := new Request(verb, false, map[], map[], body, session, Anonymous);
    loggedIn := Login(request, authenticate, sessionHash);
    loggedOut := Logout(request);
    user := request.user;
    afterLogout := session.data;
  }
}
