// The web layer every view is written against: requests (with the session
// object and the resolved `request.user`), the three response shapes, and the
// framework checks the views put in front of their bodies (`login_required`,
// `require_http_methods`, `require_POST`, `is_authenticated`).
module Http {
  import opened Common
  import opened Accounts

  datatype Method = GET | POST | PUT | PATCH | DELETE | HEAD

  /** The scalar values the views put in a JSON body. */
  datatype Json = JNull | JBool(b: bool) | JStr(s: string) | JInt(i: int)

  /** A redirect, a response with an explicit status code and JSON body, or a
      rendered template (status 200). */
  datatype Response = Redirect(url: string) | Status(code: nat, body: map<string, Json>) | Render(page: string)

  /** What an uncaught exception becomes: the framework's status 500 page. */
  const ServerError: Response := Status(500, map[])

  /** The request body as `json.loads` sees it: Malformed when it raises or the
      value is not an object. */
  datatype JsonBody = Malformed | Object(fields: map<string, string>)

  /** `request.user`: the framework's AnonymousUser, a user row, or the None
      that the custom middleware stores for a stale session. AnonymousUser and
      every user row are truthy in Python; only None is falsy. */
  datatype Identity = Anonymous | Authenticated(user: User) | NoneUser

  /** What a response does to the client's cookies. */
  datatype CookieOp = KeepCookies | SetCookie(name: string, value: string) | DeleteCookie(name: string)

  /** settings.LOGIN_URL, where the framework's login_required sends anonymous callers. */
  const LoginUrl: string := "/login/"

  /** The server-side session store for one client: a dictionary. */
  class Session {
    var data: map<string, string>

    constructor (initial: map<string, string>)
      ensures data == initial
    {
      data := initial;
    }
  }

  class Request {
    const verb: Method
    /** The X-Requested-With: XMLHttpRequest header is present. */
    const isAjax: bool
    /** request.POST (form fields) and request.GET (query string). */
    const post: map<string, string>
    const query: map<string, string>
    /** request.body as JSON. */
    const body: JsonBody
    const session: Session
    var user: Identity

    constructor (verb: Method, isAjax: bool, post: map<string, string>, query: map<string, string>,
                 body: JsonBody, session: Session, user: Identity)
      ensures this.verb == verb && this.isAjax == isAjax && this.post == post
      ensures this.query == query && this.body == body && this.session == session && this.user == user
    {
      this.verb := verb;
      this.isAjax := isAjax;
      this.post := post;
      this.query := query;
      this.body := body;
      this.session := session;
      this.user := user;
    }
  }

  /** `request.user.is_authenticated`; None is the AttributeError raised on None. */
  function IsAuthenticated(u: Identity): (r: Option<bool>)
    ensures r.None? <==> u.NoneUser?
    ensures r == Some(true) <==> u.Authenticated?
  {
    match u
    case Anonymous => Some(false)
    case Authenticated(_) => Some(true)
    case NoneUser => None
  }

  /** `request.user.role` for a caller already known to be authenticated. */
  function RoleOf(u: Identity): string
    requires u.Authenticated?
  {
    u.user.role
  }

  /** The framework's `login_required`: None lets the view run. An anonymous
      caller is sent to the login page; None in request.user raises. */
  function LoginRequired(u: Identity): (r: Option<Response>)
    ensures r.None? <==> u.Authenticated?
    ensures u.Anonymous? ==> r == Some(Redirect(LoginUrl))
    ensures u.NoneUser? ==> r == Some(ServerError)
  {
    match IsAuthenticated(u)
    case None => Some(ServerError)
    case Some(true) => None
    case Some(false) => Some(Redirect(LoginUrl))
  }

  /** `require_http_methods(allowed)` / `require_POST`: None lets the view run,
      any other method gets 405. */
  function RequireMethods(m: Method, allowed: set<Method>): (r: Option<Response>)
    ensures r.None? <==> m in allowed
    ensures r.Some? ==> r.value.Status? && r.value.code == 405
  {
    if m in allowed then None else Some(Status(405, map[]))
  }

  /** A JSON error body {"status": "error", "message": text}. */
  function ErrorBody(text: string): map<string, Json>
  {
    map["status" := JStr("error"), "message" := JStr(text)]
  }
}
