// CustomAuthMiddleware: before every view, an anonymous request whose session
// names a user id gets that user as `request.user`; a stale id gives None.
module Middleware {
  import opened Common
  import opened Accounts
  import opened Http

  /** The identity the middleware leaves on the request, given the identity the
      framework's own authentication middleware put there. Only an anonymous
      caller is resolved, and only when the session's "user_id" is truthy. */
  function ResolveUser(current: Identity, session: map<string, string>, users: map<string, User>): (r: Identity)
    requires !current.NoneUser?
    ensures current.Authenticated? ==> r == current
    ensures current.Anonymous? && !Truthy(Get(session, "user_id")) ==> r == Anonymous
    ensures current.Anonymous? && Truthy(Get(session, "user_id")) ==>
              r == (if session["user_id"] in users then Authenticated(users[session["user_id"]]) else NoneUser)
  {
    if current.Authenticated? then current
    else
      var userId := Get(session, "user_id");
      if Truthy(userId) then
        // `CustomUser.objects.get(id=...)`; None is DoesNotExist
        match Get(users, userId.value)
        case Some(u) => Authenticated(u)
        case None => NoneUser
      else current
  }

  /** A resolved user is always a row of the table (or was already on the
      request), and a stale id is the only way to get None. */
  lemma ResolvedUserIsStored(current: Identity, session: map<string, string>, users: map<string, User>)
    requires !current.NoneUser?
    ensures var r := ResolveUser(current, session, users);
      && (r.Authenticated? && current.Anonymous? ==> session["user_id"] in users && r.user == users[session["user_id"]])
      && (r.NoneUser? <==> current.Anonymous? && Truthy(Get(session, "user_id")) && session["user_id"] !in users)
  {
  }

  /** Resolving a request the middleware has already resolved to a user changes nothing. */
  lemma ResolveIdempotent(current: Identity, session: map<string, string>, users: map<string, User>)
    requires !current.NoneUser?
    requires ResolveUser(current, session, users).Authenticated?
    ensures ResolveUser(ResolveUser(current, session, users), session, users) == ResolveUser(current, session, users)
  {
  }

  /** CustomAuthMiddleware.__call__. `getResponse` is the rest of the stack,
      called once with the request as the middleware leaves it; its response is
      passed back untouched. With None already in request.user the
      `is_anonymous` test raises, which the framework answers with 500. */
  method CustomAuthMiddleware(request: Request, users: UserTable,
                              getResponse: (Identity, map<string, string>) -> Response)
    returns (response: Response)
    modifies request
    ensures old(request.user).NoneUser? ==> response == ServerError && request.user == NoneUser
    ensures !old(request.user).NoneUser? ==>
              && request.user == ResolveUser(old(request.user), request.session.data, users.rows)
              && response == getResponse(request.user, request.session.data)
  {
    if request.user.NoneUser? {
      return ServerError;
    }
    if request.user.Anonymous? {
      var userId := Get(request.session.data, "user_id");
      if Truthy(userId) {
        if userId.value in users.rows {
          request.user := Authenticated(users.rows[userId.value]);
        } else {
          request.user := NoneUser;
        }
      }
    }
    response := getResponse(request.user, request.session.data);
  }
}
