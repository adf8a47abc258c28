// login_required_custom: a view wrapper that sends a falsy `request.user` to
// the login URL and otherwise calls the view. A view is modelled as a function
// of the request's user and everything else it receives (`A`: the rest of the
// request and the URL arguments).
module Decorators {
  import opened Common
  import opened Http

  const DefaultLoginUrl: string := "/auth/login/"

  /** Python truthiness of `request.user`: only None is falsy. */
  predicate Falsy(u: Identity)
  {
    u.NoneUser?
  }

  /** `decorator(view_func)`: the wrapped view. */
  function Decorate<A(!new)>(view: (Identity, A) -> Response, loginUrl: string): (w: (Identity, A) -> Response)
    ensures forall u, a :: Falsy(u) ==> w(u, a) == Redirect(loginUrl)
    ensures forall u, a :: !Falsy(u) ==> w(u, a) == view(u, a)
  {
    (u: Identity, a: A) => if Falsy(u) then Redirect(loginUrl) else view(u, a)
  }

  /** What `login_required_custom(function, login_url)` evaluates to: the wrapped
      view when it is applied to a view directly, the decorator itself when it
      is called with no view (`@login_required_custom(login_url=...)`). */
  datatype Decorated<!A> =
    | Wrapped(view: (Identity, A) -> Response)
    | Factory(decorator: ((Identity, A) -> Response) -> ((Identity, A) -> Response))

  function LoginRequiredCustom<A(!new)>(viewFunction: Option<(Identity, A) -> Response>, loginUrl: string := DefaultLoginUrl)
    : (r: Decorated<A>)
    ensures viewFunction.Some? ==>
              r.Wrapped? && forall u, a :: r.view(u, a) == Decorate(viewFunction.value, loginUrl)(u, a)
    ensures viewFunction.None? ==> r.Factory?
  {
    match viewFunction
    case Some(f) => Wrapped(Decorate(f, loginUrl))
    case None => Factory(v => Decorate(v, loginUrl))
  }

  /** The factory form decorates whatever view it is then applied to. */
  lemma FactoryDecorates<A(!new)>(loginUrl: string, view: (Identity, A) -> Response, u: Identity, a: A)
    ensures LoginRequiredCustom(None, loginUrl).decorator(view)(u, a) == Decorate(view, loginUrl)(u, a)
    ensures LoginRequiredCustom(None, loginUrl).decorator(view)(NoneUser, a) == Redirect(loginUrl)
  {
  }

  /** The check is truthiness, not authentication: an anonymous caller reaches
      the view, and only the None a stale session leaves is redirected. */
  lemma AnonymousReachesView<A(!new)>(view: (Identity, A) -> Response, a: A)
    ensures Decorate(view, DefaultLoginUrl)(Anonymous, a) == view(Anonymous, a)
    ensures Decorate(view, DefaultLoginUrl)(NoneUser, a) == Redirect("/auth/login/")
  {
  }
}
