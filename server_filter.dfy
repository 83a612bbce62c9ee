/** The gateway's `CustomFilter`: a proxy pre-filter that lets a request
    through only when it is a login call, a CORS pre-flight, or carries a
    session; any other request is answered locally with a plain-text body. */
module CloudServerFilter {
  import opened Wrappers

  /** What the filter reads of the servlet request: its URI, its HTTP method,
      and the attributes of its existing session, if there is one (what
      `getSession(false)` returns; `None` stands for `null`). */
  datatype Request = Request(uri: string, httpMethod: string, session: Option<map<string, string>>)

  /** `MediaType.TEXT_PLAIN`. */
  const TextPlain: string := "text/plain"
  const NoSessionBody: string := "No session..."

  datatype Decision = Forward | Reject(contentType: string, body: string)

  /** The first branch of the filter's `when`: the URI starts with
      `/<loginService>/login` (a plain string prefix, so `/svc/login-page`
      matches too) or the method is `OPTIONS`. */
  predicate AlwaysForwarded(loginService: string, req: Request) {
    ("/" + loginService + "/login") <= req.uri || req.httpMethod == "OPTIONS"
  }

  /** `runCatching { request.getSession(false).getAttribute("name") }`:
      dereferencing a missing session throws, while a session without the
      attribute yields `null` without throwing. */
  function ReadName(req: Request): (r: Result<Option<string>, string>)
    ensures r.Failure? <==> req.session.None?
    ensures r.Success? ==> (r.value.Some? <==> "name" in req.session.value)
    ensures r.Success? && r.value.Some? ==> r.value.value == req.session.value["name"]
  {
    match req.session
    case None => Failure("NullPointerException")
    case Some(attributes) => Success(if "name" in attributes then Some(attributes["name"]) else None)
  }

  /** The gate: login and pre-flight requests always pass; any other request
      passes iff it has a session (whether or not that session holds a name);
      a rejected request is answered with the fixed plain-text body. */
  function Decide(loginService: string, req: Request): (d: Decision)
    ensures AlwaysForwarded(loginService, req) ==> d == Forward
    ensures !AlwaysForwarded(loginService, req) ==> (d == Forward <==> req.session.Some?)
    ensures d != Forward ==> d == Reject(TextPlain, NoSessionBody)
  {
    var shouldForward := if AlwaysForwarded(loginService, req) then true else ReadName(req).Success?;
    if shouldForward then Forward else Reject(TextPlain, NoSessionBody)
  }

  /** A session that exists but holds no "name" still lets the request
      through: reading the missing attribute does not throw. */
  lemma NamelessSessionForwarded(loginService: string, uri: string, httpMethod: string, attributes: map<string, string>)
    requires "name" !in attributes
    ensures Decide(loginService, Request(uri, httpMethod, Some(attributes))) == Forward
  {
  }

  /** The proxy's per-request context, reduced to what the filter touches. */
  class RequestContext {
    const request: Request
    var sendZuulResponse: bool
    var contentType: Option<string>
    var responseBody: Option<string>

    constructor(request: Request)
      ensures this.request == request
      ensures sendZuulResponse && contentType == None && responseBody == None
    {
      this.request := request;
      sendZuulResponse := true;
      contentType := None;
      responseBody := None;
    }
  }

  class CustomFilter {
    /** `lj.login-service-id` from the configuration. */
    const loginService: string

    constructor(loginService: string)
      ensures this.loginService == loginService
    {
      this.loginService := loginService;
    }

    /** `run()`: with no current context nothing happens; a forwarded request
        leaves the context as it was; a rejected one switches off the proxy
        response and gets the plain-text body. */
    method Run(ctx: RequestContext?)
      modifies ctx
      ensures ctx != null && Decide(loginService, ctx.request) == Forward ==> unchanged(ctx)
      ensures ctx != null && Decide(loginService, ctx.request) != Forward ==>
        && !ctx.sendZuulResponse
        && ctx.contentType == Some(TextPlain)
        && ctx.responseBody == Some(NoSessionBody)
    {
      if ctx != null {
        var decision := Decide(loginService, ctx.request);
        if decision.Reject? {
          ctx.sendZuulResponse := false;
          ctx.contentType := Some(decision.contentType);
          ctx.responseBody := Some(decision.body);
        }
      }
    }
  }
}
