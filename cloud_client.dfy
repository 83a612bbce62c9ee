/** The client service's `LoginController` and `ConfigRefreshController`:
    login stores the user name in the HTTP session, logout invalidates it,
    and two report endpoints render the session name, a configuration value
    and the data source with `null` fallbacks. */
module CloudClient {
  import opened Wrappers

  /** The attribute key the login stores the user under. */
  const NameKey: string := "name"
  /** The inactivity interval, in seconds, that a login sets. */
  const LoginInterval: int := 99999999

  const LoginFailed: string := "Login failed"
  const LogoutFailed: string := "Logout failed"

  /** The observable state of a live HTTP session. */
  datatype Session = Session(attributes: map<string, string>, maxInactiveInterval: int)

  /** A nullable value in a Kotlin string template: `null` renders as "null". */
  function Show(o: Option<string>): (r: string)
    ensures o.Some? ==> r == o.value
    ensures o.None? ==> r == "null"
  {
    match o
    case Some(v) => v
    case None => "null"
  }

  /** `getAttribute(key)`: the stored value, or `null`. */
  function Attribute(s: Session, key: string): (r: Option<string>)
    ensures r.Some? <==> key in s.attributes
    ensures r.Some? ==> r.value == s.attributes[key]
  {
    if key in s.attributes then Some(s.attributes[key]) else None
  }

  // ---------------------------------------------------------------- login and logout

  /** What `request.session` (`getSession(true)`) yields: the current
      session, otherwise a new empty one when the container can create it,
      otherwise `null`. */
  function Available(current: Option<Session>, canCreate: bool, defaultInterval: int): (r: Option<Session>)
    ensures current.Some? ==> r == current
    ensures current.None? ==> (r.Some? <==> canCreate)
    ensures current.None? && r.Some? ==> r.value.attributes == map[]
  {
    if current.Some? then current
    else if canCreate then Some(Session(map[], defaultInterval))
    else None
  }

  /** The two statements of the login block on one session. */
  function SignIn(s: Session, user: string): Session {
    Session(s.attributes[NameKey := user], LoginInterval)
  }

  /** `login(user)`: the session afterwards and the reply. The reply reads
      the name back from the updated session. */
  function LoginOutcome(current: Option<Session>, canCreate: bool, defaultInterval: int, user: string)
    : (r: (Option<Session>, string))
    ensures r.1 == LoginFailed <==> current.None? && !canCreate
    ensures r.1 == LoginFailed ==> r.0 == None
    ensures r.1 != LoginFailed ==>
      && r.1 == "Login success, user: " + user
      && r.0.Some?
      && Attribute(r.0.value, NameKey) == Some(user)
      && r.0.value.maxInactiveInterval == LoginInterval
      && (forall k :: k != NameKey ==>
            Attribute(r.0.value, k) == if current.Some? then Attribute(current.value, k) else None)
  {
    match Available(current, canCreate, defaultInterval)
    case None => (None, LoginFailed)
    case Some(s) =>
      var t := SignIn(s, user);
      var reply := "Login success, user: " + Show(Attribute(t, NameKey));
      assert reply[6] == 's';
      (Some(t), reply)
  }

  /** `logout()`: no session afterwards in either case; the reply names the
      user the session held, or fails when there was no session. */
  function LogoutOutcome(current: Option<Session>): (r: (Option<Session>, string))
    ensures r.0 == None
    ensures r.1 == LogoutFailed <==> current.None?
    ensures current.Some? ==> r.1 == "Logout success, user: " + Show(Attribute(current.value, NameKey))
  {
    match current
    case None => (None, LogoutFailed)
    case Some(s) =>
      var reply := "Logout success, user: " + Show(Attribute(s, NameKey));
      assert reply[7] == 's';
      (None, reply)
  }

  /** A second login on the same session is the same as logging in once
      with the second user: the last login wins. */
  lemma LastLoginWins(current: Option<Session>, canCreate: bool, defaultInterval: int, first: string, second: string)
    requires LoginOutcome(current, canCreate, defaultInterval, first).0.Some?
    ensures var afterFirst := LoginOutcome(current, canCreate, defaultInterval, first).0;
      LoginOutcome(afterFirst, canCreate, defaultInterval, second) == LoginOutcome(current, canCreate, defaultInterval, second)
  {
    var s := Available(current, canCreate, defaultInterval).value;
    assert s.attributes[NameKey := first][NameKey := second] == s.attributes[NameKey := second];
  }

  /** Logging out right after a login names the user who logged in. */
  lemma LogoutAfterLogin(current: Option<Session>, canCreate: bool, defaultInterval: int, user: string)
    requires LoginOutcome(current, canCreate, defaultInterval, user).0.Some?
    ensures LogoutOutcome(LoginOutcome(current, canCreate, defaultInterval, user).0)
            == (None, "Logout success, user: " + user)
  {
  }

  /** The session is gone after a logout, so a second logout fails and
      leaves no session. */
  lemma SecondLogoutFails(current: Option<Session>)
    ensures LogoutOutcome(LogoutOutcome(current).0) == (None, LogoutFailed)
  {
  }

  // ---------------------------------------------------------------- reports

  /** `testConfig(configPath)`: the session's name (`null` without a session
      or without the attribute), the path, and `environment[configPath]`
      (`null` for an absent property). */
  function ConfigReport(current: Option<Session>, configPath: string, environment: map<string, string>): string {
    var name := if current.Some? then Attribute(current.value, NameKey) else None;
    "Session name: " + Show(name) + ConfigTail(configPath, environment)
  }

  /** The part of the config report after the name. */
  function ConfigTail(configPath: string, environment: map<string, string>): string {
    var value := if configPath in environment then Some(environment[configPath]) else None;
    ", Config URL: " + configPath + ", Config Value: " + Show(value)
  }

  /** Between a fixed prefix and a fixed suffix, the middle of a string is
      determined. */
  lemma MiddleDetermined(prefix: string, x: string, y: string, suffix: string)
    requires prefix + x + suffix == prefix + y + suffix
    ensures x == y
  {
    var s := prefix + x + suffix;
    assert |x| == |y|;
    assert s[|prefix|..|prefix| + |x|] == x;
    assert (prefix + y + suffix)[|prefix|..|prefix| + |y|] == y;
  }

  /** The report shows the session only through its "name" attribute: for
      two sessions holding a name, the reports are equal iff the names are. */
  lemma ConfigReportShowsName(a: Session, b: Session, configPath: string, environment: map<string, string>)
    requires Attribute(a, NameKey).Some? && Attribute(b, NameKey).Some?
    ensures ConfigReport(Some(a), configPath, environment) == ConfigReport(Some(b), configPath, environment)
            <==> Attribute(a, NameKey) == Attribute(b, NameKey)
  {
    var na, nb := Attribute(a, NameKey).value, Attribute(b, NameKey).value;
    var tail := ConfigTail(configPath, environment);
    assert ConfigReport(Some(a), configPath, environment) == "Session name: " + na + tail;
    assert ConfigReport(Some(b), configPath, environment) == "Session name: " + nb + tail;
    if "Session name: " + na + tail == "Session name: " + nb + tail {
      MiddleDetermined("Session name: ", na, nb, tail);
    }
  }

  /** After a login, the config report names the user. */
  lemma ConfigReportAfterLogin(current: Option<Session>, canCreate: bool, defaultInterval: int, user: string,
                               configPath: string, environment: map<string, string>)
    requires LoginOutcome(current, canCreate, defaultInterval, user).0.Some?
    requires configPath in environment
    ensures ConfigReport(LoginOutcome(current, canCreate, defaultInterval, user).0, configPath, environment)
            == "Session name: " + user + ", Config URL: " + configPath + ", Config Value: " + environment[configPath]
  {
  }

  /** After a logout, the config report shows no name. */
  lemma ConfigReportAfterLogout(current: Option<Session>, configPath: string, environment: map<string, string>)
    requires configPath !in environment
    ensures ConfigReport(LogoutOutcome(current).0, configPath, environment)
            == "Session name: null, Config URL: " + configPath + ", Config Value: null"
  {
  }

  /** What `jdbcTemplate.dataSource` is: absent, a Hikari pool with its
      (possibly unset) JDBC URL, or any other kind of pool. */
  datatype DataSource = NoDataSource | Hikari(jdbcUrl: Option<string>) | OtherDataSource

  const UnknownDataSource: string := "Unkown data source..."

  /** `testConnection()`: the fallback text exactly when the data source is
      not a Hikari pool. */
  function ConnectionReport(ds: DataSource): (r: string)
    ensures r == UnknownDataSource <==> !ds.Hikari?
    ensures ds.Hikari? ==> r == "Connection url: " + Show(ds.jdbcUrl)
  {
    match ds
    case Hikari(url) =>
      var r := "Connection url: " + Show(url);
      assert r[0] == 'C';
      r
    case _ => UnknownDataSource
  }

  // ---------------------------------------------------------------- servlet state

  /** A container-managed HTTP session object. */
  class HttpSession {
    var attributes: map<string, string>
    var maxInactiveInterval: int
    var valid: bool

    constructor(interval: int)
      ensures attributes == map[] && maxInactiveInterval == interval && valid
    {
      attributes := map[];
      maxInactiveInterval := interval;
      valid := true;
    }

    function State(): Session
      reads this
    {
      Session(attributes, maxInactiveInterval)
    }

    /** `setAttribute(key, value)`. */
    method SetAttribute(key: string, value: string)
      modifies this
      ensures attributes == old(attributes)[key := value]
      ensures maxInactiveInterval == old(maxInactiveInterval) && valid == old(valid)
    {
      attributes := attributes[key := value];
    }

    /** `invalidate()`: the session is no longer anybody's current session
        and its attributes are unbound. */
    method Invalidate()
      modifies this
      ensures !valid && attributes == map[]
      ensures maxInactiveInterval == old(maxInactiveInterval)
    {
      valid := false;
      attributes := map[];
    }
  }

  /** The servlet request, reduced to its session: the session object it is
      associated with, whether the container can create a new one, and the
      interval a new session starts with. */
  class ClientRequest {
    var session: HttpSession?
    const canCreate: bool
    const defaultInterval: int

    constructor(session: HttpSession?, canCreate: bool, defaultInterval: int)
      ensures this.session == session && this.canCreate == canCreate && this.defaultInterval == defaultInterval
    {
      this.session := session;
      this.canCreate := canCreate;
      this.defaultInterval := defaultInterval;
    }

    /** The state of the request's live session, if it has one. */
    function Current(): Option<Session>
      reads this, session
    {
      if session != null && session.valid then Some(session.State()) else None
    }

    /** `getSession(create)`: the live session, otherwise (when asked to
        and able to) a newly created one, otherwise `null`. */
    method GetSession(create: bool) returns (s: HttpSession?)
      modifies this
      ensures s == null ==> Current() == old(Current()) && session == old(session)
      ensures s != null ==> s == session && s.valid
      ensures old(Current()).Some? ==> s == old(session) && session == old(session)
      ensures old(Current()).None? ==>
        if create && canCreate then fresh(s) && s.State() == Session(map[], defaultInterval) else s == null
    {
      if session != null && session.valid {
        s := session;
      } else if create && canCreate {
        s := new HttpSession(defaultInterval);
        session := s;
      } else {
        s := null;
      }
    }
  }

  /** `LoginController`: its handlers change only the request's session. */
  class LoginController {
    constructor() {
    }

    /** `login(user)`. */
    method Login(user: string, request: ClientRequest) returns (reply: string)
      modifies request, request.session
      ensures (request.Current(), reply)
              == LoginOutcome(old(request.Current()), request.canCreate, request.defaultInterval, user)
      ensures old(request.Current()).Some? ==> request.session == old(request.session)
    {
      var s := request.GetSession(true);
      if s == null {
        reply := LoginFailed;
      } else {
        s.SetAttribute(NameKey, user);
        s.maxInactiveInterval := LoginInterval;
        reply := "Login success, user: " + Show(Attribute(s.State(), NameKey));
      }
    }

    /** `logout()`: never creates a session. */
    method Logout(request: ClientRequest) returns (reply: string)
      modifies request, request.session
      ensures (request.Current(), reply) == LogoutOutcome(old(request.Current()))
      ensures request.session == old(request.session)
      ensures old(request.Current()).None? && request.session != null ==> unchanged(request.session)
    {
      var s := request.GetSession(false);
      if s == null {
        reply := LogoutFailed;
      } else {
        var user := Show(Attribute(s.State(), NameKey));
        s.Invalidate();
        reply := "Logout success, user: " + user;
      }
    }
  }
}
