/** The login session held by the front end (clinic-frontend/src/context/AuthContext.jsx):
    the React state `user`/`token`, the last client-side navigation, and the
    operations login, logout and the effect that reloads the profile. All
    network traffic goes through `Http.Call`, so the interceptors apply. */
module Session {
  import opened Common
  import opened Http

  /** React state of the provider plus the last `navigate(...)` target. */
  datatype AuthState = AuthState(user: Option<Obj>, token: Option<string>, route: Option<string>)

  /** State at mount: the stored profile and the stored access token (an empty one reads as none). */
  function Initial(s: Storage): (a: AuthState)
    ensures a.user == s.user && a.route.None?
    ensures Truthy(s.access) <==> a.token.Some?
    ensures a.token.Some? ==> a.token == s.access
  {
    AuthState(s.user, if Truthy(s.access) then s.access else None, None)
  }

  /** The profile as the server sent it, with `role` upper-cased, or null when absent or empty. */
  function MapUserRole(data: Obj): (u: Obj)
    ensures u.Keys == data.Keys + {"role"}
    ensures forall k :: k in data && k != "role" ==> u[k] == data[k]
    ensures Truthy(Get(data, "role")) ==> u["role"] == Some(Upper(Get(data, "role").value))
    ensures !Truthy(Get(data, "role")) ==> u["role"].None?
  {
    var role := Get(data, "role");
    data["role" := if role.Some? && role.value != "" then Some(Upper(role.value)) else None]
  }

  /** Normalising a normalised profile changes nothing. */
  lemma MapUserRoleIdempotent(data: Obj)
    ensures MapUserRole(MapUserRole(data)) == MapUserRole(data)
  {
    var role := Get(data, "role");
    if Truthy(role) {
      UpperIdempotent(role.value);
    }
  }

  /** Where a fresh login sends each role. There is no entry for NURSE. */
  function LoginTarget(role: Option<string>): (path: string)
    ensures path == "/login" <==> role !in {Some("ADMIN"), Some("DOCTOR"), Some("RECEPTIONIST"), Some("PHARMACIST"), Some("LAB"), Some("PATIENT")}
  {
    match role
    case Some("ADMIN") => "/admin-dashboard"
    case Some("DOCTOR") => "/doctor-dashboard"
    case Some("RECEPTIONIST") => "/receptionist-dashboard"
    case Some("PHARMACIST") => "/pharmacist-dashboard"
    case Some("LAB") => "/lab-dashboard"
    case Some("PATIENT") => "/patient-dashboard"
    case _ => "/login"
  }

  /** A nurse who logs in is sent to the login page again. */
  lemma NurseLoginGoesToLoginPage()
    ensures LoginTarget(Some("NURSE")) == "/login"
  {
  }

  const LoginFallback: string := "Login failed. Check credentials or server connection."

  /** The message login throws: the server's `detail` when it sent one, else a fixed text. */
  function LoginError(f: Failure): (msg: string)
    ensures Truthy(f.Detail()) ==> msg == f.Detail().value
    ensures !Truthy(f.Detail()) ==> msg == LoginFallback
  {
    OrElse(f.Detail(), LoginFallback)
  }

  /** What `localStorage.setItem` stores for a JSON value: its text, or "null"/"undefined". */
  function StoredText(data: Obj, key: string): (t: string)
    ensures key in data && data[key].Some? ==> t == data[key].value
    ensures key in data && data[key].None? ==> t == "null"
    ensures key !in data ==> t == "undefined"
  {
    if key !in data then "undefined" else if data[key].None? then "null" else data[key].value
  }

  datatype LoginResult = LoginResult(browser: Browser, auth: AuthState, outcome: Result<Obj, string>)

  function Credentials(username: string, password: string): Obj {
    map["username" := Some(username), "password" := Some(password)]
  }

  /** Login: clear the store and default header, obtain tokens, store them,
      fetch the profile, normalise and store it, and navigate by role. Any
      failure is rethrown as a message; what was done before it stays done. */
  function Login(b: Browser, a: AuthState, username: string, password: string,
                 server: Request -> Reply, refresher: string -> Reply): (r: LoginResult)
    ensures r.outcome.Ok? ==> r.browser.storage.user == Some(r.outcome.value) && r.auth.user == Some(r.outcome.value)
    ensures r.outcome.Ok? ==> r.auth.route == Some(LoginTarget(Get(r.outcome.value, "role")))
    ensures r.outcome.Err? ==> r.browser.storage.user.None? && r.auth.user == a.user && r.auth.route == a.route
  {
    var b0 := b.(storage := Cleared, defaultAuth := None);
    var (b1, tr) := Call(b0, "auth/token/", Credentials(username, password), server, refresher);
    if tr.Err? then
      TokenCallKeepsUser(b0, "auth/token/", Credentials(username, password), server, refresher);
      LoginResult(b1, a, Err(LoginError(tr.error)))
    else
      var data := tr.value.data;
      var access := StoredText(data, "access");
      var a1 := a.(token := Get(data, "access"));
      var b2 := b1.(storage := b1.storage.(access := Some(access), refresh := Some(StoredText(data, "refresh"))),
                    defaultAuth := Some(Bearer(access)));
      var (b3, mr) := Call(b2, "me/", map[], server, refresher);
      if mr.Err? then
        TokenCallKeepsUser(b2, "me/", map[], server, refresher);
        TokenCallKeepsUser(b0, "auth/token/", Credentials(username, password), server, refresher);
        LoginResult(b3, a1, Err(LoginError(mr.error)))
      else
        var u := MapUserRole(mr.value.data);
        LoginResult(b3.(storage := b3.storage.(user := Some(u))),
                    a1.(user := Some(u), route := Some(LoginTarget(Get(u, "role")))),
                    Ok(u))
  }

  /** The role a login returns is already in upper case (or null). */
  lemma LoginRoleIsNormalised(b: Browser, a: AuthState, username: string, password: string,
                              server: Request -> Reply, refresher: string -> Reply)
    ensures var r := Login(b, a, username, password, server, refresher);
      r.outcome.Ok? ==> var role := Get(r.outcome.value, "role");
        role.None? || (role.value != "" && Upper(role.value) == role.value)
  {
    var r := Login(b, a, username, password, server, refresher);
    if r.outcome.Ok? {
      var u := r.outcome.value;
      assert exists d: Obj :: u == MapUserRole(d);
      var d: Obj :| u == MapUserRole(d);
      if Truthy(Get(d, "role")) {
        UpperIdempotent(Get(d, "role").value);
      }
    }
  }

  /** A call never writes the stored profile: it keeps it or clears the store. */
  lemma TokenCallKeepsUser(b: Browser, path: string, body: Obj, server: Request -> Reply, refresher: string -> Reply)
    ensures var (b', _) := Call(b, path, body, server, refresher);
      b'.storage.user == b.storage.user || b'.storage.user.None?
  {
    CallOutcomes(b, path, body, server, refresher);
  }

  /** Whatever an earlier session left in the store or the default header has
      no influence on a login: the result depends only on the credentials,
      the server and the starting React state. */
  lemma LoginIgnoresEarlierSession(b1: Browser, b2: Browser, a: AuthState, username: string, password: string,
                                   server: Request -> Reply, refresher: string -> Reply)
    requires b1.location == b2.location
    ensures Login(b1, a, username, password, server, refresher) == Login(b2, a, username, password, server, refresher)
  {
    assert b1.(storage := Cleared, defaultAuth := None) == b2.(storage := Cleared, defaultAuth := None);
  }

  /** The token request login sends carries no Authorization header, whatever
      the browser held before: a plain failure of the anonymous request is
      exactly what the login reports, and the store is left empty. */
  lemma TokenRequestIsAnonymous(b: Browser, a: AuthState, username: string, password: string,
                                server: Request -> Reply, refresher: string -> Reply)
    requires var tok := server(Request("auth/token/", Credentials(username, password), None));
      !tok.Ok() && !(tok.Response? && tok.status == 401)
    ensures var tok := server(Request("auth/token/", Credentials(username, password), None));
      var r := Login(b, a, username, password, server, refresher);
      && r.outcome == Err(LoginError(HttpFailure(tok)))
      && r.browser == b.(storage := Cleared, defaultAuth := None)
      && r.auth == a
  {
  }

  /** Wrong credentials (the token endpoint answers 401) reach the refresh
      handling with an empty store, so the client forces a reload of the
      login page on top of the error message. */
  lemma BadCredentialsReloadLoginPage(b: Browser, a: AuthState, username: string, password: string,
                                      server: Request -> Reply, refresher: string -> Reply)
    requires server(Request("auth/token/", Credentials(username, password), None)).Response?
    requires server(Request("auth/token/", Credentials(username, password), None)).status == 401
    ensures var r := Login(b, a, username, password, server, refresher);
      && r.browser == ForcedLogout(b)
      && r.outcome == Err(LoginError(HttpFailure(server(Request("auth/token/", Credentials(username, password), None)))))
      && r.auth == a
  {
  }

  /** When the token and profile requests both succeed, the store holds
      exactly the returned tokens and the normalised profile, the default
      header is the new access token, and the login resolves to that profile
      and navigates by its role. */
  lemma LoginSucceeds(b: Browser, a: AuthState, username: string, password: string,
                      server: Request -> Reply, refresher: string -> Reply)
    requires server(Request("auth/token/", Credentials(username, password), None)).Ok()
    requires var tok := server(Request("auth/token/", Credentials(username, password), None));
      server(Request("me/", map[], OutgoingAuth(Storage(Some(StoredText(tok.data, "access")), None, None)))).Ok()
    ensures var tok := server(Request("auth/token/", Credentials(username, password), None));
      var access := StoredText(tok.data, "access");
      var me := server(Request("me/", map[], OutgoingAuth(Storage(Some(access), None, None))));
      var u := MapUserRole(me.data);
      var r := Login(b, a, username, password, server, refresher);
      && r.outcome == Ok(u)
      && r.browser.storage == Storage(Some(access), Some(StoredText(tok.data, "refresh")), Some(u))
      && r.browser.defaultAuth == Some(Bearer(access))
      && r.browser.location == b.location
      && r.auth == AuthState(Some(u), Get(tok.data, "access"), Some(LoginTarget(Get(u, "role"))))
  {
  }

  /** When the profile request fails without the interceptor throwing the
      user out (any status but 401), the new tokens stay stored and the token
      state is set, but no user is. */
  lemma ProfileFailureKeepsTokens(b: Browser, a: AuthState, username: string, password: string,
                                  server: Request -> Reply, refresher: string -> Reply)
    requires var tok := server(Request("auth/token/", Credentials(username, password), None)); tok.Ok()
    requires var tok := server(Request("auth/token/", Credentials(username, password), None));
      var access := StoredText(tok.data, "access");
      var me := server(Request("me/", map[], OutgoingAuth(Storage(Some(access), None, None))));
      !me.Ok() && !(me.Response? && me.status == 401)
    ensures var tok := server(Request("auth/token/", Credentials(username, password), None));
      var r := Login(b, a, username, password, server, refresher);
      && r.outcome.Err?
      && r.browser.storage == Storage(Some(StoredText(tok.data, "access")), Some(StoredText(tok.data, "refresh")), None)
      && r.auth == a.(token := Get(tok.data, "access"))
  {
  }

  /** Logout: empty state, empty store, navigate to the login page. The
      client's default header is left as it was. */
  function Logout(b: Browser, a: AuthState): (r: (Browser, AuthState))
    ensures r.0.storage == Cleared && r.0.defaultAuth == b.defaultAuth && r.0.location == b.location
    ensures r.1 == AuthState(None, None, Some("/login"))
  {
    (b.(storage := Cleared), AuthState(None, None, Some("/login")))
  }

  /** Logging out twice is logging out once. */
  lemma LogoutIdempotent(b: Browser, a: AuthState)
    ensures var (b1, a1) := Logout(b, a); Logout(b1, a1) == (b1, a1)
  {
  }

  /** The default header logout leaves behind is never sent: the request
      interceptor derives the header from the (now empty) store. */
  lemma StaleHeaderNeverSent(b: Browser, a: AuthState)
    ensures OutgoingAuth(Logout(b, a).0.storage).None?
  {
  }

  /** The effect that runs when `token` or `user` changes: with a token and no
      user it fetches the profile and stores it, or logs out on any failure. */
  function AutoLoad(b: Browser, a: AuthState, server: Request -> Reply, refresher: string -> Reply): (r: (Browser, AuthState))
    ensures !(Truthy(a.token) && a.user.None?) ==> r == (b, a)
    ensures Truthy(a.token) && a.user.None? ==> r.1.user.Some? || r.1 == AuthState(None, None, Some("/login"))
    ensures a.user.None? && r.1.user.Some? ==> r.0.storage.user == r.1.user
    ensures Truthy(a.token) && a.user.None? ==>
      var (b1, mr) := Call(b, "me/", map[], server, refresher);
      && (mr.Ok? ==> r == (b1.(storage := b1.storage.(user := Some(MapUserRole(mr.value.data)))),
                           a.(user := Some(MapUserRole(mr.value.data)))))
      && (mr.Err? ==> r.1 == AuthState(None, None, Some("/login")) && r.0.storage == Cleared)
  {
    if a.token.Some? && a.token.value != "" && a.user.None? then
      var (b1, mr) := Call(b, "me/", map[], server, refresher);
      if mr.Err? then Logout(b1, a)
      else
        var u := MapUserRole(mr.value.data);
        (b1.(storage := b1.storage.(user := Some(u))), a.(user := Some(u)))
    else (b, a)
  }

  /** With a token and no user, a profile request answered at once loads the
      normalised profile into the state and the store and changes nothing else. */
  lemma AutoLoadLoadsProfile(b: Browser, a: AuthState, server: Request -> Reply, refresher: string -> Reply)
    requires Truthy(a.token) && a.user.None?
    requires server(Request("me/", map[], OutgoingAuth(b.storage))).Ok()
    ensures var u := MapUserRole(server(Request("me/", map[], OutgoingAuth(b.storage))).data);
      AutoLoad(b, a, server, refresher) == (b.(storage := b.storage.(user := Some(u))), a.(user := Some(u)))
  {
  }

  /** With a token and no user, a profile request that fails outright (any
      status but 401, or no response) logs the user out: empty state and
      store, navigation to the login page, default header kept. */
  lemma AutoLoadLogsOutOnFailure(b: Browser, a: AuthState, server: Request -> Reply, refresher: string -> Reply)
    requires Truthy(a.token) && a.user.None?
    requires var me := server(Request("me/", map[], OutgoingAuth(b.storage)));
      !me.Ok() && !(me.Response? && me.status == 401)
    ensures AutoLoad(b, a, server, refresher) == (b.(storage := Cleared), AuthState(None, None, Some("/login")))
  {
  }

  /** The effect settles after one run: running it again does nothing. */
  lemma AutoLoadSettles(b: Browser, a: AuthState, server: Request -> Reply, refresher: string -> Reply)
    ensures var (b1, a1) := AutoLoad(b, a, server, refresher);
      AutoLoad(b1, a1, server, refresher) == (b1, a1)
  {
  }
}
