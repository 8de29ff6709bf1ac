/** The browser's HTTP client (clinic-frontend/src/api/axios.js): a request
    interceptor that attaches the stored access token, and a response
    interceptor that, on a first 401, trades the stored refresh token for a
    new access token and re-issues the request once.

    The network is a parameter: `server` answers a dispatched request and
    `refresher` answers the token-refresh call, which goes through the bare
    client and so never reaches the interceptors. The browser's persistent
    store, the client's default Authorization header and a pending hard
    navigation are one immutable `Browser` record. */
module Http {
  import opened Common

  /** A JSON object whose values are strings or null; an absent key reads as `undefined`. */
  type Obj = map<string, Option<string>>

  /** `obj.key` with `undefined` and `null` both read as `None`. */
  function Get(o: Obj, key: string): (r: Option<string>)
    ensures key !in o ==> r.None?
    ensures key in o ==> r == o[key]
  {
    if key in o then o[key] else None
  }

  /** The keys of the persistent store the application uses. */
  datatype Storage = Storage(access: Option<string>, refresh: Option<string>, user: Option<Obj>)

  /** The store after `localStorage.clear()`. */
  const Cleared: Storage := Storage(None, None, None)

  datatype Browser = Browser(
    storage: Storage,
    defaultAuth: Option<string>,   // the client's default Authorization header
    location: Option<string>)      // a hard navigation (`window.location.href = ...`), if one was made

  /** A dispatched request: the endpoint, its body and the Authorization header it carries. */
  datatype Request = Request(path: string, body: Obj, auth: Option<string>)

  /** What the network gives back: a response, or nothing at all. */
  datatype Reply = Response(status: nat, data: Obj) | NoResponse {
    /** The client resolves exactly the 2xx responses. */
    predicate Ok() {
      Response? && 200 <= status < 300
    }
  }

  /** Why a call was rejected: a reply that was not a success, or the error the
      interceptor throws itself when a refresh answer carries no access token. */
  datatype Failure = HttpFailure(reply: Reply) | MissingAccess {
    /** `err.response?.data?.detail`. */
    function Detail(): Option<string> {
      if HttpFailure? && reply.Response? then Get(reply.data, "detail") else None
    }
  }

  function Bearer(token: string): string {
    "Bearer " + token
  }

  /** The request interceptor: the header every outgoing request carries is
      derived from the stored access token alone (it replaces whatever the
      default or the caller set), and is removed when there is none. */
  function OutgoingAuth(s: Storage): (h: Option<string>)
    ensures Truthy(s.access) ==> h == Some(Bearer(s.access.value))
    ensures !Truthy(s.access) ==> h.None?
  {
    if s.access.Some? && s.access.value != "" then Some(Bearer(s.access.value)) else None
  }

  /** What every unrecoverable authentication failure leaves behind: an empty
      store, no default header and a hard navigation to the login page. */
  function ForcedLogout(b: Browser): (b': Browser)
    ensures b'.storage == Cleared && b'.defaultAuth.None? && b'.location == Some("/login")
  {
    Browser(Cleared, None, Some("/login"))
  }

  /** What the response interceptor decides about one reply. */
  datatype Decision =
    | Settle(browser: Browser, result: Result<Reply, Failure>, refreshed: bool)
    | Reissue(browser: Browser)

  /** The response interceptor for a reply to a request whose retry flag is
      `retry`. Only a first 401 is handled: with no refresh token the user is
      logged out and the original error rejected; a refresh that fails or has
      no access token logs out and rejects with the refresh's own error; a
      good one stores the new token, sets it as default header and re-issues
      the request. */
  function Intercept(b: Browser, reply: Reply, retry: bool, refresher: string -> Reply): (d: Decision)
    ensures reply.Ok() ==> d == Settle(b, Ok(reply), false)
    ensures !reply.Ok() && !(reply.Response? && reply.status == 401) ==> d == Settle(b, Err(HttpFailure(reply)), false)
    ensures retry && !reply.Ok() ==> d == Settle(b, Err(HttpFailure(reply)), false)
    ensures d.Reissue? ==> !retry && reply == Response(401, reply.data) && Truthy(b.storage.refresh)
    ensures d.Reissue? ==> var rr := refresher(b.storage.refresh.value);
      rr.Ok() && (var t := Get(rr.data, "access");
      Truthy(t) && d.browser == b.(storage := b.storage.(access := t), defaultAuth := Some(Bearer(t.value))))
    ensures d.Settle? && d.result.Err? && d.browser != b ==> d.browser == ForcedLogout(b)
    ensures !retry && reply.Response? && reply.status == 401 && !Truthy(b.storage.refresh) ==>
      d == Settle(ForcedLogout(b), Err(HttpFailure(reply)), false)
    ensures !retry && reply.Response? && reply.status == 401 && Truthy(b.storage.refresh) ==>
      var rr := refresher(b.storage.refresh.value);
      if !rr.Ok() then d == Settle(ForcedLogout(b), Err(HttpFailure(rr)), true)
      else
        var t := Get(rr.data, "access");
        && (!Truthy(t) ==> d == Settle(ForcedLogout(b), Err(MissingAccess), true))
        && (Truthy(t) ==> d == Reissue(b.(storage := b.storage.(access := t), defaultAuth := Some(Bearer(t.value)))))
  {
    if reply.Ok() then Settle(b, Ok(reply), false)
    else if reply.Response? && reply.status == 401 && !retry then
      var rt := b.storage.refresh;
      if !Truthy(rt) then Settle(ForcedLogout(b), Err(HttpFailure(reply)), false)
      else
        var rr := refresher(rt.value);
        if !rr.Ok() then Settle(ForcedLogout(b), Err(HttpFailure(rr)), true)
        else
          var t := Get(rr.data, "access");
          if !Truthy(t) then Settle(ForcedLogout(b), Err(MissingAccess), true)
          else Reissue(b.(storage := b.storage.(access := t), defaultAuth := Some(Bearer(t.value))))
    else Settle(b, Err(HttpFailure(reply)), false)
  }

  /** Reference semantics of one call: dispatch, let the interceptor decide, and
      dispatch again (flagged as a retry) when it says so. */
  function Attempt(b: Browser, path: string, body: Obj, retry: bool, server: Request -> Reply, refresher: string -> Reply): (Browser, Result<Reply, Failure>)
    decreases if retry then 0 else 1
  {
    var reply := server(Request(path, body, OutgoingAuth(b.storage)));
    match Intercept(b, reply, retry, refresher)
    case Settle(b', r, _) => (b', r)
    case Reissue(b') => Attempt(b', path, body, true, server, refresher)
  }

  function Call(b: Browser, path: string, body: Obj, server: Request -> Reply, refresher: string -> Reply): (Browser, Result<Reply, Failure>) {
    Attempt(b, path, body, false, server, refresher)
  }

  /** A call as the client runs it: a loop of dispatches driven by the
      interceptor. It agrees with `Call`, dispatches at most twice and
      refreshes at most once, and a second dispatch always follows a refresh. */
  method Send(b: Browser, path: string, body: Obj, server: Request -> Reply, refresher: string -> Reply)
    returns (b': Browser, r: Result<Reply, Failure>, dispatches: nat, refreshes: nat)
    ensures (b', r) == Call(b, path, body, server, refresher)
    ensures 1 <= dispatches <= 2 && refreshes <= 1
    ensures dispatches == 2 ==> refreshes == 1
  {
    var retry := false;
    var pending := true;
    b', r := b, Err(MissingAccess);
    dispatches, refreshes := 0, 0;
    while pending
      invariant pending ==> Attempt(b', path, body, retry, server, refresher) == Call(b, path, body, server, refresher)
      invariant !pending ==> (b', r) == Call(b, path, body, server, refresher)
      invariant pending && !retry ==> dispatches == 0 && refreshes == 0
      invariant retry ==> dispatches >= 1 && refreshes == 1
      invariant pending && retry ==> dispatches == 1
      invariant !pending ==> 1 <= dispatches <= 2 && refreshes <= 1 && (dispatches == 2 ==> refreshes == 1)
      decreases (if pending then 1 else 0) + (if retry then 0 else 1)
    {
      var reply := server(Request(path, body, OutgoingAuth(b'.storage)));
      dispatches := dispatches + 1;
      var d := Intercept(b', reply, retry, refresher);
      match d
      case Settle(b2, res, refreshed) =>
        b', r := b2, res;
        if refreshed { refreshes := refreshes + 1; }
        pending := false;
      case Reissue(b2) =>
        b' := b2;
        retry := true;
        refreshes := refreshes + 1;
    }
  }

  /** A call either leaves the browser as it was (no 401 was handled), or
      ends with the forced logout and a rejection, or refreshed the token and
      re-issued the request once. */
  lemma CallOutcomes(b: Browser, path: string, body: Obj, server: Request -> Reply, refresher: string -> Reply)
    ensures var (b', r) := Call(b, path, body, server, refresher);
      || b' == b
      || (b' == ForcedLogout(b) && r.Err?)
      || (Truthy(b.storage.refresh) && Truthy(b'.storage.access)
          && b' == b.(storage := b.storage.(access := b'.storage.access), defaultAuth := Some(Bearer(b'.storage.access.value)))
          && b'.location == b.location)
  {
    var reply := server(Request(path, body, OutgoingAuth(b.storage)));
    match Intercept(b, reply, false, refresher)
    case Settle(_, _, _) =>
    case Reissue(b1) =>
      var reply2 := server(Request(path, body, OutgoingAuth(b1.storage)));
      var d2 := Intercept(b1, reply2, true, refresher);
      assert d2.Settle? && d2.browser == b1;
  }

  /** A first 401 whose refresh fails, or answers without an access token,
      ends the call with the forced logout and the refresh's own error; the
      original request is not sent again. */
  lemma FailedRefreshLogsOut(b: Browser, path: string, body: Obj, server: Request -> Reply, refresher: string -> Reply)
    requires var first := server(Request(path, body, OutgoingAuth(b.storage))); first.Response? && first.status == 401
    requires Truthy(b.storage.refresh)
    ensures var rr := refresher(b.storage.refresh.value);
      !rr.Ok() ==> Call(b, path, body, server, refresher) == (ForcedLogout(b), Err(HttpFailure(rr)))
    ensures var rr := refresher(b.storage.refresh.value);
      rr.Ok() && !Truthy(Get(rr.data, "access")) ==> Call(b, path, body, server, refresher) == (ForcedLogout(b), Err(MissingAccess))
  {
  }

  /** A first 401 whose refresh yields an access token stores it, makes it the
      default header and ends with whatever the re-issued request (carrying
      that token) is answered, which is never refreshed again. */
  lemma GoodRefreshReissues(b: Browser, path: string, body: Obj, server: Request -> Reply, refresher: string -> Reply)
    requires var first := server(Request(path, body, OutgoingAuth(b.storage))); first.Response? && first.status == 401
    requires Truthy(b.storage.refresh)
    requires refresher(b.storage.refresh.value).Ok()
    requires Truthy(Get(refresher(b.storage.refresh.value).data, "access"))
    ensures var t := Get(refresher(b.storage.refresh.value).data, "access").value;
      var b1 := b.(storage := b.storage.(access := Some(t)), defaultAuth := Some(Bearer(t)));
      var second := server(Request(path, body, Some(Bearer(t))));
      Call(b, path, body, server, refresher) == (b1, if second.Ok() then Ok(second) else Err(HttpFailure(second)))
  {
  }

  /** A re-issued request that fails, even with a second 401, is simply
      rejected: the refreshed token stays stored, no logout happens and there
      is no navigation to the login page. */
  lemma RetryFailureKeepsSession(b: Browser, path: string, body: Obj, server: Request -> Reply, refresher: string -> Reply)
    requires b.location.None?
    requires var first := server(Request(path, body, OutgoingAuth(b.storage))); first.Response? && first.status == 401
    requires Truthy(b.storage.refresh)
    requires refresher(b.storage.refresh.value).Ok()
    requires Truthy(Get(refresher(b.storage.refresh.value).data, "access"))
    requires !server(Request(path, body, Some(Bearer(Get(refresher(b.storage.refresh.value).data, "access").value)))).Ok()
    ensures var t := Get(refresher(b.storage.refresh.value).data, "access");
      var (b', r) := Call(b, path, body, server, refresher);
      && r.Err?
      && b'.storage == b.storage.(access := t)
      && b'.location.None?
  {
    GoodRefreshReissues(b, path, body, server, refresher);
  }

  /** Whenever the user is thrown out (the hard navigation to the login page
      appears), the call was rejected and the store is empty. */
  lemma LogoutOnlyOnRejection(b: Browser, path: string, body: Obj, server: Request -> Reply, refresher: string -> Reply)
    requires b.location.None?
    ensures var (b', r) := Call(b, path, body, server, refresher);
      b'.location.Some? ==> b'.location == Some("/login") && r.Err? && b'.storage == Cleared && b'.defaultAuth.None?
  {
    CallOutcomes(b, path, body, server, refresher);
  }

  /** A successful first reply is passed through and nothing changes. */
  lemma SuccessPassesThrough(b: Browser, path: string, body: Obj, server: Request -> Reply, refresher: string -> Reply)
    requires server(Request(path, body, OutgoingAuth(b.storage))).Ok()
    ensures Call(b, path, body, server, refresher) == (b, Ok(server(Request(path, body, OutgoingAuth(b.storage)))))
  {
  }

  /** After a good refresh the re-issued request carries the new token. */
  lemma RetryCarriesNewToken(b: Browser, reply: Reply, refresher: string -> Reply)
    requires Intercept(b, reply, false, refresher).Reissue?
    ensures var b' := Intercept(b, reply, false, refresher).browser;
      OutgoingAuth(b'.storage) == b'.defaultAuth && b'.storage.refresh == b.storage.refresh
  {
  }
}
