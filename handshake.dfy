/** The sign-in handshake of `sisAPI._getToken` (sisAPI.py:45-94): an OAuth
    2.0 implicit-grant authorisation request (RFC 6749, section 4.2), bridged
    through a SAML 2.0 identity provider with the HTTP-POST binding, in four
    hops. Each hop's status is checked before the next request is built;
    the token is cut out of the last hop's final URL.

    The source calls `_assureSuccess(r)` without `self.` (sisAPI.py:59, 72,
    80, 90), so as written the first check raises NameError. `Handshake`
    and `GetToken` model the evidently intended code, with the check as
    `self._assureSuccess`; `GetTokenAsWritten` models the code as written. */
module Auth {
  import opened Wrappers
  import opened Http
  import opened Extractors

  const AuthorizeEndpoint := "https://auth-app-ruprd-ruprd.xpaas.caci.nl/oauth2/authorize"
  const AuthorizeQuery :=
    "?response_type=token&client_id=osiris-student-mobile-ruprd&redirect_uri=https://ru.osiris-student.nl"
  const LoginEndpoint := "https://conext.authenticatie.ru.nl/simplesaml/module.php/core/loginuserpass.php?"
  const ConsumeEndpoint := "https://engine.surfconext.nl/authentication/sp/consume-assertion"

  /** Why a handshake produced no token: `send` raised at a hop, a hop's
      status was not 200 (`SignInError`), or, in the code as written, the
      name `_assureSuccess` was not defined (NameError). */
  datatype HopError = Unreachable(hop: nat) | Rejected(hop: nat, status: int) | UndefinedName(hop: nat)

  /** The requests a handshake sent, in order, and what it returned. */
  datatype Run = Run(sent: seq<Request>, outcome: Result<string, HopError>)

  /** `_assureSuccess` (sisAPI.py:38-43): only status 200 passes. */
  function AssureSuccess(hop: nat, r: Response): (o: Result<Response, HopError>)
    ensures o.Success? <==> r.status == 200
    ensures o.Success? ==> o.value == r
    ensures o.Failure? ==> o.error == Rejected(hop, r.status)
  {
    if r.status != 200 then Failure(Rejected(hop, r.status)) else Success(r)
  }

  /** Any other 2xx status is a failure too. */
  lemma OtherSuccessCodesRejected(hop: nat, r: Response)
    requires 200 < r.status < 300
    ensures AssureSuccess(hop, r) == Failure(Rejected(hop, r.status))
  {
  }

  /** Sending one hop's request and checking its status. */
  function Exchange(serve: Network, hop: nat, q: Request): (o: Result<Response, HopError>)
    ensures o.Success? <==> Passed(serve, q)
    ensures o.Success? ==> Some(o.value) == serve(q)
    ensures o.Failure? ==> o.error.hop == hop
    ensures o.Failure? ==> (o.error.Rejected? <==> serve(q).Some?)
    ensures o.Failure? && o.error.Rejected? ==> o.error.status == serve(q).value.status
  {
    match serve(q)
    case None => Failure(Unreachable(hop))
    case Some(r) => AssureSuccess(hop, r)
  }

  /** The request was answered with status 200. */
  predicate Passed(serve: Network, q: Request)
  {
    serve(q).Some? && serve(q).value.status == 200
  }

  /** Hop 1: the OAuth 2.0 authorisation request (sisAPI.py:57). */
  function AuthorizeRequest(): Request
  {
    Request(GET, AuthorizeEndpoint + AuthorizeQuery, map[], NoBody, map[], map[])
  }

  /** The query parameters of hop 2 (sisAPI.py:68). */
  function LoginParams(username: string, password: string, authState: string): (p: map<string, string>)
    ensures p.Keys == {"username", "password", "submit", "AuthState"}
  {
    map["username" := username, "password" := password, "submit" := "Login", "AuthState" := authState]
  }

  /** Hop 2: the credentials posted to the identity provider, with the
      percent-decoded AuthState of hop 1's final URL and hop 1's cookies
      (sisAPI.py:61-70). */
  function LoginRequest(username: string, password: string, r1: Response, unquote: string -> string): Request
  {
    Request(POST, LoginEndpoint, LoginParams(username, password, unquote(AuthStateValue(r1.url))),
            NoBody, map[], Present(r1.cookies))
  }

  /** Hop 3: the SAML response of hop 2 posted to the federation engine,
      with only the session's `main` and `HTTPSERVERID` cookies
      (sisAPI.py:74-78). */
  function ConsumeRequest(r2: Response, jar: map<string, string>): Request
  {
    Request(POST, ConsumeEndpoint, map[], Form(map["SAMLResponse" := SamlResponseValue(r2.body)]), map[],
            map["main" := Get(jar, "main"), "HTTPSERVERID" := Get(jar, "HTTPSERVERID")])
  }

  /** Hop 4: the new SAML response and the relay state of hop 3 posted
      back to the authorisation endpoint, without cookies (sisAPI.py:82-88). */
  function TokenRequest(r3: Response): Request
  {
    Request(POST, AuthorizeEndpoint, map[],
            Form(map["SAMLResponse" := SamlResponseValue(r3.body), "RelayState" := RelayStateValue(r3.body)]),
            map[], map[])
  }

  /** The intended `_getToken`: every hop's response is checked before the
      next request is built; the session's cookie jar absorbs each
      response's cookies, later ones replacing earlier ones. */
  function Handshake(username: string, password: string, serve: Network, unquote: string -> string): Run
  {
    var q1 := AuthorizeRequest();
    match Exchange(serve, 1, q1)
    case Failure(e) => Run([q1], Failure(e))
    case Success(r1) => Then(q1, AfterAuthorize(username, password, serve, unquote, r1))
  }

  /** A run that first sent q. */
  function Then(q: Request, rest: Run): Run
  {
    Run([q] + rest.sent, rest.outcome)
  }

  /** Hops 2 to 4, once hop 1 passed with response r1. */
  function AfterAuthorize(username: string, password: string, serve: Network, unquote: string -> string,
                          r1: Response): Run
  {
    var q2 := LoginRequest(username, password, r1, unquote);
    match Exchange(serve, 2, q2)
    case Failure(e) => Run([q2], Failure(e))
    case Success(r2) => Then(q2, AfterLogin(serve, r1.cookies + r2.cookies, r2))
  }

  /** Hops 3 and 4, once hop 2 passed with response r2; `jar` is the
      session's cookie jar by then. */
  function AfterLogin(serve: Network, jar: map<string, string>, r2: Response): Run
  {
    var q3 := ConsumeRequest(r2, jar);
    match Exchange(serve, 3, q3)
    case Failure(e) => Run([q3], Failure(e))
    case Success(r3) => Then(q3, AfterConsume(serve, r3))
  }

  /** Hop 4, once hop 3 passed with response r3. */
  function AfterConsume(serve: Network, r3: Response): Run
  {
    var q4 := TokenRequest(r3);
    match Exchange(serve, 4, q4)
    case Failure(e) => Run([q4], Failure(e))
    case Success(r4) => Run([q4], Success(AccessTokenValue(r4.url)))
  }

  /** Sending q and then the rest is sending the rest after q. */
  lemma ThenAfter(sent: seq<Request>, q: Request, rest: Run)
    ensures Run(sent + Then(q, rest).sent, Then(q, rest).outcome) == Run((sent + [q]) + rest.sent, rest.outcome)
  {
    assert sent + ([q] + rest.sent) == (sent + [q]) + rest.sent;
  }

  /** `_getToken` step by step, as the source runs it: one request per hop,
      a session cookie jar that grows with every response, and a return
      as soon as a hop fails. */
  method GetToken(username: string, password: string, serve: Network, unquote: string -> string)
    returns (token: Result<string, HopError>, sent: seq<Request>)
    ensures Run(sent, token) == Handshake(username, password, serve, unquote)
  {
    var jar: map<string, string> := map[];

    var req := AuthorizeRequest();
    var r := Exchange(serve, 1, req);
    sent := [req];
    if r.Failure? {
      return Failure(r.error), sent;
    }
    var r1 := r.value;
    jar := jar + r1.cookies;
    ghost var rest := AfterAuthorize(username, password, serve, unquote, r1);
    assert Handshake(username, password, serve, unquote) == Run(sent + rest.sent, rest.outcome);

    req := LoginRequest(username, password, r1, unquote);
    r := Exchange(serve, 2, req);
    if r.Failure? {
      sent := sent + [req];
      return Failure(r.error), sent;
    }
    var r2 := r.value;
    jar := jar + r2.cookies;
    assert jar == r1.cookies + r2.cookies;
    ThenAfter(sent, req, AfterLogin(serve, jar, r2));
    sent := sent + [req];
    rest := AfterLogin(serve, jar, r2);
    assert Handshake(username, password, serve, unquote) == Run(sent + rest.sent, rest.outcome);

    req := ConsumeRequest(r2, jar);
    r := Exchange(serve, 3, req);
    if r.Failure? {
      sent := sent + [req];
      return Failure(r.error), sent;
    }
    var r3 := r.value;
    ThenAfter(sent, req, AfterConsume(serve, r3));
    sent := sent + [req];
    rest := AfterConsume(serve, r3);
    assert Handshake(username, password, serve, unquote) == Run(sent + rest.sent, rest.outcome);

    req := TokenRequest(r3);
    r := Exchange(serve, 4, req);
    sent := sent + [req];
    if r.Failure? {
      return Failure(r.error), sent;
    }
    token := Success(AccessTokenValue(r.value.url));
  }

  /** What a run that starts at hop `first` promises: every request but
      the last passed; the run succeeded exactly when it reached hop 4 and
      that hop passed, with the token cut from hop 4's final URL; a failure
      names the hop of the last request, which did not pass. */
  ghost predicate InOrder(serve: Network, run: Run, first: nat)
  {
    var n := |run.sent|;
    && 1 <= first && 1 <= n && first + n - 1 <= 4
    && (forall k :: 0 <= k < n - 1 ==> Passed(serve, run.sent[k]))
    && (run.outcome.Success? <==> first + n - 1 == 4 && Passed(serve, run.sent[n - 1]))
    && (run.outcome.Success? ==> run.outcome.value == AccessTokenValue(serve(run.sent[n - 1]).value.url))
    && (run.outcome.Failure? ==>
          && run.outcome.error.hop == first + n - 1
          && !Passed(serve, run.sent[n - 1])
          && (run.outcome.error.Rejected? <==> serve(run.sent[n - 1]).Some?)
          && (run.outcome.error.Rejected? ==> run.outcome.error.status == serve(run.sent[n - 1]).value.status))
  }

  /** A request that passed, followed by an orderly run from the next hop. */
  lemma {:induction false} ThenInOrder(serve: Network, q: Request, rest: Run, first: nat)
    requires 1 <= first && Passed(serve, q) && InOrder(serve, rest, first + 1)
    ensures InOrder(serve, Then(q, rest), first)
  {
    var run := Then(q, rest);
    assert forall k :: 0 < k < |run.sent| ==> run.sent[k] == rest.sent[k - 1];
  }

  /** A run made of one request that failed at its hop. */
  lemma FailedHopInOrder(serve: Network, hop: nat, q: Request)
    requires 1 <= hop <= 4 && Exchange(serve, hop, q).Failure?
    ensures InOrder(serve, Run([q], Failure(Exchange(serve, hop, q).error)), hop)
  {
  }

  lemma {:induction false} HandshakeInOrder(username: string, password: string, serve: Network, unquote: string -> string)
    ensures InOrder(serve, Handshake(username, password, serve, unquote), 1)
  {
    var q1 := AuthorizeRequest();
    if Exchange(serve, 1, q1).Failure? {
      FailedHopInOrder(serve, 1, q1);
      return;
    }
    var r1 := Exchange(serve, 1, q1).value;
    var q2 := LoginRequest(username, password, r1, unquote);
    if Exchange(serve, 2, q2).Failure? {
      FailedHopInOrder(serve, 2, q2);
    } else {
      var r2 := Exchange(serve, 2, q2).value;
      var q3 := ConsumeRequest(r2, r1.cookies + r2.cookies);
      if Exchange(serve, 3, q3).Failure? {
        FailedHopInOrder(serve, 3, q3);
      } else {
        var r3 := Exchange(serve, 3, q3).value;
        var q4 := TokenRequest(r3);
        if Exchange(serve, 4, q4).Failure? {
          FailedHopInOrder(serve, 4, q4);
        }
        ThenInOrder(serve, q3, AfterConsume(serve, r3), 3);
      }
      ThenInOrder(serve, q2, AfterLogin(serve, r1.cookies + r2.cookies, r2), 2);
    }
    ThenInOrder(serve, q1, AfterAuthorize(username, password, serve, unquote, r1), 1);
  }

  /** Each request of a handshake is built from the responses before it:
      the fixed authorisation GET, the login built from hop 1's response,
      the assertion post built from hop 2's response and the session's
      cookies, the token request built from hop 3's response. */
  lemma {:induction false} TraceShape(username: string, password: string, serve: Network, unquote: string -> string)
    ensures var run := Handshake(username, password, serve, unquote);
      && 1 <= |run.sent| <= 4
      && run.sent[0] == AuthorizeRequest()
      && (|run.sent| >= 2 ==> run.sent[1] == LoginRequest(username, password, serve(run.sent[0]).value, unquote))
      && (|run.sent| >= 3 ==>
            var r1 := serve(run.sent[0]).value;
            var r2 := serve(run.sent[1]).value;
            run.sent[2] == ConsumeRequest(r2, r1.cookies + r2.cookies))
      && (|run.sent| == 4 ==> run.sent[3] == TokenRequest(serve(run.sent[2]).value))
  {
    var q1 := AuthorizeRequest();
    var o := Exchange(serve, 1, q1);
    if o.Success? {
      var r1 := o.value;
      assert Handshake(username, password, serve, unquote) == Then(q1, AfterAuthorize(username, password, serve, unquote, r1));
      AfterAuthorizeShape(username, password, serve, unquote, r1);
    } else {
      assert Handshake(username, password, serve, unquote).sent == [q1];
    }
  }

  lemma AfterConsumeShape(serve: Network, r3: Response)
    ensures AfterConsume(serve, r3).sent == [TokenRequest(r3)]
  {
  }

  lemma {:induction false} AfterLoginShape(serve: Network, jar: map<string, string>, r2: Response)
    ensures var sent := AfterLogin(serve, jar, r2).sent;
      && 1 <= |sent| <= 2
      && sent[0] == ConsumeRequest(r2, jar)
      && (|sent| == 2 ==> Passed(serve, sent[0]) && sent[1] == TokenRequest(serve(sent[0]).value))
  {
    var q3 := ConsumeRequest(r2, jar);
    var o := Exchange(serve, 3, q3);
    if o.Success? {
      var r3 := o.value;
      assert AfterLogin(serve, jar, r2) == Then(q3, AfterConsume(serve, r3));
      AfterConsumeShape(serve, r3);
    } else {
      assert AfterLogin(serve, jar, r2).sent == [q3];
    }
  }

  lemma {:induction false} AfterAuthorizeShape(username: string, password: string, serve: Network,
                                               unquote: string -> string, r1: Response)
    ensures var sent := AfterAuthorize(username, password, serve, unquote, r1).sent;
      && 1 <= |sent| <= 3
      && sent[0] == LoginRequest(username, password, r1, unquote)
      && (|sent| >= 2 ==>
            var r2 := serve(sent[0]).value;
            Passed(serve, sent[0]) && sent[1] == ConsumeRequest(r2, r1.cookies + r2.cookies))
      && (|sent| == 3 ==> sent[2] == TokenRequest(serve(sent[1]).value))
  {
    var q2 := LoginRequest(username, password, r1, unquote);
    var o := Exchange(serve, 2, q2);
    if o.Success? {
      var r2 := o.value;
      assert AfterAuthorize(username, password, serve, unquote, r1) == Then(q2, AfterLogin(serve, r1.cookies + r2.cookies, r2));
      AfterLoginShape(serve, r1.cookies + r2.cookies, r2);
    } else {
      assert AfterAuthorize(username, password, serve, unquote, r1).sent == [q2];
    }
  }

  /** What an orderly run from hop 1 says about its token and its failure. */
  lemma RunFromFirstHop(serve: Network, run: Run)
    requires InOrder(serve, run, 1)
    ensures run.outcome.Success? <==> |run.sent| == 4 && forall k :: 0 <= k < 4 ==> Passed(serve, run.sent[k])
    ensures run.outcome.Success? ==> run.outcome.value == AccessTokenValue(serve(run.sent[3]).value.url)
    ensures run.outcome.Failure? ==>
        && 1 <= |run.sent| <= 4
        && run.outcome.error.hop == |run.sent|
        && !Passed(serve, run.sent[|run.sent| - 1])
        && forall k :: 0 <= k < |run.sent| - 1 ==> Passed(serve, run.sent[k])
    ensures run.outcome.Failure? && run.outcome.error.Rejected? ==>
        var last := serve(run.sent[|run.sent| - 1]);
        last.Some? && last.value.status == run.outcome.error.status != 200
  {
  }

  /** A token comes back exactly when all four hops were sent and each was
      answered with status 200; it is the `access_token` value of the last
      hop's final URL. */
  lemma TokenIffEveryHopPasses(username: string, password: string, serve: Network, unquote: string -> string)
    ensures var run := Handshake(username, password, serve, unquote);
      run.outcome.Success? <==> |run.sent| == 4 && forall k :: 0 <= k < 4 ==> Passed(serve, run.sent[k])
    ensures var run := Handshake(username, password, serve, unquote);
      run.outcome.Success? ==> run.outcome.value == AccessTokenValue(serve(run.sent[3]).value.url)
  {
    HandshakeInOrder(username, password, serve, unquote);
    RunFromFirstHop(serve, Handshake(username, password, serve, unquote));
  }

  /** Hops run strictly in order: a failed handshake stopped at the hop it
      names, every earlier hop passed, the failing one did not, and no
      later request was built. A rejection reports the status of the
      response it rejected. */
  lemma FailureStopsAtFailingHop(username: string, password: string, serve: Network, unquote: string -> string)
    ensures var run := Handshake(username, password, serve, unquote);
      run.outcome.Failure? ==>
        && 1 <= |run.sent| <= 4
        && run.outcome.error.hop == |run.sent|
        && !Passed(serve, run.sent[|run.sent| - 1])
        && forall k :: 0 <= k < |run.sent| - 1 ==> Passed(serve, run.sent[k])
    ensures var run := Handshake(username, password, serve, unquote);
      run.outcome.Failure? && run.outcome.error.Rejected? ==>
        var last := serve(run.sent[|run.sent| - 1]);
        last.Some? && last.value.status == run.outcome.error.status != 200
  {
    HandshakeInOrder(username, password, serve, unquote);
    RunFromFirstHop(serve, Handshake(username, password, serve, unquote));
  }

  /** Hop 1 is the fixed authorisation GET; hop 2 posts exactly the
      username, the password, `submit=Login` and the decoded AuthState, with
      hop 1's cookies. */
  lemma LoginCarriesCredentials(username: string, password: string, serve: Network, unquote: string -> string)
    ensures var run := Handshake(username, password, serve, unquote);
      run.sent[0] == Request(GET, AuthorizeEndpoint + AuthorizeQuery, map[], NoBody, map[], map[])
    ensures var run := Handshake(username, password, serve, unquote);
      |run.sent| >= 2 ==>
        var r1 := serve(run.sent[0]).value;
        && run.sent[1].verb == POST && run.sent[1].url == LoginEndpoint
        && run.sent[1].params == map["username" := username, "password" := password, "submit" := "Login",
                                     "AuthState" := unquote(AuthStateValue(r1.url))]
        && run.sent[1].cookies == Present(r1.cookies)
  {
    TraceShape(username, password, serve, unquote);
  }

  /** Hop 3 posts hop 2's SAML response and sends only the cookies `main`
      and `HTTPSERVERID`, with the latest values the session holds (None
      when neither response set it). */
  lemma ConsumeSendsTwoCookies(username: string, password: string, serve: Network, unquote: string -> string)
    ensures var run := Handshake(username, password, serve, unquote);
      |run.sent| >= 3 ==>
        var r1 := serve(run.sent[0]).value;
        var r2 := serve(run.sent[1]).value;
        && run.sent[2].data == Form(map["SAMLResponse" := SamlResponseValue(r2.body)])
        && run.sent[2].cookies.Keys == {"main", "HTTPSERVERID"}
        && (forall name :: name in run.sent[2].cookies ==>
              run.sent[2].cookies[name] == Get(r1.cookies + r2.cookies, name))
  {
    TraceShape(username, password, serve, unquote);
    var run := Handshake(username, password, serve, unquote);
    if |run.sent| >= 3 {
      var r1 := serve(run.sent[0]).value;
      var r2 := serve(run.sent[1]).value;
      ConsumeCookies(r2, r1.cookies + r2.cookies);
    }
  }

  /** The assertion post carries only the session's `main` and
      `HTTPSERVERID` cookies. */
  lemma ConsumeCookies(r2: Response, jar: map<string, string>)
    ensures ConsumeRequest(r2, jar).cookies.Keys == {"main", "HTTPSERVERID"}
    ensures forall name :: name in ConsumeRequest(r2, jar).cookies ==> ConsumeRequest(r2, jar).cookies[name] == Get(jar, name)
  {
  }

  /** A `main` cookie set by hop 1 and not replaced by hop 2 reaches hop 3. */
  lemma CookieFromFirstHopReachesThird(username: string, password: string, serve: Network, unquote: string -> string)
    ensures var run := Handshake(username, password, serve, unquote);
      |run.sent| >= 3 ==>
        var r1 := serve(run.sent[0]).value;
        var r2 := serve(run.sent[1]).value;
        "main" in r1.cookies && "main" !in r2.cookies ==> run.sent[2].cookies["main"] == Some(r1.cookies["main"])
  {
    TraceShape(username, password, serve, unquote);
  }

  /** Hop 4 posts the SAML response and relay state of hop 3 to the
      authorisation endpoint and sends no cookies. */
  lemma TokenRequestSendsNoCookies(username: string, password: string, serve: Network, unquote: string -> string)
    ensures var run := Handshake(username, password, serve, unquote);
      |run.sent| == 4 ==>
        var r3 := serve(run.sent[2]).value;
        && run.sent[3].url == AuthorizeEndpoint
        && run.sent[3].cookies == map[]
        && run.sent[3].data == Form(map["SAMLResponse" := SamlResponseValue(r3.body),
                                        "RelayState" := RelayStateValue(r3.body)])
  {
    TraceShape(username, password, serve, unquote);
  }

  /** When the handshake succeeds and hop 4's final URL carries
      `access_token=<token>&...` (with no earlier `access_token`), the
      token it returns is exactly that token. (A success always sent four
      requests, the last of them passed: `TokenIffEveryHopPasses`; the
      antecedent repeats this so that hop 4's URL is well defined.) */
  lemma WellFormedRedirectYieldsToken(username: string, password: string, serve: Network, unquote: string -> string,
                                      pre: string, token: string, rest: string)
    requires NoMarkerIn(pre, AccessTokenMarker)
    requires '&' !in token
    ensures var run := Handshake(username, password, serve, unquote);
      && run.outcome.Success? && |run.sent| == 4 && Passed(serve, run.sent[3])
      && serve(run.sent[3]).value.url == pre + AccessTokenMarker + "=" + token + "&" + rest ==>
        run.outcome.value == token
  {
    HandshakeInOrder(username, password, serve, unquote);
    RunFromFirstHop(serve, Handshake(username, password, serve, unquote));
    AccessTokenOfUrl(pre, token, rest);
  }

  /** On a network that accepts every request and always redirects to
      `access_token=<token>&...`, the handshake returns that token. */
  lemma {:induction false} UniformRedirectYieldsToken(
    username: string, password: string, serve: Network, unquote: string -> string,
    pre: string, token: string, rest: string)
    requires forall q :: Passed(serve, q)
    requires forall q :: serve(q).Some? && serve(q).value.url == pre + AccessTokenMarker + "=" + token + "&" + rest
    requires NoMarkerIn(pre, AccessTokenMarker)
    requires '&' !in token
    ensures Handshake(username, password, serve, unquote).outcome == Success(token)
  {
    AccessTokenOfUrl(pre, token, rest);
  }

  /** `_getToken` as written: the first status check names `_assureSuccess`
      without `self.`, which raises NameError once hop 1 has been sent. */
  function GetTokenAsWritten(serve: Network): Run
  {
    var q1 := AuthorizeRequest();
    match serve(q1)
    case None => Run([q1], Failure(Unreachable(1)))
    case Some(_) => Run([q1], Failure(UndefinedName(1)))
  }

  /** As written, no input yields a token and nothing after hop 1 is sent. */
  lemma AsWrittenNeverYieldsToken(serve: Network)
    ensures GetTokenAsWritten(serve).outcome.Failure?
    ensures GetTokenAsWritten(serve).sent == [AuthorizeRequest()]
  {
  }

  /** A network that accepts every request and redirects to a URL
      carrying `access_token=abc&token_type=bearer`. */
  function AcceptingNetwork(): Network
  {
    (q: Request) => Some(Response(200, "access_token=abc&token_type=bearer", "", map[]))
  }

  /** On that network the intended handshake returns "abc", while the code
      as written fails after the first hop. */
  lemma AsWrittenLosesToken(username: string, password: string, unquote: string -> string)
    ensures Handshake(username, password, AcceptingNetwork(), unquote).outcome == Success("abc")
    ensures GetTokenAsWritten(AcceptingNetwork()).outcome == Failure(UndefinedName(1))
  {
    var serve := AcceptingNetwork();
    assert "access_token=abc&token_type=bearer" == [] + AccessTokenMarker + "=" + "abc" + "&" + "token_type=bearer";
    UniformRedirectYieldsToken(username, password, serve, unquote, [], "abc", "token_type=bearer");
  }
}
