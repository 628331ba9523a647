/** The browser client's request pipeline (frontend/src/shared/http/http.js):
    `rawFetch` sends one request, adding a bearer access token (section 2.1 of
    RFC 6750) when asked to; `refreshTokens` trades the stored refresh token
    for a new pair; `http` retries a request once after a 401.

    The token store and the network are objects: the store holds the two
    tokens, the network answers from a script of replies and logs every
    request it was given.  Each method is tied to a specification function
    of the old state, and the properties are proved about those functions. */
module HttpPipeline {
  import opened Wrappers
  import opened Text
  import opened Json

  /** The `{ method, body, withAuth }` options object; `verb` is the HTTP method. */
  datatype Options = Options(verb: string, body: Option<Json>, withAuth: bool)

  /** What `fetch` is given: the URL, the method, the headers and the body
      that `JSON.stringify` is applied to (None for `undefined`). */
  datatype Request = Request(url: string, verb: string, headers: map<string, string>, body: Option<Json>)

  /** The text of a response as `JSON.parse` sees it. */
  datatype Body = Empty | Parsed(value: Json) | Unparsable

  /** What the network does with one request. */
  datatype Reply = Response(status: nat, body: Body) | NetworkDown

  /** The errors the pipeline throws. `HttpError` is the `Error` built for a
      non-ok status, with its `status` and `payload` properties; the others
      have no `status` property. */
  datatype Failure =
    | HttpError(message: string, status: nat, payload: Json)
    | NoRefreshToken      // new Error("No refresh token")
    | NetworkFailure      // fetch rejected
    | MalformedBody       // JSON.parse threw a SyntaxError
    | NullTokens          // `tokens.accessToken` read on a null refresh reply

  datatype Tokens = Tokens(access: Option<string>, refresh: Option<string>)

  /** A token counts as present when JavaScript finds it truthy. */
  predicate Present(t: Option<string>) {
    t.Some? && t.value != ""
  }

  /** `e?.status === 401`. */
  predicate IsUnauthorized(f: Failure) {
    f.HttpError? && f.status == 401
  }

  const RefreshPath: string := "/auth/refresh"

  /** The localStorage-backed token store (tokenStorage.js is not part of
      this model: it is taken to hold exactly what it was last given). */
  class TokenStorage {
    var access: Option<string>
    var refresh: Option<string>

    constructor (access0: Option<string>, refresh0: Option<string>)
      ensures access == access0 && refresh == refresh0
    {
      access := access0;
      refresh := refresh0;
    }

    function Current(): (t: Tokens)
      reads this
      ensures t.access == access && t.refresh == refresh
    {
      Tokens(access, refresh)
    }

    method SetTokens(a: Option<string>, r: Option<string>)
      modifies this
      ensures access == a && refresh == r
    {
      access := a;
      refresh := r;
    }

    method Clear()
      modifies this
      ensures access == None && refresh == None
    {
      access := None;
      refresh := None;
    }
  }

  /** The reply the network gives next; an exhausted script is a dead network. */
  function Next(rs: seq<Reply>): Reply {
    if rs == [] then NetworkDown else rs[0]
  }

  function Rest(rs: seq<Reply>): seq<Reply> {
    if rs == [] then [] else rs[1..]
  }

  /** The script left after `n` requests. */
  function Skip(rs: seq<Reply>, n: nat): (r: seq<Reply>)
    ensures |r| <= |rs|
  {
    if n == 0 then rs else Skip(Rest(rs), n - 1)
  }

  /** One more request consumes one more reply. */
  lemma {:induction false} SkipOneMore(rs: seq<Reply>, n: nat)
    ensures Rest(Skip(rs, n)) == Skip(rs, n + 1)
  {
    if n > 0 {
      SkipOneMore(Rest(rs), n - 1);
    }
  }

  /** `fetch`: an asynchronous network that answers in script order. */
  class Network {
    var replies: seq<Reply>
    var sent: seq<Request>

    constructor (script: seq<Reply>)
      ensures replies == script && sent == []
    {
      replies := script;
      sent := [];
    }

    method Fetch(req: Request) returns (reply: Reply)
      modifies this
      ensures reply == Next(old(replies))
      ensures replies == Rest(old(replies))
      ensures sent == old(sent) + [req]
    {
      reply := Next(replies);
      replies := Rest(replies);
      sent := sent + [req];
    }
  }

  /** The header object of lines 7-14. */
  function Headers(withAuth: bool, access: Option<string>): (h: map<string, string>)
    ensures "Content-Type" in h && h["Content-Type"] == "application/json"
    ensures "Authorization" in h <==> withAuth && Present(access)
    ensures "Authorization" in h ==> h["Authorization"] == "Bearer " + access.value
    ensures h.Keys <= {"Content-Type", "Authorization"}
  {
    var h := map["Content-Type" := "application/json"];
    if withAuth && Present(access) then h["Authorization" := "Bearer " + access.value] else h
  }

  /** `body ? JSON.stringify(body) : undefined`. */
  function SentBody(body: Option<Json>): (b: Option<Json>)
    ensures b.Some? <==> body.Some? && Truthy(body.value)
    ensures b.Some? ==> b == body
  {
    if body.Some? && Truthy(body.value) then body else None
  }

  function RequestFor(base: string, path: string, o: Options, access: Option<string>): (req: Request)
    ensures req.url == base + path && req.verb == o.verb
    ensures req.headers == Headers(o.withAuth, access) && req.body == SentBody(o.body)
  {
    Request(base + path, o.verb, Headers(o.withAuth, access), SentBody(o.body))
  }

  /** `data?.message || data?.error || "HTTP " + status`. */
  function ErrorMessage(data: Json, status: nat): (m: string)
    ensures m != ""
    ensures StringMember(data, "message").Some? && StringMember(data, "message").value != ""
            ==> m == StringMember(data, "message").value
  {
    OrText(TruthyText(Member(Some(data), "message")),
           OrText(TruthyText(Member(Some(data), "error")), "HTTP " + NatToString(status)))
  }

  /** Lines 22-32: the parsed body, or the error for a non-ok status.  The
      body is parsed BEFORE the status is looked at. */
  function Settle(reply: Reply): (r: Result<Json, Failure>)
    ensures reply.NetworkDown? ==> r == Failure(NetworkFailure)
    ensures reply.Response? && reply.body.Unparsable? ==> r == Failure(MalformedBody)
    ensures reply.Response? && reply.body.Empty? && 200 <= reply.status <= 299 ==> r == Success(JNull)
    ensures r.Failure? && r.error.HttpError? ==>
              reply.Response? && !(200 <= reply.status <= 299) && r.error.status == reply.status
              && r.error.payload == (if reply.body.Parsed? then reply.body.value else JNull)
    ensures reply.Response? && !reply.body.Unparsable? ==> (r.Success? <==> 200 <= reply.status <= 299)
  {
    match reply
    case NetworkDown => Failure(NetworkFailure)
    case Response(status, body) =>
      if body.Unparsable? then Failure(MalformedBody)
      else
        var data := if body.Parsed? then body.value else JNull;
        if 200 <= status <= 299 then Success(data)
        else Failure(HttpError(ErrorMessage(data, status), status, data))
  }

  /** One run of a pipeline operation: its outcome, the requests it sent in
      order, and the tokens it left in the store. */
  datatype Exchange = Exchange(result: Result<Json, Failure>, sent: seq<Request>, tokens: Tokens)

  function RefreshOptions(rt: string): Options {
    Options("POST", Some(JObj(map["refreshToken" := JStr(rt)])), false)
  }

  /** `refreshTokens` (lines 35-48) on the store `t` and the script `rs`. */
  function RefreshSpec(base: string, t: Tokens, rs: seq<Reply>): (x: Exchange)
    ensures !Present(t.refresh) ==> x == Exchange(Failure(NoRefreshToken), [], t)
    ensures Present(t.refresh) ==>
              |x.sent| == 1 && x.sent[0] == RequestFor(base, RefreshPath, RefreshOptions(t.refresh.value), t.access)
              && "Authorization" !in x.sent[0].headers
    ensures x.result.Success? ==>
              x.result.value != JNull
              && x.tokens == Tokens(StringMember(x.result.value, "accessToken"), StringMember(x.result.value, "refreshToken"))
    ensures x.result.Failure? ==> x.tokens == t
    ensures Present(t.refresh) ==>
              (x.result.Success? <==> Settle(Next(rs)).Success? && Settle(Next(rs)).value != JNull)
    ensures Present(t.refresh) && (Settle(Next(rs)).Failure? || x.result.Success?) ==> x.result == Settle(Next(rs))
    ensures Present(t.refresh) && Settle(Next(rs)) == Success(JNull) ==> x.result == Failure(NullTokens)
  {
    if !Present(t.refresh) then Exchange(Failure(NoRefreshToken), [], t)
    else
      var req := RequestFor(base, RefreshPath, RefreshOptions(t.refresh.value), t.access);
      match Settle(Next(rs))
      case Failure(e) => Exchange(Failure(e), [req], t)
      case Success(data) =>
        if data == JNull then Exchange(Failure(NullTokens), [req], t)
        else Exchange(Success(data), [req], Tokens(StringMember(data, "accessToken"), StringMember(data, "refreshToken")))
  }

  /** `http` (lines 50-61) as a function of the store and the script. */
  function HttpSpec(base: string, path: string, o: Options, t: Tokens, rs: seq<Reply>): (x: Exchange)
    ensures 1 <= |x.sent| <= 3
    ensures x.sent[0] == RequestFor(base, path, o, t.access)
    ensures var first := Settle(Next(rs));
            !(first.Failure? && o.withAuth && IsUnauthorized(first.error)) ==> x == Exchange(first, x.sent, t)
    ensures var first := Settle(Next(rs));
            |x.sent| == 1 <==> first.Success? || !o.withAuth || !IsUnauthorized(first.error) || !Present(t.refresh)
    ensures |x.sent| >= 2 ==> x.sent[1].url == base + RefreshPath && "Authorization" !in x.sent[1].headers
    ensures |x.sent| == 3 ==> x.sent[2] == RequestFor(base, path, o, x.tokens.access) && x.result == Settle(Next(Skip(rs, 2)))
    ensures var first := Settle(Next(rs));
            first.Failure? && o.withAuth && IsUnauthorized(first.error) ==>
              var refreshed := RefreshSpec(base, t, Rest(rs));
              (|x.sent| < 3 <==> refreshed.result.Failure?)
              && (|x.sent| < 3 ==> x.result == refreshed.result && x.tokens == t)
              && (|x.sent| == 3 ==> x.tokens == refreshed.tokens)
  {
    var first := Settle(Next(rs));
    var req := RequestFor(base, path, o, t.access);
    if first.Failure? && o.withAuth && IsUnauthorized(first.error) then
      var refreshed := RefreshSpec(base, t, Rest(rs));
      if refreshed.result.Failure? then Exchange(refreshed.result, [req] + refreshed.sent, refreshed.tokens)
      else
        var retry := RequestFor(base, path, o, refreshed.tokens.access);
        Exchange(Settle(Next(Skip(rs, 2))), [req] + refreshed.sent + [retry], refreshed.tokens)
    else Exchange(first, [req], t)
  }

  /** `rawFetch`: builds the header object field by field and sends one request. */
  method RawFetch(net: Network, store: TokenStorage, base: string, path: string, o: Options)
    returns (result: Result<Json, Failure>)
    modifies net
    ensures net.sent == old(net.sent) + [RequestFor(base, path, o, store.access)]
    ensures net.replies == Rest(old(net.replies))
    ensures result == Settle(Next(old(net.replies)))
  {
    var headers := map["Content-Type" := "application/json"];
    if o.withAuth {
      var accessToken := store.access;
      if Present(accessToken) {
        headers := headers["Authorization" := "Bearer " + accessToken.value];
      }
    }
    var body := if o.body.Some? && Truthy(o.body.value) then o.body else None;
    var reply := net.Fetch(Request(base + path, o.verb, headers, body));
    match reply
    case NetworkDown =>
      return Failure(NetworkFailure);
    case Response(status, text) =>
      if text.Unparsable? {
        return Failure(MalformedBody);
      }
      var data := if text.Parsed? then text.value else JNull;
      if !(200 <= status <= 299) {
        return Failure(HttpError(ErrorMessage(data, status), status, data));
      }
      return Success(data);
  }

  /** `refreshTokens`. */
  method RefreshTokens(net: Network, store: TokenStorage, base: string)
    returns (result: Result<Json, Failure>)
    modifies net, store
    ensures var x := RefreshSpec(base, old(store.Current()), old(net.replies));
            result == x.result && net.sent == old(net.sent) + x.sent
            && net.replies == Skip(old(net.replies), |x.sent|) && store.Current() == x.tokens
  {
    ghost var rs := net.replies;
    assert Skip(rs, 1) == Rest(rs);
    var refreshToken := store.refresh;
    if !Present(refreshToken) {
      return Failure(NoRefreshToken);
    }
    var tokens := RawFetch(net, store, base, RefreshPath, RefreshOptions(refreshToken.value));
    if tokens.Failure? {
      return tokens;
    }
    if tokens.value == JNull {
      return Failure(NullTokens);
    }
    store.SetTokens(StringMember(tokens.value, "accessToken"), StringMember(tokens.value, "refreshToken"));
    return tokens;
  }

  /** `http`: one retry after a refresh, triggered only by a 401 on an
      authenticated request. */
  method Http(net: Network, store: TokenStorage, base: string, path: string, o: Options)
    returns (result: Result<Json, Failure>)
    modifies net, store
    ensures var x := HttpSpec(base, path, o, old(store.Current()), old(net.replies));
            result == x.result && net.sent == old(net.sent) + x.sent
            && net.replies == Skip(old(net.replies), |x.sent|) && store.Current() == x.tokens
  {
    ghost var rs := net.replies;
    SkipOneMore(rs, 0);
    SkipOneMore(rs, 1);
    SkipOneMore(rs, 2);
    result := RawFetch(net, store, base, path, o);
    if result.Failure? && o.withAuth && IsUnauthorized(result.error) {
      var refreshed := RefreshTokens(net, store, base);
      if refreshed.Failure? {
        return refreshed;
      }
      result := RawFetch(net, store, base, path, o);
    }
  }

  /** Without `withAuth` no request of the run carries a bearer token, and no
      refresh is attempted. */
  lemma NoAuthNoBearer(base: string, path: string, o: Options, t: Tokens, rs: seq<Reply>)
    requires !o.withAuth
    ensures var x := HttpSpec(base, path, o, t, rs);
            |x.sent| == 1 && "Authorization" !in x.sent[0].headers && x.tokens == t
  {
  }

  /** A missing access token does not fail the call: the request still goes
      out, with no Authorization header. */
  lemma MissingAccessTokenStillSends(base: string, path: string, o: Options, t: Tokens, rs: seq<Reply>)
    requires !Present(t.access)
    ensures var x := HttpSpec(base, path, o, t, rs);
            x.sent[0].url == base + path && "Authorization" !in x.sent[0].headers
  {
  }

  /** An empty ok body is null, never a parse error. */
  lemma EmptyBodyIsNull(status: nat)
    requires 200 <= status <= 299
    ensures Settle(Response(status, Empty)) == Success(JNull)
  {
  }

  /** A 401 on an authenticated request with a refresh token causes exactly
      one refresh and one retry; the retry's outcome is final, whatever it is. */
  lemma {:induction false} UnauthorizedRefreshesOnceRetriesOnce(base: string, path: string, o: Options, t: Tokens, rs: seq<Reply>)
    requires o.withAuth && Present(t.refresh)
    requires Settle(Next(rs)).Failure? && IsUnauthorized(Settle(Next(rs)).error)
    requires Settle(Next(Rest(rs))).Success? && Settle(Next(Rest(rs))).value != JNull
    ensures var x := HttpSpec(base, path, o, t, rs);
            |x.sent| == 3
            && x.sent[1].url == base + RefreshPath && "Authorization" !in x.sent[1].headers
            && x.sent[2] == RequestFor(base, path, o, x.tokens.access)
            && x.result == Settle(Next(Skip(rs, 2)))
    ensures var x, data := HttpSpec(base, path, o, t, rs), Settle(Next(Rest(rs))).value;
            x.tokens == Tokens(StringMember(data, "accessToken"), StringMember(data, "refreshToken"))
            && x.sent[2] == RequestFor(base, path, o, StringMember(data, "accessToken"))
  {
  }

  /** After a 401, a refresh that fails (its reply is an error, or a null
      body) ends the call: the caller gets the refresh's error, the request
      is not retried and the stored tokens are kept. */
  lemma FailedRefreshPropagates(base: string, path: string, o: Options, t: Tokens, rs: seq<Reply>)
    requires o.withAuth && Present(t.refresh)
    requires Settle(Next(rs)).Failure? && IsUnauthorized(Settle(Next(rs)).error)
    ensures var x, reply := HttpSpec(base, path, o, t, rs), Settle(Next(Rest(rs)));
            (reply.Failure? || reply == Success(JNull)) ==>
              x.sent == [RequestFor(base, path, o, t.access),
                         RequestFor(base, RefreshPath, RefreshOptions(t.refresh.value), t.access)]
              && x.tokens == t
              && x.result == (if reply.Failure? then reply else Failure(NullTokens))
  {
  }

  /** Even when the retry is answered with another 401, nothing more is sent:
      the retry's error, with its status and payload, is what the caller gets. */
  lemma {:induction false} SecondUnauthorizedPropagates(base: string, path: string, o: Options, t: Tokens, rs: seq<Reply>)
    requires |rs| >= 3 && o.withAuth && Present(t.refresh)
    requires Settle(rs[0]).Failure? && IsUnauthorized(Settle(rs[0]).error)
    requires Settle(rs[1]).Success? && Settle(rs[1]).value != JNull
    requires rs[2].Response? && rs[2].status == 401 && !rs[2].body.Unparsable?
    ensures var x, data := HttpSpec(base, path, o, t, rs), (if rs[2].body.Parsed? then rs[2].body.value else JNull);
            |x.sent| == 3 && x.result == Settle(rs[2])
            && x.result == Failure(HttpError(ErrorMessage(data, 401), 401, data))
  {
    assert Skip(rs, 2) == rs[2..] by {
      SkipOneMore(rs, 0);
      SkipOneMore(rs, 1);
      assert Rest(rs) == rs[1..];
      assert Rest(rs[1..]) == rs[2..];
    }
    assert Next(rs[2..]) == rs[2];
  }

  /** With empty 401 bodies, the message is the status line. */
  lemma SecondUnauthorizedEmptyBody(base: string, path: string, o: Options, t: Tokens, rs: seq<Reply>)
    requires |rs| >= 3 && rs[0] == rs[2] && rs[0] == Response(401, Empty)
    requires o.withAuth && Present(t.refresh)
    requires Settle(rs[1]).Success? && Settle(rs[1]).value != JNull
    ensures var x := HttpSpec(base, path, o, t, rs);
            |x.sent| == 3 && x.result == Failure(HttpError("HTTP 401", 401, JNull))
  {
    SecondUnauthorizedPropagates(base, path, o, t, rs);
    assert NatToString(401) == "401" by {
      assert NatToString(40) == "40" by { assert NatToString(4) == "4"; }
    }
    assert ErrorMessage(JNull, 401) == "HTTP 401";
  }

  /** A refresh with no stored refresh token throws before any request. */
  lemma NoRefreshTokenSendsNothing(base: string, t: Tokens, rs: seq<Reply>)
    requires !Present(t.refresh)
    ensures RefreshSpec(base, t, rs) == Exchange(Failure(NoRefreshToken), [], t)
  {
  }

  /** Errors that are not a 401, or happen without `withAuth`, are rethrown
      as they are, with no refresh. */
  lemma OtherErrorsRethrown(base: string, path: string, o: Options, t: Tokens, rs: seq<Reply>)
    requires Settle(Next(rs)).Failure?
    requires !o.withAuth || !IsUnauthorized(Settle(Next(rs)).error)
    ensures HttpSpec(base, path, o, t, rs) == Exchange(Settle(Next(rs)), [RequestFor(base, path, o, t.access)], t)
  {
  }

  /** A 401 whose body is not JSON surfaces as a parse error, so it never
      triggers a refresh: the parse comes before the status check. */
  lemma UnparsableUnauthorizedNotRefreshed(base: string, path: string, o: Options, t: Tokens, rs: seq<Reply>)
    requires Next(rs) == Response(401, Unparsable)
    ensures HttpSpec(base, path, o, t, rs) == Exchange(Failure(MalformedBody), [RequestFor(base, path, o, t.access)], t)
  {
  }
}
