/** Request normalisation and token refresh against an abstract server
    (`request` and `refreshToken` of src/lib/api.ts).

    The server is a sequence of replies; every `fetch` consumes the next one,
    and a `fetch` with no reply left never settles. */
module Http {
  import opened Js
  import opened LocalStore
  import opened Tokens

  datatype Body = NotJson | Json(value: JVal)

  /** What one `fetch` yields: a transport failure or a status with a body. */
  datatype Reply = NoConnection | Reply(status: int, body: Body)

  /** `response.ok`. */
  predicate IsOk(status: int) {
    200 <= status <= 299
  }

  /** One `fetch` call as the server sees it. */
  datatype Attempt = Attempt(verb: string, url: string, headers: map<string, string>, body: Option<JVal>)

  /** The `options` a caller passes to `request`. */
  datatype Call = Call(verb: string, endpoint: string, headers: map<string, string>, body: Option<JVal>)

  /** The normalised response: `{data}` or `{error}`. */
  datatype ApiResponse = Data(data: JVal) | Failed(error: JVal)

  /** How a promise ends: fulfilled, rejected, or never (a hung `fetch`). */
  datatype Settled<+T> = Fulfilled(value: T) | Rejected(reason: Exception) | Pending

  /** A run against the server: how it ends, the storage afterwards, the
      replies left and the requests made, in order. */
  datatype Exchange<+T> = Exchange(outcome: Settled<T>, slots: Slots, rest: seq<Reply>, sent: seq<Attempt>)

  const NetworkError := "Network error occurred"
  const AuthFailed := "Authentication failed"
  const GenericError := "An error occurred"
  const RefreshPath := "/api/auth/refresh"
  const JsonHeaders: map<string, string> := map["Content-Type" := "application/json"]

  /** `refreshToken()`: exchanges the stored refresh token for a new access
      token. It sends nothing when no (truthy) refresh token is stored; on a
      2xx JSON reply it replaces the access token and keeps the refresh
      token; every other outcome leaves storage untouched. Reading the stored
      pair is outside its `try`, so a malformed entry rejects. */
  function RefreshRun(slots: Slots, base: string, server: seq<Reply>): (x: Exchange<bool>)
    ensures |x.rest| <= |server| && |x.sent| <= 1
    ensures x.outcome == Fulfilled(true) ==> |x.rest| < |server|
    ensures x.outcome != Fulfilled(true) ==> x.slots == slots
    ensures x.outcome.Rejected? <==> GetTokens(slots).Throw?
    ensures GetTokens(slots).Ok? && !Present(Prop(GetTokens(slots).value, "refresh")) ==>
      x == Exchange(Fulfilled(false), slots, server, [])
    ensures x.outcome == Pending <==>
      GetTokens(slots).Ok? && Present(Prop(GetTokens(slots).value, "refresh")) && server == []
    ensures x.outcome == Fulfilled(true) <==>
      && GetTokens(slots).Ok? && Present(Prop(GetTokens(slots).value, "refresh"))
      && server != [] && server[0].Reply? && IsOk(server[0].status)
      && server[0].body.Json? && server[0].body.value != JNull
    ensures x.outcome == Fulfilled(true) ==>
      && x.slots == slots[TokensKey := Text(PairJson(TokenPair(Prop(server[0].body.value, "access"),
                                                               Prop(GetTokens(slots).value, "refresh"))))]
      && x.rest == server[1..]
  {
    match GetTokens(slots)
    case Throw(e) => Exchange(Rejected(e), slots, server, [])
    case Ok(t) =>
      // `tokens?.refresh`: for a stored `null` this is `undefined`, as Prop gives.
      var refresh := Prop(t, "refresh");
      if !Present(refresh) then Exchange(Fulfilled(false), slots, server, [])
      else
        var attempt := Attempt("POST", base + RefreshPath, JsonHeaders, Some(JObj(map["refresh" := refresh.value])));
        if server == [] then Exchange(Pending, slots, server, [attempt])
        else match server[0]
          case NoConnection => Exchange(Fulfilled(false), slots, server[1..], [attempt])
          case Reply(status, body) =>
            if !IsOk(status) || body.NotJson? || body.value == JNull then
              // a non-2xx reply, a body `response.json()` rejects, or `null.access`
              Exchange(Fulfilled(false), slots, server[1..], [attempt])
            else
              var pair := TokenPair(Prop(body.value, "access"), refresh);
              Exchange(Fulfilled(true), slots[TokensKey := Text(PairJson(pair))], server[1..], [attempt])
  }

  /** With a refresh token stored, a transport failure, a non-2xx reply, a
      body that is not JSON or a `null` body answers false after one POST to
      the refresh path, and storage is left as it was. */
  lemma RefreshFailsOnBadReply(slots: Slots, base: string, reply: Reply, more: seq<Reply>)
    requires GetTokens(slots).Ok? && Present(Prop(GetTokens(slots).value, "refresh"))
    requires reply.NoConnection? || !IsOk(reply.status) || reply.body.NotJson? || reply.body.value == JNull
    ensures var x := RefreshRun(slots, base, [reply] + more);
      && x.outcome == Fulfilled(false) && x.slots == slots && x.rest == more
      && |x.sent| == 1 && x.sent[0].verb == "POST" && x.sent[0].url == base + RefreshPath
  {
    assert ([reply] + more)[0] == reply && ([reply] + more)[1..] == more;
  }

  /** `request(endpoint, options)`. The headers are the JSON content type,
      then the bearer header, then the caller's own, each overriding the one
      before. A 401 runs `refreshToken`: on success the whole request is
      issued again, with no bound on how often; on failure the tokens are
      cleared. Every other failure is returned as `{error}`. */
  function RequestRun(slots: Slots, base: string, call: Call, server: seq<Reply>): (x: Exchange<ApiResponse>)
    ensures |x.rest| <= |server|
    decreases |server|
  {
    match AuthHeaders(slots)
    case Throw(_) => Exchange(Fulfilled(Failed(JStr(NetworkError))), slots, server, [])
    case Ok(auth) =>
      var attempt := Attempt(call.verb, base + call.endpoint, JsonHeaders + auth + call.headers, call.body);
      if server == [] then Exchange(Pending, slots, server, [attempt])
      else match server[0]
        case NoConnection => Exchange(Fulfilled(Failed(JStr(NetworkError))), slots, server[1..], [attempt])
        case Reply(status, body) =>
          if status == 401 then
            var f := RefreshRun(slots, base, server[1..]);
            if f.outcome == Fulfilled(true) then
              var again := RequestRun(f.slots, base, call, f.rest);
              Exchange(again.outcome, again.slots, again.rest, [attempt] + f.sent + again.sent)
            else if f.outcome == Fulfilled(false) then
              Exchange(Fulfilled(Failed(JStr(AuthFailed))), f.slots - {TokensKey}, f.rest, [attempt] + f.sent)
            else if f.outcome.Rejected? then
              Exchange(Fulfilled(Failed(JStr(NetworkError))), f.slots, f.rest, [attempt] + f.sent)
            else
              Exchange(Pending, f.slots, f.rest, [attempt] + f.sent)
          else match body
            case NotJson => Exchange(Fulfilled(Failed(JStr(NetworkError))), slots, server[1..], [attempt])
            case Json(d) =>
              if IsOk(status) then Exchange(Fulfilled(Data(d)), slots, server[1..], [attempt])
              else if d == JNull then Exchange(Fulfilled(Failed(JStr(NetworkError))), slots, server[1..], [attempt])
              else
                var message := Or(Prop(d, "message"), Or(Prop(d, "error"), JStr(GenericError)));
                Exchange(Fulfilled(Failed(message)), slots, server[1..], [attempt])
  }

  /** `request` never rejects, and every error it returns is a non-empty
      (truthy) message. */
  lemma {:induction false} RequestNeverRejects(slots: Slots, base: string, call: Call, server: seq<Reply>)
    ensures !RequestRun(slots, base, call, server).outcome.Rejected?
    ensures RequestRun(slots, base, call, server).outcome.Fulfilled? &&
            RequestRun(slots, base, call, server).outcome.value.Failed? ==>
            Truthy(RequestRun(slots, base, call, server).outcome.value.error)
    decreases |server|
  {
    if AuthHeaders(slots).Ok? && server != [] && server[0].Reply? && server[0].status == 401 {
      var f := RefreshRun(slots, base, server[1..]);
      if f.outcome == Fulfilled(true) {
        RequestNeverRejects(f.slots, base, call, f.rest);
      }
    }
  }

  /** The first `fetch` of a request: the JSON content type, the bearer
      header of the stored pair, then the caller's headers. */
  lemma {:induction false} FirstAttempt(slots: Slots, base: string, call: Call, server: seq<Reply>)
    requires AuthHeaders(slots).Ok?
    ensures var x := RequestRun(slots, base, call, server);
      x.sent != [] &&
      x.sent[0] == Attempt(call.verb, base + call.endpoint, JsonHeaders + AuthHeaders(slots).value + call.headers, call.body)
  {
    if server != [] && server[0].Reply? && server[0].status == 401 {
      var f := RefreshRun(slots, base, server[1..]);
      if f.outcome == Fulfilled(true) {
        var again := RequestRun(f.slots, base, call, f.rest);
        assert ([Attempt(call.verb, base + call.endpoint, JsonHeaders + AuthHeaders(slots).value + call.headers, call.body)] + f.sent + again.sent)[0]
          == Attempt(call.verb, base + call.endpoint, JsonHeaders + AuthHeaders(slots).value + call.headers, call.body);
      }
    }
  }

  /** The first request carries the JSON content type, the bearer header of
      the stored pair, and the caller's headers, which win on a clash: a
      caller's `Authorization` replaces the stored token's. */
  lemma HeaderPrecedence(slots: Slots, base: string, call: Call, server: seq<Reply>)
    requires AuthHeaders(slots).Ok?
    ensures var x := RequestRun(slots, base, call, server);
      && x.sent != []
      && x.sent[0].url == base + call.endpoint
      && (forall h :: h in call.headers ==> h in x.sent[0].headers && x.sent[0].headers[h] == call.headers[h])
      && ("Authorization" !in call.headers && Truthy(GetTokens(slots).value) ==>
            "Authorization" in x.sent[0].headers &&
            x.sent[0].headers["Authorization"] == Bearer(Render(Prop(GetTokens(slots).value, "access"))))
      && ("Authorization" !in call.headers && !Truthy(GetTokens(slots).value) ==>
            "Authorization" !in x.sent[0].headers)
      && ("Content-Type" !in call.headers ==> x.sent[0].headers["Content-Type"] == "application/json")
  {
    FirstAttempt(slots, base, call, server);
  }

  /** A malformed token entry is caught inside `request`'s `try`: nothing is
      sent and the result is the network error. */
  lemma MalformedTokensGiveNetworkError(slots: Slots, base: string, call: Call, server: seq<Reply>)
    requires TokensKey in slots && slots[TokensKey] == Malformed
    ensures RequestRun(slots, base, call, server) ==
      Exchange(Fulfilled(Failed(JStr(NetworkError))), slots, server, [])
  {
  }

  /** The single-reply outcomes that involve no refresh: a transport failure,
      a body that is not JSON (whatever the status), a 2xx reply, a non-2xx
      reply with a `null` body (reading its `message` throws, which is caught
      as a network error), and a non-2xx reply whose message is `message`,
      else `error`, else the generic text. None of them touches storage. */
  lemma SingleReply(slots: Slots, base: string, call: Call, reply: Reply, more: seq<Reply>)
    requires AuthHeaders(slots).Ok?
    requires reply.NoConnection? || reply.status != 401
    ensures var x := RequestRun(slots, base, call, [reply] + more);
      && x.slots == slots && x.rest == more && |x.sent| == 1
      && (reply.NoConnection? || reply.body.NotJson? ==> x.outcome == Fulfilled(Failed(JStr(NetworkError))))
      && (reply.Reply? && reply.body.Json? && IsOk(reply.status) ==>
            x.outcome == Fulfilled(Data(reply.body.value)))
      && (reply.Reply? && reply.body.Json? && !IsOk(reply.status) && reply.body.value == JNull ==>
            x.outcome == Fulfilled(Failed(JStr(NetworkError))))
      && (reply.Reply? && reply.body.Json? && !IsOk(reply.status) && reply.body.value != JNull ==>
            x.outcome == Fulfilled(Failed(Or(Prop(reply.body.value, "message"),
                                             Or(Prop(reply.body.value, "error"), JStr(GenericError))))))
  {
    assert ([reply] + more)[0] == reply && ([reply] + more)[1..] == more;
  }

  /** A 401 whose refresh fails clears the stored pair and answers
      "Authentication failed" without re-issuing the request. */
  lemma FailedRefreshLogsOut(slots: Slots, base: string, call: Call, body: Body, more: seq<Reply>)
    requires AuthHeaders(slots).Ok?
    requires RefreshRun(slots, base, more).outcome == Fulfilled(false)
    ensures var x := RequestRun(slots, base, call, [Reply(401, body)] + more);
      && x.outcome == Fulfilled(Failed(JStr(AuthFailed)))
      && GetTokens(x.slots) == Ok(JNull)
      && (forall k :: k != TokensKey ==> (k in x.slots <==> k in slots) && (k in slots ==> x.slots[k] == slots[k]))
      && |x.sent| == 1 + |RefreshRun(slots, base, more).sent|
  {
    assert ([Reply(401, body)] + more)[1..] == more;
  }

  /** A successful refresh stores the reply's access token beside the
      unchanged refresh token, and changes no other key. */
  lemma RefreshKeepsRefreshToken(slots: Slots, base: string, status: int, reply: JVal, more: seq<Reply>)
    requires GetTokens(slots).Ok? && Present(Prop(GetTokens(slots).value, "refresh"))
    requires IsOk(status) && reply != JNull
    ensures var x := RefreshRun(slots, base, [Reply(status, Json(reply))] + more);
      var pair := PairJson(TokenPair(Prop(reply, "access"), Prop(GetTokens(slots).value, "refresh")));
      && x.outcome == Fulfilled(true)
      && GetTokens(x.slots) == Ok(pair)
      && x.slots == slots[TokensKey := Text(pair)]
      && x.sent == [Attempt("POST", base + RefreshPath, JsonHeaders,
                            Some(JObj(map["refresh" := Prop(GetTokens(slots).value, "refresh").value])))]
      && x.rest == more
  {
    assert ([Reply(status, Json(reply))] + more)[1..] == more;
  }

  /** The stored pair holds a truthy refresh token. */
  predicate Refreshable(slots: Slots) {
    GetTokens(slots).Ok? && Present(Prop(GetTokens(slots).value, "refresh"))
  }

  /** `k` rounds of "401, then a successful refresh" in front of `tail`. */
  function Rounds(k: nat, access: string, tail: seq<Reply>): (s: seq<Reply>)
    ensures |s| == 2 * k + |tail|
  {
    if k == 0 then tail
    else [Reply(401, NotJson), Reply(200, Json(JObj(map["access" := JStr(access)])))] + Rounds(k - 1, access, tail)
  }

  /** The retry after a refresh is not bounded to one: while the server keeps
      answering 401 and the refresh keeps succeeding, the request is issued
      again, so `k` such rounds followed by a 2xx reply make `2k + 1` requests
      and still end with that reply's data. */
  lemma {:induction false} RetriesAreUnbounded(slots: Slots, base: string, call: Call, k: nat, access: string, d: JVal)
    requires Refreshable(slots)
    ensures var x := RequestRun(slots, base, call, Rounds(k, access, [Reply(200, Json(d))]));
      && x.outcome == Fulfilled(Data(d))
      && |x.sent| == 2 * k + 1
      && Refreshable(x.slots)
    decreases k
  {
    var server := Rounds(k, access, [Reply(200, Json(d))]);
    if k == 0 {
      assert server[1..] == [];
    } else {
      var reply := Reply(200, Json(JObj(map["access" := JStr(access)])));
      var tail := Rounds(k - 1, access, [Reply(200, Json(d))]);
      assert server[0] == Reply(401, NotJson);
      assert server[1..] == [reply] + tail;
      RefreshKeepsRefreshToken(slots, base, 200, reply.body.value, tail);
      var f := RefreshRun(slots, base, server[1..]);
      RetriesAreUnbounded(f.slots, base, call, k - 1, access, d);
    }
  }

  /** A server that answers every request with 401 while every refresh
      succeeds keeps the request going until it runs out of replies: the
      request never settles. */
  lemma {:induction false} EndlessUnauthorized(slots: Slots, base: string, call: Call, k: nat, access: string)
    requires Refreshable(slots)
    ensures RequestRun(slots, base, call, Rounds(k, access, [])).outcome == Pending
    decreases k
  {
    var server := Rounds(k, access, []);
    if k > 0 {
      var reply := Reply(200, Json(JObj(map["access" := JStr(access)])));
      var tail := Rounds(k - 1, access, []);
      assert server[0] == Reply(401, NotJson);
      assert server[1..] == [reply] + tail;
      RefreshKeepsRefreshToken(slots, base, 200, reply.body.value, tail);
      EndlessUnauthorized(RefreshRun(slots, base, server[1..]).slots, base, call, k - 1, access);
    }
  }

  /** After a 401 and a successful refresh, the re-issued request's reply is
      the answer, and storage holds the refreshed pair: the new access token
      beside the old refresh token, every other key as it was. */
  lemma RefreshedRetryStoresNewPair(slots: Slots, base: string, call: Call, access: string, d: JVal, more: seq<Reply>)
    requires Refreshable(slots)
    ensures var x := RequestRun(slots, base, call, Rounds(1, access, [Reply(200, Json(d))] + more));
      var pair := PairJson(TokenPair(Some(JStr(access)), Prop(GetTokens(slots).value, "refresh")));
      && x.outcome == Fulfilled(Data(d))
      && x.slots == slots[TokensKey := Text(pair)]
      && x.rest == more
  {
    var reply := Reply(200, Json(JObj(map["access" := JStr(access)])));
    var tail := [Reply(200, Json(d))] + more;
    var server := Rounds(1, access, tail);
    assert Rounds(0, access, tail) == tail;
    assert server == [Reply(401, NotJson), reply] + tail;
    assert server[1..] == [reply] + tail;
    RefreshKeepsRefreshToken(slots, base, 200, reply.body.value, tail);
    var f := RefreshRun(slots, base, server[1..]);
    assert Prop(reply.body.value, "access") == Some(JStr(access));
    assert GetTokens(f.slots).Ok?;
    SingleReply(f.slots, base, call, Reply(200, Json(d)), more);
  }

  /** The re-issued request carries the refreshed access token, unless the
      caller supplied its own `Authorization`. */
  lemma RetryUsesNewToken(slots: Slots, base: string, call: Call, access: string, more: seq<Reply>)
    requires AuthHeaders(slots).Ok? && Refreshable(slots)
    requires "Authorization" !in call.headers
    ensures var x := RequestRun(slots, base, call,
                                [Reply(401, NotJson), Reply(200, Json(JObj(map["access" := JStr(access)])))] + more);
      && |x.sent| >= 3
      && x.sent[1].url == base + RefreshPath
      && "Authorization" in x.sent[2].headers
      && x.sent[2].headers["Authorization"] == Bearer(access)
  {
    var reply := Reply(200, Json(JObj(map["access" := JStr(access)])));
    var server := [Reply(401, NotJson), reply] + more;
    assert server[1..] == [reply] + more;
    RefreshKeepsRefreshToken(slots, base, 200, reply.body.value, more);
    var f := RefreshRun(slots, base, server[1..]);
    var pair := TokenPair(Some(JStr(access)), Prop(GetTokens(slots).value, "refresh"));
    assert GetTokens(f.slots) == Ok(PairJson(pair));
    assert Prop(PairJson(pair), "access") == Some(JStr(access));
    assert server[0] == Reply(401, NotJson);
    var again := RequestRun(f.slots, base, call, f.rest);
    HeaderPrecedence(f.slots, base, call, f.rest);
    assert |f.sent| == 1 && f.outcome == Fulfilled(true);
    var x := RequestRun(slots, base, call, server);
    assert x.sent == [x.sent[0]] + f.sent + again.sent;
    assert x.sent[2] == again.sent[0];
  }
}
