/** The API client (src/lib/api.ts): the mode chosen at construction, the
    seeding of the offline store, and every endpoint in both modes. In the
    connected mode each endpoint goes through `request`, except the voice
    upload, which calls `fetch` itself; in the offline mode every endpoint is
    answered from the local store and never touches the network. */
module Api {
  import opened Js
  import opened JsText
  import opened LocalStore
  import opened Tokens
  import opened Http
  import opened Simulator
  import opened Paging

  // ------------------------------------------------------------ seeding

  /** One `if (!storage.get(key)) storage.set(key, value)`. */
  function Seed(slots: Slots, key: string, value: JVal): Slots {
    if Truthy(Read(slots, key)) then slots else slots[key := Text(value)]
  }

  /** `initializeMockData()` as a function of the store. */
  function Seeded(slots: Slots): Slots {
    Seed(Seed(Seed(slots, LessonsKey, JArr(MockLessons)), HistoryKey, JArr([])), ProfileKey, MockUser)
  }

  /** Seeding leaves every three offline keys readable as a truthy value:
      a key already holding a truthy value keeps it, any other (absent,
      empty, corrupt or falsy) gets the mock value, and no other key changes. */
  lemma SeededMeaning(slots: Slots)
    ensures forall k :: k in Seeded(slots) <==> k in slots || k == LessonsKey || k == HistoryKey || k == ProfileKey
    ensures forall k :: k in slots && k != LessonsKey && k != HistoryKey && k != ProfileKey ==> Seeded(slots)[k] == slots[k]
    ensures Read(Seeded(slots), LessonsKey) == if Truthy(Read(slots, LessonsKey)) then Read(slots, LessonsKey) else JArr(MockLessons)
    ensures Read(Seeded(slots), HistoryKey) == if Truthy(Read(slots, HistoryKey)) then Read(slots, HistoryKey) else JArr([])
    ensures Read(Seeded(slots), ProfileKey) == if Truthy(Read(slots, ProfileKey)) then Read(slots, ProfileKey) else MockUser
    ensures Truthy(Read(Seeded(slots), LessonsKey)) && Truthy(Read(Seeded(slots), HistoryKey)) && Truthy(Read(Seeded(slots), ProfileKey))
  {
  }

  /** Seeding twice is seeding once: a store the client has already
      written to is never reset by a later start. */
  lemma SeededIdempotent(slots: Slots)
    ensures Seeded(Seeded(slots)) == Seeded(slots)
  {
    SeededMeaning(slots);
  }

  /** `initializeMockData()`. */
  method InitializeMockData(store: LocalStorage)
    modifies store
    ensures store.slots == Seeded(old(store.slots))
  {
    var lessons := store.Get(LessonsKey);
    if !Truthy(lessons) {
      store.Set(LessonsKey, JArr(MockLessons));
    }
    var history := store.Get(HistoryKey);
    if !Truthy(history) {
      store.Set(HistoryKey, JArr([]));
    }
    var profile := store.Get(ProfileKey);
    if !Truthy(profile) {
      store.Set(ProfileKey, MockUser);
    }
  }

  // ----------------------------------------------------- offline replies

  const MockAccess := "mock-access-token"
  const MockRefresh := "mock-refresh-token"

  /** `{access, refresh, user}` as the offline login and registration
      return it. */
  function SessionJson(user: JVal): JVal {
    JObj(map["access" := JStr(MockAccess), "refresh" := JStr(MockRefresh), "user" := user])
  }

  /** `{...MOCK_USER, username}`. */
  function LoginUser(username: string): JVal {
    JObj(MockUserFields["username" := JStr(username)])
  }

  /** `{...MOCK_USER, username, email}`. */
  function RegisteredUser(username: string, email: string): JVal {
    JObj(MockUserFields["username" := JStr(username)]["email" := JStr(email)])
  }

  /** The offline session always carries both tokens and a user, the one
      typed in and otherwise the demo user. */
  lemma OfflineSessionShape(username: string, email: string)
    ensures var s := SessionJson(LoginUser(username));
      && Truthy(s)
      && Prop(s, "access") == Some(JStr(MockAccess)) && Prop(s, "refresh") == Some(JStr(MockRefresh))
      && Prop(Prop(s, "user").value, "username") == Some(JStr(username))
      && Prop(Prop(s, "user").value, "email") == Some(JStr("demo@voicebridge.app"))
      && Prop(Prop(s, "user").value, "id") == Some(JStr("mock-user-1"))
    ensures var u := RegisteredUser(username, email);
      && Prop(u, "username") == Some(JStr(username)) && Prop(u, "email") == Some(JStr(email))
      && Prop(u, "id") == Some(JStr("mock-user-1"))
  {
  }

  /** The stored log `storage.get(key) || []`, or nothing when `unshift`
      would raise on it. */
  function StoredLog(slots: Slots): Option<seq<JVal>> {
    var log := Or(Some(Read(slots, HistoryKey)), JArr([]));
    if log.JArr? then Some(log.items) else None
  }

  /** The history record of an offline voice upload. */
  function VoiceRecord(pick: Pick, stamp: Stamp, language: string, category: Option<string>): JVal {
    var c := VoiceReplies[pick];
    RecordJson(stamp, c.query, c.response, language, OrText(category, c.category))
  }

  /** The history record of an offline text query. */
  function TextRecord(stamp: Stamp, text: string, language: string, category: Option<string>): JVal {
    var c := Classify(text, category);
    RecordJson(stamp, text, c.reply, language, c.category)
  }

  // ------------------------------------------------ connected-mode calls

  function LoginCall(username: string, password: string): Call {
    Call("POST", "/api/auth/login/", map[], Some(JObj(map["username" := JStr(username), "password" := JStr(password)])))
  }

  function RegisterCall(username: string, email: string, password: string): Call {
    Call("POST", "/api/auth/register/", map[],
         Some(JObj(map["username" := JStr(username), "email" := JStr(email), "password" := JStr(password)])))
  }

  const ProfileCall := Call("GET", "/api/user/profile/", map[], None)

  function UpdateCall(data: JVal): Call {
    Call("PUT", "/api/user/profile/", map[], Some(data))
  }

  /** `JSON.stringify({text, language, category})`: an `undefined` category
      is dropped. */
  function QueryCall(text: string, language: string, category: Option<string>): Call {
    var fields := map["text" := JStr(text), "language" := JStr(language)];
    Call("POST", "/api/assistant/query", map[],
         Some(JObj(if category.Some? then fields["category" := JStr(category.value)] else fields)))
  }

  function LessonsCall(language: Option<string>, category: Option<string>, search: Option<string>, page: int): Call {
    Call("GET", LessonsEndpoint(language, category, search, page), map[], None)
  }

  function HistoryCall(page: int): Call {
    Call("GET", HistoryEndpoint(page), map[], None)
  }

  /** The text fields of the voice upload form (the audio file itself is
      not modelled); the category is sent only when non-empty. */
  function VoiceForm(language: string, category: Option<string>): JVal {
    var fields := map["language" := JStr(language)];
    JObj(if category.Some? && category.value != "" then fields["category" := JStr(category.value)] else fields)
  }

  /** The connected voice upload. It bypasses `request`: it sends only the
      bearer header (no content type, no refresh on 401), reads the stored
      pair outside its `try` so a malformed entry rejects, rejects when the
      connection fails or the body is not JSON, and otherwise returns the
      body whatever the status. */
  function VoiceRun(slots: Slots, base: string, language: string, category: Option<string>, server: seq<Reply>): (x: Exchange<JVal>)
    ensures x.slots == slots && |x.sent| <= 1
    ensures x.outcome.Rejected? && x.sent == [] <==> GetTokens(slots).Throw?
    ensures x.sent != [] ==> x.sent[0].headers == AuthHeaders(slots).value
    ensures x.outcome.Fulfilled? <==> GetTokens(slots).Ok? && server != [] && server[0].Reply? && server[0].body.Json?
  {
    match GetTokens(slots)
    case Throw(e) => Exchange(Rejected(e), slots, server, [])
    case Ok(t) =>
      var headers := if Truthy(t) then map["Authorization" := Bearer(Render(Prop(t, "access")))] else map[];
      var attempt := Attempt("POST", base + "/api/assistant/voice-upload", headers, Some(VoiceForm(language, category)));
      if server == [] then Exchange(Pending, slots, server, [attempt])
      else match server[0]
        case NoConnection => Exchange(Rejected(TypeError), slots, server[1..], [attempt])
        case Reply(_, NotJson) => Exchange(Rejected(SyntaxError), slots, server[1..], [attempt])
        case Reply(_, Json(v)) => Exchange(Fulfilled(v), slots, server[1..], [attempt])
  }

  /** A 401 reaches the voice upload's caller as an ordinary body: the
      stored tokens are neither refreshed nor cleared. */
  lemma VoiceIgnoresUnauthorized(slots: Slots, base: string, language: string, category: Option<string>, d: JVal, more: seq<Reply>)
    requires GetTokens(slots).Ok?
    ensures VoiceRun(slots, base, language, category, [Reply(401, Json(d))] + more)
      == Exchange(Fulfilled(d), slots, more, VoiceRun(slots, base, language, category, [Reply(401, Json(d))] + more).sent)
  {
    assert ([Reply(401, Json(d))] + more)[1..] == more;
  }

  // ------------------------------------------------------------ service

  class ApiService {
    const store: LocalStorage
    const baseURL: string
    /** Fixed at construction; every endpoint branches on it. */
    const offline: bool

    /** The run `x` is what the call just did: its outcome, the store it
        left, the replies it left and the requests it made. */
    predicate Did<T(==)>(x: Exchange<T>, r: Settled<T>, rest: seq<Reply>, sent: seq<Attempt>)
      reads store
    {
      r == x.outcome && store.slots == x.slots && rest == x.rest && sent == x.sent
    }

    /** The client runs offline exactly when no base URL is configured or
        it is blank, and only then seeds the store. */
    constructor (store: LocalStorage, baseURL: string)
      modifies store
      ensures this.store == store && this.baseURL == baseURL
      ensures offline <==> Blank(baseURL)
      ensures offline ==> store.slots == Seeded(old(store.slots))
      ensures !offline ==> store.slots == old(store.slots)
    {
      this.store := store;
      this.baseURL := baseURL;
      this.offline := baseURL == "" || Trim(baseURL) == "";
      new;
      if offline {
        InitializeMockData(store);
      }
    }

    /** `request(endpoint, options)`. */
    method Request(call: Call, server: seq<Reply>) returns (r: Settled<ApiResponse>, rest: seq<Reply>, sent: seq<Attempt>)
      modifies store
      ensures Did(RequestRun(old(store.slots), baseURL, call, server), r, rest, sent)
      decreases |server|
    {
      var auth := AuthHeaders(store.slots);
      if auth.Throw? {
        return Fulfilled(Failed(JStr(NetworkError))), server, [];
      }
      var attempt := Attempt(call.verb, baseURL + call.endpoint, JsonHeaders + auth.value + call.headers, call.body);
      if server == [] {
        return Pending, server, [attempt];
      }
      sent := [attempt];
      rest := server[1..];
      match server[0] {
        case NoConnection =>
          r := Fulfilled(Failed(JStr(NetworkError)));
        case Reply(status, body) =>
          if status == 401 {
            var refreshed, left, more := RefreshToken(server[1..]);
            sent := sent + more;
            rest := left;
            if refreshed == Fulfilled(true) {
              var again, left2, more2 := Request(call, left);
              r, rest, sent := again, left2, sent + more2;
            } else if refreshed == Fulfilled(false) {
              SetTokens(store, None);
              r := Fulfilled(Failed(JStr(AuthFailed)));
            } else if refreshed.Rejected? {
              r := Fulfilled(Failed(JStr(NetworkError)));
            } else {
              r := Pending;
            }
          } else if body.NotJson? {
            r := Fulfilled(Failed(JStr(NetworkError)));
          } else if IsOk(status) {
            r := Fulfilled(Data(body.value));
          } else if body.value == JNull {
            r := Fulfilled(Failed(JStr(NetworkError)));
          } else {
            var d := body.value;
            r := Fulfilled(Failed(Or(Prop(d, "message"), Or(Prop(d, "error"), JStr(GenericError)))));
          }
      }
    }

    /** `refreshToken()`. */
    method RefreshToken(server: seq<Reply>) returns (r: Settled<bool>, rest: seq<Reply>, sent: seq<Attempt>)
      modifies store
      ensures Did(RefreshRun(old(store.slots), baseURL, server), r, rest, sent)
    {
      var tokens := GetTokens(store.slots);
      if tokens.Throw? {
        return Rejected(tokens.error), server, [];
      }
      var refresh := Prop(tokens.value, "refresh");
      if !Present(refresh) {
        return Fulfilled(false), server, [];
      }
      sent := [Attempt("POST", baseURL + RefreshPath, JsonHeaders, Some(JObj(map["refresh" := refresh.value])))];
      if server == [] {
        return Pending, server, sent;
      }
      rest := server[1..];
      r := Fulfilled(false);
      if server[0].Reply? && IsOk(server[0].status) && server[0].body.Json? && server[0].body.value != JNull {
        SetTokens(store, Some(TokenPair(Prop(server[0].body.value, "access"), refresh)));
        r := Fulfilled(true);
      }
    }

    /** `login(username, password)`: offline, any credentials succeed with
        the mock tokens and the demo user renamed. */
    method Login(username: string, password: string, server: seq<Reply>) returns (r: Settled<ApiResponse>, rest: seq<Reply>, sent: seq<Attempt>)
      modifies store
      ensures offline ==> Did(Exchange(Fulfilled(Data(SessionJson(LoginUser(username)))), old(store.slots), server, []), r, rest, sent)
      ensures !offline ==> Did(RequestRun(old(store.slots), baseURL, LoginCall(username, password), server), r, rest, sent)
    {
      if offline {
        return Fulfilled(Data(SessionJson(LoginUser(username)))), server, [];
      }
      r, rest, sent := Request(LoginCall(username, password), server);
    }

    /** `register(username, email, password)`: offline, it also stores the
        new user as the profile, which a later profile read returns. */
    method Register(username: string, email: string, password: string, server: seq<Reply>) returns (r: Settled<ApiResponse>, rest: seq<Reply>, sent: seq<Attempt>)
      modifies store
      ensures offline ==> Did(Exchange(Fulfilled(Data(SessionJson(RegisteredUser(username, email)))),
                                       old(store.slots)[ProfileKey := Text(RegisteredUser(username, email))], server, []), r, rest, sent)
      ensures offline ==> Or(Some(Read(store.slots, ProfileKey)), MockUser) == RegisteredUser(username, email)
      ensures !offline ==> Did(RequestRun(old(store.slots), baseURL, RegisterCall(username, email, password), server), r, rest, sent)
    {
      if offline {
        var user := RegisteredUser(username, email);
        store.Set(ProfileKey, user);
        return Fulfilled(Data(SessionJson(user))), server, [];
      }
      r, rest, sent := Request(RegisterCall(username, email, password), server);
    }

    /** `getUserProfile()`: offline, the stored profile, or the demo user
        when none (or a falsy value) is stored. */
    method GetUserProfile(server: seq<Reply>) returns (r: Settled<ApiResponse>, rest: seq<Reply>, sent: seq<Attempt>)
      modifies store
      ensures offline ==> Did(Exchange(Fulfilled(Data(Or(Some(Read(old(store.slots), ProfileKey)), MockUser))), old(store.slots), server, []), r, rest, sent)
      ensures offline ==> r.value.data.JObj? || Truthy(Read(old(store.slots), ProfileKey))
      ensures !offline ==> Did(RequestRun(old(store.slots), baseURL, ProfileCall, server), r, rest, sent)
    {
      if offline {
        var profile := store.Get(ProfileKey);
        return Fulfilled(Data(Or(Some(profile), MockUser))), server, [];
      }
      r, rest, sent := Request(ProfileCall, server);
    }

    /** `updateUserProfile(data)`: offline, a shallow merge of the patch
        over the current profile, stored and returned, so that the next
        profile read returns exactly the merge. */
    method UpdateUserProfile(data: JVal, server: seq<Reply>) returns (r: Settled<ApiResponse>, rest: seq<Reply>, sent: seq<Attempt>)
      modifies store
      ensures offline ==>
        var merged := Merged(Or(Some(Read(old(store.slots), ProfileKey)), MockUser), data);
        Did(Exchange(Fulfilled(Data(merged)), old(store.slots)[ProfileKey := Text(merged)], server, []), r, rest, sent)
      ensures offline ==> r.Fulfilled? && r.value.Data? && Or(Some(Read(store.slots, ProfileKey)), MockUser) == r.value.data
      ensures !offline ==> Did(RequestRun(old(store.slots), baseURL, UpdateCall(data), server), r, rest, sent)
    {
      if offline {
        var current := store.Get(ProfileKey);
        var merged := Merged(Or(Some(current), MockUser), data);
        store.Set(ProfileKey, merged);
        return Fulfilled(Data(merged)), server, [];
      }
      r, rest, sent := Request(UpdateCall(data), server);
    }

    /** `voiceUpload(file, language, category)`. Offline, the canned reply
        `pick` (the random draw) is returned directly, not wrapped in
        `{data}`, and logged at the head of the history; a stored history
        that is not an array makes `unshift` raise. */
    method VoiceUpload(language: string, category: Option<string>, pick: Pick, stamp: Stamp, server: seq<Reply>)
      returns (r: Settled<JVal>, rest: seq<Reply>, sent: seq<Attempt>)
      modifies store
      ensures offline && StoredLog(old(store.slots)).Some? ==>
        var c := VoiceReplies[pick];
        var log := Logged(VoiceRecord(pick, stamp, language, category), StoredLog(old(store.slots)).value);
        Did(Exchange(Fulfilled(JObj(map["query" := JStr(c.query), "response" := JStr(c.response)])),
                     old(store.slots)[HistoryKey := Text(JArr(log))], server, []), r, rest, sent)
      ensures offline && StoredLog(old(store.slots)).None? ==> Did(Exchange(Rejected(TypeError), old(store.slots), server, []), r, rest, sent)
      ensures !offline ==> Did(VoiceRun(old(store.slots), baseURL, language, category, server), r, rest, sent)
    {
      if offline {
        var c := VoiceReplies[pick];
        var history := store.Get(HistoryKey);
        var log := Or(Some(history), JArr([]));
        if !log.JArr? {
          return Rejected(TypeError), server, [];
        }
        store.Set(HistoryKey, JArr(Logged(VoiceRecord(pick, stamp, language, category), log.items)));
        return Fulfilled(JObj(map["query" := JStr(c.query), "response" := JStr(c.response)])), server, [];
      }
      var tokens := GetTokens(store.slots);
      if tokens.Throw? {
        return Rejected(tokens.error), server, [];
      }
      var headers := if Truthy(tokens.value) then map["Authorization" := Bearer(Render(Prop(tokens.value, "access")))] else map[];
      sent := [Attempt("POST", baseURL + "/api/assistant/voice-upload", headers, Some(VoiceForm(language, category)))];
      if server == [] {
        return Pending, server, sent;
      }
      rest := server[1..];
      match server[0] {
        case NoConnection => r := Rejected(TypeError);
        case Reply(_, body) =>
          r := if body.NotJson? then Rejected(SyntaxError) else Fulfilled(body.value);
      }
    }

    /** `textQuery(text, language, category)`: offline, the keyword
        classification answers, and the exchange is logged at the head of
        the history. */
    method TextQuery(text: string, language: string, category: Option<string>, stamp: Stamp, server: seq<Reply>)
      returns (r: Settled<ApiResponse>, rest: seq<Reply>, sent: seq<Attempt>)
      modifies store
      ensures offline && StoredLog(old(store.slots)).Some? ==>
        var log := Logged(TextRecord(stamp, text, language, category), StoredLog(old(store.slots)).value);
        Did(Exchange(Fulfilled(Data(JObj(map["query" := JStr(text), "response" := JStr(Classify(text, category).reply)]))),
                     old(store.slots)[HistoryKey := Text(JArr(log))], server, []), r, rest, sent)
      ensures offline && StoredLog(old(store.slots)).None? ==> Did(Exchange(Rejected(TypeError), old(store.slots), server, []), r, rest, sent)
      ensures !offline ==> Did(RequestRun(old(store.slots), baseURL, QueryCall(text, language, category), server), r, rest, sent)
    {
      if offline {
        var c := Classify(text, category);
        var history := store.Get(HistoryKey);
        var log := Or(Some(history), JArr([]));
        if !log.JArr? {
          return Rejected(TypeError), server, [];
        }
        store.Set(HistoryKey, JArr(Logged(RecordJson(stamp, text, c.reply, language, c.category), log.items)));
        return Fulfilled(Data(JObj(map["query" := JStr(text), "response" := JStr(c.reply)]))), server, [];
      }
      r, rest, sent := Request(QueryCall(text, language, category), server);
    }

    /** `getLessons(language, category, searchQuery, page)`. */
    method GetLessons(language: Option<string>, category: Option<string>, search: Option<string>, page: int, server: seq<Reply>)
      returns (r: Settled<ApiResponse>, rest: seq<Reply>, sent: seq<Attempt>)
      modifies store
      ensures offline ==>
        var p := LessonsPage(Read(old(store.slots), LessonsKey), language, category, search, page);
        Did(Exchange(if p.Ok? then Fulfilled(Data(PageJson(p.value))) else Rejected(p.error), old(store.slots), server, []), r, rest, sent)
      ensures !offline ==> Did(RequestRun(old(store.slots), baseURL, LessonsCall(language, category, search, page), server), r, rest, sent)
    {
      if offline {
        var stored := store.Get(LessonsKey);
        var p := LessonsPage(stored, language, category, search, page);
        r := if p.Ok? then Fulfilled(Data(PageJson(p.value))) else Rejected(p.error);
        return r, server, [];
      }
      r, rest, sent := Request(LessonsCall(language, category, search, page), server);
    }

    /** `getQueryHistory(page)`. */
    method GetQueryHistory(page: int, server: seq<Reply>) returns (r: Settled<ApiResponse>, rest: seq<Reply>, sent: seq<Attempt>)
      modifies store
      ensures offline ==>
        var p := HistoryPage(Read(old(store.slots), HistoryKey), page);
        Did(Exchange(if p.Ok? then Fulfilled(Data(PageJson(p.value))) else Rejected(p.error), old(store.slots), server, []), r, rest, sent)
      ensures !offline ==> Did(RequestRun(old(store.slots), baseURL, HistoryCall(page), server), r, rest, sent)
    {
      if offline {
        var stored := store.Get(HistoryKey);
        var p := HistoryPage(stored, page);
        r := if p.Ok? then Fulfilled(Data(PageJson(p.value))) else Rejected(p.error);
        return r, server, [];
      }
      r, rest, sent := Request(HistoryCall(page), server);
    }
  }
}
