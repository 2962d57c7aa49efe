/** The authentication state of the client (src/components/AuthProvider.tsx):
    the current user, the token pair mirrored from storage, the loading flag,
    and the operations that change them. */
module Session {
  import opened Js
  import opened LocalStore
  import opened Tokens
  import opened Http
  import opened Simulator
  import opened Api

  const LoginFailed := "Login failed"
  const RegistrationFailed := "Registration failed"

  class AuthProvider {
    const api: ApiService
    /** `null` until a profile or a session is adopted; `None` is `undefined`. */
    var user: Field
    /** The pair in use, mirrored from storage; `null` when signed out. */
    var tokens: JVal
    var isLoading: bool

    /** `!!tokens && !!user`. */
    predicate IsAuthenticated()
      reads this
    {
      Truthy(tokens) && Present(user)
    }

    /** The pair held in state is the one in storage. */
    predicate Synced()
      reads this, api.store
    {
      GetTokens(api.store.slots) == Ok(tokens)
    }

    /** What `login` and `register` leave behind once their API call has
        settled with `response`, the store then holding `mid`: a session
        with data is adopted (the pair stored and mirrored, the user set)
        and announced by reading the user's name, which raises when there is
        no user; anything else raises an error carrying the reply's error
        or the fallback text, and changes nothing. The loading flag drops
        whenever the call settled. */
    predicate Adopted(response: Settled<ApiResponse>, fallback: string, r: Settled<()>, mid: Slots, tokens0: JVal, user0: Field)
      reads this, api.store
    {
      match response
      case Pending =>
        r == Pending && isLoading && api.store.slots == mid && tokens == tokens0 && user == user0
      case Rejected(e) =>
        r == Rejected(e) && !isLoading && api.store.slots == mid && tokens == tokens0 && user == user0
      case Fulfilled(reply) =>
        && !isLoading
        && if reply.Data? && Truthy(reply.data) then
             var pair := TokenPair(Prop(reply.data, "access"), Prop(reply.data, "refresh"));
             && api.store.slots == mid[TokensKey := Text(PairJson(pair))]
             && tokens == PairJson(pair)
             && user == Prop(reply.data, "user")
             && r == (if user.None? || user.value == JNull then Rejected(TypeError) else Fulfilled(()))
           else
             && api.store.slots == mid && tokens == tokens0 && user == user0
             && r == Rejected(Failure(Show(Or(if reply.Failed? then Some(reply.error) else None, JStr(fallback)))))
    }

    /** Mounting reads the stored pair; a corrupt entry would make the very
        first render raise, so it is excluded. */
    constructor (api: ApiService)
      requires GetTokens(api.store.slots).Ok?
      ensures this.api == api && user == Some(JNull) && tokens == GetTokens(api.store.slots).value && isLoading
      ensures Synced() && !IsAuthenticated()
    {
      this.api := api;
      user := Some(JNull);
      tokens := GetTokens(api.store.slots).value;
      isLoading := true;
    }

    /** Applies a settled `login`/`register` reply. */
    method Adopt(response: Settled<ApiResponse>, fallback: string) returns (r: Settled<()>)
      requires isLoading
      modifies this, api.store
      ensures Adopted(response, fallback, r, old(api.store.slots), old(tokens), old(user))
    {
      match response {
        case Pending =>
          r := Pending;
        case Rejected(e) =>
          r := Rejected(e);
          isLoading := false;
        case Fulfilled(reply) =>
          if reply.Data? && Truthy(reply.data) {
            var pair := TokenPair(Prop(reply.data, "access"), Prop(reply.data, "refresh"));
            SetTokens(api.store, Some(pair));
            tokens := PairJson(pair);
            user := Prop(reply.data, "user");
            r := if user.None? || user.value == JNull then Rejected(TypeError) else Fulfilled(());
          } else {
            r := Rejected(Failure(Show(Or(if reply.Failed? then Some(reply.error) else None, JStr(fallback)))));
          }
          isLoading := false;
      }
    }

    /** The mount effect: with a stored pair the profile is fetched; a
        profile with data keeps the session, anything else clears the
        pair. A corrupt stored entry makes the effect raise before it
        changes anything, loading included. */
    method InitializeAuth(server: seq<Reply>) returns (r: Settled<()>, rest: seq<Reply>, sent: seq<Attempt>, response: Settled<ApiResponse>)
      modifies this, api.store
      ensures GetTokens(old(api.store.slots)).Throw? ==>
        r == Rejected(SyntaxError) && rest == server && sent == [] && isLoading == old(isLoading)
        && api.store.slots == old(api.store.slots) && tokens == old(tokens) && user == old(user)
      ensures GetTokens(old(api.store.slots)).Ok? && !Truthy(GetTokens(old(api.store.slots)).value) ==>
        r == Fulfilled(()) && rest == server && sent == [] && !isLoading
        && api.store.slots == old(api.store.slots) && tokens == old(tokens) && user == old(user)
      ensures GetTokens(old(api.store.slots)).Ok? && Truthy(GetTokens(old(api.store.slots)).value) ==>
        var stored := GetTokens(old(api.store.slots)).value;
        // the store once the profile call has settled (a refresh may have replaced the pair)
        var mid := if api.offline then old(api.store.slots)
                   else RequestRun(old(api.store.slots), api.baseURL, ProfileCall, server).slots;
        && (api.offline ==> response == Fulfilled(Data(Or(Some(Read(old(api.store.slots), ProfileKey)), MockUser)))
                            && rest == server && sent == [])
        && (!api.offline ==> var x := RequestRun(old(api.store.slots), api.baseURL, ProfileCall, server);
                             response == x.outcome && rest == x.rest && sent == x.sent)
        && (response.Pending? ==>
              r == Pending && isLoading == old(isLoading)
              && api.store.slots == mid && tokens == old(tokens) && user == old(user))
        && (response.Fulfilled? && response.value.Data? && Truthy(response.value.data) ==>
              r == Fulfilled(()) && !isLoading && user == Some(response.value.data) && tokens == stored
              && api.store.slots == mid)
        && (response.Rejected? || (response.Fulfilled? && !(response.value.Data? && Truthy(response.value.data))) ==>
              r == Fulfilled(()) && !isLoading && tokens == JNull && user == old(user)
              && api.store.slots == mid - {TokensKey})
      ensures api.offline && GetTokens(old(api.store.slots)).Ok? && Truthy(GetTokens(old(api.store.slots)).value) ==>
        r == Fulfilled(()) && IsAuthenticated() && Synced()
    {
      response := Pending;
      var stored := GetTokens(api.store.slots);
      if stored.Throw? {
        return Rejected(stored.error), server, [], response;
      }
      rest, sent := server, [];
      if Truthy(stored.value) {
        response, rest, sent := api.GetUserProfile(server);
        if response.Pending? {
          return Pending, rest, sent, response;
        }
        if response.Fulfilled? && response.value.Data? && Truthy(response.value.data) {
          user := Some(response.value.data);
          tokens := stored.value;
        } else {
          SetTokens(api.store, None);
          tokens := JNull;
        }
      }
      isLoading := false;
      r := Fulfilled(());
    }

    /** `login(username, password)`. Offline every login succeeds and
        leaves the client signed in as the name typed. */
    method Login(username: string, password: string, server: seq<Reply>)
      returns (r: Settled<()>, rest: seq<Reply>, sent: seq<Attempt>, response: Settled<ApiResponse>)
      modifies this, api.store
      ensures api.offline ==> response == Fulfilled(Data(SessionJson(LoginUser(username)))) && rest == server && sent == []
      ensures !api.offline ==> var x := RequestRun(old(api.store.slots), api.baseURL, LoginCall(username, password), server);
        response == x.outcome && rest == x.rest && sent == x.sent
      ensures Adopted(response, LoginFailed, r,
                      if api.offline then old(api.store.slots)
                      else RequestRun(old(api.store.slots), api.baseURL, LoginCall(username, password), server).slots,
                      old(tokens), old(user))
      ensures api.offline ==> r == Fulfilled(()) && IsAuthenticated() && Synced() && user == Some(LoginUser(username))
    {
      isLoading := true;
      response, rest, sent := api.Login(username, password, server);
      r := Adopt(response, LoginFailed);
    }

    /** `register(username, email, password)`. Offline every registration
        succeeds, signs the client in and stores the new user as the
        profile. */
    method Register(username: string, email: string, password: string, server: seq<Reply>)
      returns (r: Settled<()>, rest: seq<Reply>, sent: seq<Attempt>, response: Settled<ApiResponse>)
      modifies this, api.store
      ensures api.offline ==> response == Fulfilled(Data(SessionJson(RegisteredUser(username, email)))) && rest == server && sent == []
      ensures !api.offline ==> var x := RequestRun(old(api.store.slots), api.baseURL, RegisterCall(username, email, password), server);
        response == x.outcome && rest == x.rest && sent == x.sent
      ensures Adopted(response, RegistrationFailed, r,
                      if api.offline then old(api.store.slots)[ProfileKey := Text(RegisteredUser(username, email))]
                      else RequestRun(old(api.store.slots), api.baseURL, RegisterCall(username, email, password), server).slots,
                      old(tokens), old(user))
      ensures api.offline ==>
        (r == Fulfilled(()) && IsAuthenticated() && Synced()
         && user == Some(RegisteredUser(username, email)) && Read(api.store.slots, ProfileKey) == user.value)
    {
      isLoading := true;
      response, rest, sent := api.Register(username, email, password, server);
      r := Adopt(response, RegistrationFailed);
    }

    /** `logout()`: the pair is removed from storage and state, and the
        user dropped, so the client is signed out. */
    method Logout()
      modifies this, api.store
      ensures api.store.slots == old(api.store.slots) - {TokensKey}
      ensures tokens == JNull && user == Some(JNull) && isLoading == old(isLoading)
      ensures !IsAuthenticated() && Synced() && AuthHeaders(api.store.slots) == Ok(map[])
    {
      SetTokens(api.store, None);
      tokens := JNull;
      user := Some(JNull);
    }

    /** The context's `refreshToken()`: re-reads the stored pair into
        state; a corrupt entry signs the client out instead. */
    method RefreshToken()
      modifies this, api.store
      ensures GetTokens(old(api.store.slots)).Ok? ==>
        tokens == GetTokens(old(api.store.slots)).value && user == old(user) && api.store.slots == old(api.store.slots)
      ensures GetTokens(old(api.store.slots)).Throw? ==>
        tokens == JNull && user == Some(JNull) && api.store.slots == old(api.store.slots) - {TokensKey}
      ensures Synced() && isLoading == old(isLoading)
    {
      var current := GetTokens(api.store.slots);
      if current.Ok? {
        tokens := current.value;
      } else {
        Logout();
      }
    }
  }
}
