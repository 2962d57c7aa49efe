/** The persisted access/refresh token pair and the bearer header derived
    from it (src/lib/auth.ts). */
module Tokens {
  import opened Js
  import opened LocalStore

  /** The one key the pair is persisted under. */
  const TokensKey := "voicebridge_tokens"

  /** The `{access, refresh}` object a caller hands to `setTokens`; either
      field may be `undefined` when a server reply lacked it. */
  datatype TokenPair = TokenPair(access: Field, refresh: Field)

  /** The pair as `JSON.stringify` writes it (an `undefined` field is
      dropped) and `JSON.parse` reads it back. */
  function PairJson(p: TokenPair): (v: JVal)
    ensures Truthy(v)
    ensures Prop(v, "access") == p.access && Prop(v, "refresh") == p.refresh
  {
    var a := if p.access.Some? then map["access" := p.access.value] else map[];
    var r := if p.refresh.Some? then map["refresh" := p.refresh.value] else map[];
    JObj(a + r)
  }

  /** `getTokens()`: the parsed entry, `null` when the key is absent or its
      text is empty. Unlike `storage.get` it has no guard around the parse,
      so a malformed entry raises. */
  function GetTokens(slots: Slots): (r: Result<JVal>)
    ensures r.Throw? <==> TokensKey in slots && slots[TokensKey] == Malformed
    ensures r.Ok? ==> r.value == Read(slots, TokensKey)
  {
    if TokensKey !in slots then Ok(JNull)
    else match slots[TokensKey]
      case Text(v) => Ok(v)
      case Empty => Ok(JNull)
      case Malformed => Throw(SyntaxError)
  }

  /** `setTokens(tokens)`: writes the pair under its key, or removes the key
      when given `null`. Access and refresh are written and removed together,
      and no other key changes. */
  method SetTokens(store: LocalStorage, tokens: Option<TokenPair>)
    modifies store
    ensures tokens.Some? ==> store.slots == old(store.slots)[TokensKey := Text(PairJson(tokens.value))]
    ensures tokens.None? ==> store.slots == old(store.slots) - {TokensKey}
    ensures tokens.Some? ==> GetTokens(store.slots) == Ok(PairJson(tokens.value))
    ensures tokens.None? ==> GetTokens(store.slots) == Ok(JNull) && AuthHeaders(store.slots) == Ok(map[])
  {
    if tokens.Some? {
      store.Set(TokensKey, PairJson(tokens.value));
    } else {
      store.Remove(TokensKey);
    }
  }

  /** The header value of section 2.1 of RFC 6750. */
  function Bearer(access: string): string {
    "Bearer " + access
  }

  /** `getAuthHeaders()`: no header when no (truthy) pair is stored, else
      exactly an `Authorization` header carrying the stored access token. */
  function AuthHeaders(slots: Slots): (r: Result<map<string, string>>)
    ensures r.Throw? <==> GetTokens(slots).Throw?
    ensures r.Ok? && !Truthy(GetTokens(slots).value) ==> r.value == map[]
    ensures r.Ok? && Truthy(GetTokens(slots).value) ==>
      r.value == map["Authorization" := Bearer(Render(Prop(GetTokens(slots).value, "access")))]
  {
    match GetTokens(slots)
    case Throw(e) => Throw(e)
    case Ok(t) =>
      if Truthy(t) then Ok(map["Authorization" := Bearer(Render(Prop(t, "access")))]) else Ok(map[])
  }

  /** Storing a pair whose access token is a string yields exactly the bearer
      header for that token; clearing yields none. */
  lemma StoredPairHeader(slots: Slots, access: string, refresh: Field)
    ensures AuthHeaders(slots[TokensKey := Text(PairJson(TokenPair(Some(JStr(access)), refresh)))])
      == Ok(map["Authorization" := "Bearer " + access])
    ensures AuthHeaders(slots - {TokensKey}) == Ok(map[])
  {
  }
}
