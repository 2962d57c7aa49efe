# VoiceBridge client data layer in Dafny

This project models the data-access and session layer of the VoiceBridge web
client and proves properties about it:

- **The API client** (`src/lib/api.ts`). It has two modes, fixed when it is
  constructed. In the offline mode every endpoint is answered from the
  browser's local store, which is seeded with mock data. In the connected mode
  every endpoint except the voice upload goes through `request`, which:
  - adds the JSON content type and the bearer header;
  - on a 401, refreshes the token and retries;
  - turns every failure into an `{error}` reply.

  The connected voice upload calls `fetch` itself. It sends only the bearer
  header, does not refresh on a 401, and hands back whatever JSON body arrives.
- **The token helpers** (`src/lib/auth.ts`). They read and write the persisted
  access/refresh pair and build the `Authorization: Bearer` header of section
  2.1 of RFC 6750.
- **The authentication provider** (`src/components/AuthProvider.tsx`). It
  holds the user, the token pair and the loading flag. It restores the session
  on mount and implements login, registration, logout and the token re-read.
- **The sign-up form rules** (`src/pages/Register.tsx`): the ordered
  validation, the email pattern and the password-strength score with its
  labels.

How the model is built:

- **The browser store** is a class, `LocalStore.LocalStorage`, whose `slots`
  map the methods update in place.
- **The API client and the provider** are classes whose methods change the
  store and their own fields.
- **The network** is a sequence of replies. Each `fetch` consumes one reply. A
  connection failure is a reply of its own. When the sequence runs out, the
  `fetch` never settles and the promise stays pending.
- **Every connected call** is specified by a function. `Http.RequestRun`,
  `Http.RefreshRun` and `Api.VoiceRun` give the outcome, the store afterwards,
  the replies left and the requests sent. The methods are proved to do exactly
  what these functions say.
- **The offline simulation** is pure functions in `Simulator` and `Paging`:
  keyword classification, the capped history log, the shallow profile merge,
  filters and page windows.
- **Values** are JSON values (`Js.JVal`). `undefined` is the `None` of an
  `Option`. JavaScript truthiness, `||`, property reads, spread and `String()`
  are written out in `Js`. `trim`, `\s`, `toLowerCase` and `includes` are
  written out in `JsText`.

In these places the code behaves as follows, and the model follows it:

- The retry after a successful refresh is not limited to one. `request` calls
  itself again, so a server that keeps answering 401 while refreshes succeed
  never settles (`Http.RetriesAreUnbounded`, `Http.EndlessUnauthorized`).
- A category passed to an offline text query does not override the keywords.
  It only counts in its own place in the health, education, finance,
  entertainment order (`Simulator.HealthKeywordWins`).
- A non-JSON error body does not produce the generic "An error occurred". The
  failing `response.json()` is caught, and the caller gets "Network error
  occurred" (`Http.SingleReply`).
- The caller's own headers are spread last, so they override the bearer header
  (`Http.HeaderPrecedence`).
- Page numbers are not validated. Page 0 is empty, and negative pages read
  from the end of the collection, because `slice` takes negative offsets from
  the end (`Paging.NonPositivePages`).
- After `initializeAuth`, the provider keeps the pair it read before the
  profile call. It does so even when that call refreshed the stored pair, so
  state and storage can differ (`Session.AuthProvider.InitializeAuth` together
  with `Http.RefreshedRetryStoresNewPair`).
- The username length rule counts the untrimmed name, but the trimmed name is
  what gets submitted. So `"  a"` passes validation and registers `"a"`
  (`Registration.PaddedShortUsername`).

## Model

| member | source | states |
|---|---|---|
| JsText.Trim | src/lib/api.ts:110 | `trim()` yields the slice of its input left once the white space at both ends is dropped: what it drops is blank, it neither starts nor ends with white space, and it is empty exactly when the input is blank |
| JsText.TrimNoSpace | src/lib/api.ts:110 | text without white space is its own trim |
| JsText.Lower | src/lib/api.ts:316 | `toLowerCase()` keeps the length and lowers every ASCII capital in place |
| JsText.ContainsIff | src/lib/api.ts:320 | `Contains`, the model of `includes`, finds a substring exactly when it occurs at some offset |
| JsText.MissingChar | src/lib/api.ts:320 | a keyword with a character the query lacks is not included in it |
| LocalStore.LocalStorage.constructor | src/lib/api.ts:60-83 | the store starts with the given entries |
| LocalStore.LocalStorage.Get | src/lib/api.ts:61-68 | `storage.get` never raises: it returns `Read` of the entries, which is the parsed value, and `null` for a missing, empty or corrupt entry |
| LocalStore.LocalStorage.Set | src/lib/api.ts:69-75 | `storage.set` replaces exactly that key, which then reads back as the value written |
| LocalStore.LocalStorage.Remove | src/lib/api.ts:76-82 | `storage.remove` drops exactly that key, which then reads as `null` |
| Tokens.PairJson | src/lib/auth.ts:46-52 | a stored pair is a truthy object whose `access` and `refresh` read back as given, `undefined` fields dropped |
| Tokens.GetTokens | src/lib/auth.ts:41-44 | `getTokens` raises exactly on a corrupt entry, and otherwise returns what `storage.get` would |
| Tokens.SetTokens | src/lib/auth.ts:46-52 | `setTokens` writes the pair under its key or removes the key, changes no other key, and `getTokens` then returns the pair or `null` |
| Tokens.StoredPairHeader | src/lib/auth.ts:46-57 | `getAuthHeaders` after `setTokens`: storing a pair whose access token is a string gives exactly its bearer header, and clearing gives none |
| Http.RefreshRun | src/lib/api.ts:161-182 | `refreshToken`: at most one request; it rejects exactly on a corrupt pair; without a refresh token it answers false without a request; with one it hangs exactly when no reply comes, and answers true exactly when the reply is 2xx with a non-null JSON body, the store then holding the reply's access token beside the old refresh token; on every other answer the store is unchanged |
| Http.RefreshFailsOnBadReply | src/lib/api.ts:172-181 | with a refresh token stored, a connection failure, a non-2xx reply, a body that is not JSON or a `null` body answers false after one POST to the refresh path, and storage is unchanged |
| Http.RequestRun | src/lib/api.ts:118-159 | `request` never consumes more replies than the server has |
| Http.RequestNeverRejects | src/lib/api.ts:118-159 | `request` never rejects, and every error it returns is a truthy value |
| Http.FirstAttempt | src/lib/api.ts:122-132 | the first request goes to base URL plus endpoint, with the caller's verb and body |
| Http.HeaderPrecedence | src/lib/api.ts:127-131 | the first request carries the JSON content type, then the bearer header, then the caller's headers, each later one winning |
| Http.MalformedTokensGiveNetworkError | src/lib/api.ts:124-158 | a corrupt stored pair yields "Network error occurred" with no request and nothing consumed |
| Http.SingleReply | src/lib/api.ts:148-157 | a reply that is not a 401 is answered in one exchange: data when ok; otherwise `message`, else `error`, else "An error occurred"; a network error when the body is not JSON, when a non-2xx body is `null` (reading its `message` throws), or when the connection failed |
| Http.FailedRefreshLogsOut | src/lib/api.ts:134-145 | a 401 whose refresh fails clears the stored pair and answers "Authentication failed" |
| Http.RefreshKeepsRefreshToken | src/lib/api.ts:172-175 | a successful refresh stores the reply's access token next to the old refresh token and changes no other key |
| Http.RefreshedRetryStoresNewPair | src/lib/api.ts:134-139 | after a 401 and a successful refresh, the retried request's reply is the answer and storage holds the new access token beside the old refresh token, every other key unchanged |
| Http.RetriesAreUnbounded | src/lib/api.ts:134-139 | after any number of 401-then-refresh rounds, the request still ends with the data of the final ok reply |
| Http.EndlessUnauthorized | src/lib/api.ts:134-139 | a server that answers every request with 401 while every refresh succeeds leaves the request pending |
| Http.RetryUsesNewToken | src/lib/api.ts:136-139 | the re-issued request carries the refreshed access token |
| Simulator.MentionsIff | src/lib/api.ts:320-331 | a topic's keyword test holds exactly when some keyword occurs in the lowered query |
| Simulator.FirstHitSpec | src/lib/api.ts:320-332 | the if-chain picks the earliest matching topic, and none exactly when no topic matches |
| Simulator.ClassifyFirstMatch | src/lib/api.ts:316-332 | `Classify`: the first topic in priority order that matches decides both the reply and the category |
| Simulator.ClassifyNoMatch | src/lib/api.ts:313-318 | `Classify` with no match: the reply quotes the query, and the category is the supplied non-empty one or "general" |
| Simulator.HealthKeywordWins | src/lib/api.ts:320-322 | a health keyword makes a health query whatever category is supplied |
| Simulator.SickBeforeLoan | src/lib/api.ts:320-328 | "I feel sick and need a loan", in any casing, is a health query |
| Simulator.SaveMoneyIsFinance | src/lib/api.ts:326-328 | "How do I save money?", in any casing, is a finance query |
| Simulator.Logged | src/lib/api.ts:276-277 | `unshift` then `slice(0, 100)`: the new entry first, the older ones after it in order, at most 100 in all |
| Simulator.LogAllKeepsNewest | src/lib/api.ts:350-351 | after any run of submissions the log is the newest entries, newest first, followed by the older log and cut to 100; after 100 or more it is exactly the last 100 reversed |
| Simulator.Merged | src/lib/api.ts:236 | `{...current, ...data}`: the patch's keys win, the other current keys stay, and there are no other keys |
| Simulator.NestedProfileReplaced | src/lib/api.ts:236 | a patched nested `profile` replaces the stored one whole |
| Paging.SliceWithin | src/lib/api.ts:387 | `Slice` with offsets from 0 clamps both to the length: the entries between them that exist |
| Paging.SliceFromEnd | src/lib/api.ts:387 | `Slice` counts negative offsets back from the end: `slice(-k)` is the last k entries |
| Paging.Paginate | src/lib/api.ts:385-396 | a page exists exactly when the stored value can be sliced (an array or a string) |
| Paging.PageWindow | src/lib/api.ts:385-396 | page n ≥ 1 holds the entries from (n-1)·size to n·size that exist, counts all entries, links next exactly when entries remain, and links previous exactly from page 2 |
| Paging.PastTheEnd | src/lib/api.ts:387-394 | a page past the end is empty with no next link |
| Paging.NonPositivePages | src/lib/api.ts:385-387 | page 0 is empty, and when there are at least two full windows page -1 is the second-to-last one |
| Paging.PagesCover | src/lib/api.ts:385-387 | reading pages 1..k yields the first k·size entries in order, with no gaps or repeats |
| Paging.LastPageCovers | src/lib/api.ts:385-387 | the pages up to ⌈n/size⌉ hold the whole collection |
| Paging.LastPage | src/lib/api.ts:393 | page ⌈n/size⌉ is the first with no next link |
| Paging.SearchMeaning | src/lib/api.ts:376-381 | the search keeps a lesson exactly when its title or body contains the query, ignoring ASCII case |
| Paging.TitleMatchIgnoresBody | src/lib/api.ts:378-379 | a title match does not read the body |
| Paging.KeptMeaning | src/lib/api.ts:369-381 | `Kept` (`filter`) raises exactly when the callback raises on some lesson; otherwise it keeps exactly the lessons the callback accepts, each as often as it is stored, in stored order |
| Paging.ChainMeaning | src/lib/api.ts:369-381 | `Chain`, the successive filters, keeps a lesson exactly when every one accepts it, as often as it is stored, in stored order |
| Paging.ActiveFilters | src/lib/api.ts:369-376 | a language or category filter applies exactly when the choice is given and not "all"; the search applies exactly when it is non-empty; no other filter applies, and each applies at most once |
| Paging.LessonsPageMeaning | src/lib/api.ts:362-397 | `LessonsPage`, the offline catalogue page, is the window of 6 over exactly the lessons every chosen filter accepts, each as often as it is stored, in stored order |
| Paging.HistoryPageMeaning | src/lib/api.ts:425-440 | `HistoryPage` exists exactly when the stored log is falsy (read as empty), an array or a string; on an array, page n ≥ 1 holds entries (n-1)·20 to n·20 and counts the whole log |
| Paging.EmptyHistory | src/lib/api.ts:425-440 | with nothing stored, history page 1 is empty with count 0 and no links |
| Paging.Utf8Meaning | src/lib/api.ts:399-418 | the UTF-8 bytes of a character are the shortest sequence whose lead byte announces its length, whose other bytes are continuation bytes, and which carries the character's code point (RFC 3629, section 3) |
| Paging.PercentBytesMeaning | src/lib/api.ts:399-418 | byte i is written at position 3·i as `%` and two upper-case hex digits, high nibble first |
| Paging.FormEncode | src/lib/api.ts:399-418 | an encoded name or value never contains `&`, `=` or a space, and unreserved text is unchanged |
| Paging.DecodeEscape | src/lib/api.ts:399-418 | the application/x-www-form-urlencoded parser reads the escape of any character back as that character, whatever follows it |
| Paging.FormRoundTrip | src/lib/api.ts:399-418 | decoding an encoded name or value gives back exactly the text |
| Paging.LessonParams | src/lib/api.ts:399-403 | `language`, `category` and `search` are appended exactly under the same conditions as the offline filters, `page` is always last, and nothing else is appended |
| Paging.LessonsEndpointShape | src/lib/api.ts:399-418 | `LessonsEndpoint`: the catalogue request is the lessons path and the parameters, always ending `page=<n>`, after an `&` exactly when a filter was chosen |
| Paging.PlainLessonsEndpoint | src/lib/api.ts:399-418 | a catalogue request that chooses nothing (no language or category other than "all", no search text) asks only for the page |
| Api.SeededMeaning | src/lib/api.ts:86-96 | `Seeded`, the seeding of the store, fills each of the three offline keys that holds nothing truthy with its mock value, keeps truthy ones, and changes no other key |
| Api.SeededIdempotent | src/lib/api.ts:86-96 | seeding twice is the same as seeding once |
| Api.InitializeMockData | src/lib/api.ts:86-96 | the method leaves the store seeded |
| Api.OfflineSessionShape | src/lib/api.ts:189-193 | the offline session carries both mock tokens and the demo user renamed (and, on registration, with the new email) |
| Api.VoiceRun | src/lib/api.ts:282-299 | the connected voice upload never changes the store; it rejects without a request exactly on a corrupt pair; it sends only the bearer header; it fulfils exactly on a JSON reply |
| Api.VoiceIgnoresUnauthorized | src/lib/api.ts:291-296 | a 401 reaches the voice upload's caller as an ordinary body, with no refresh |
| Api.ApiService.constructor | src/lib/api.ts:108-116 | the client is offline exactly when the base URL is blank, and only then seeds the store |
| Api.ApiService.Request | src/lib/api.ts:118-159 | the method does exactly what `RequestRun` says |
| Api.ApiService.RefreshToken | src/lib/api.ts:161-182 | the method does exactly what `RefreshRun` says |
| Api.ApiService.Login | src/lib/api.ts:185-201 | offline, any credentials succeed with the mock session and no request; connected, a login `request` |
| Api.ApiService.Register | src/lib/api.ts:203-220 | offline, it succeeds and stores the new user as the profile, which a later profile read returns; connected, a register `request` |
| Api.ApiService.GetUserProfile | src/lib/api.ts:222-230 | offline, the stored profile, or the demo user when nothing truthy is stored |
| Api.ApiService.UpdateUserProfile | src/lib/api.ts:232-245 | offline, the shallow merge over the current profile is stored and returned, and the next profile read returns it |
| Api.ApiService.VoiceUpload | src/lib/api.ts:247-300 | offline, the picked canned reply, logged at the head of the capped history; a falsy stored history counts as empty, and a truthy one that is not an array raises; connected, as `VoiceRun` |
| Api.ApiService.TextQuery | src/lib/api.ts:302-360 | offline, the classified reply, logged at the head of the capped history; connected, a query `request` that drops an undefined category |
| Api.ApiService.GetLessons | src/lib/api.ts:362-419 | offline, the filtered catalogue page; connected, a `request` with the encoded parameters |
| Api.ApiService.GetQueryHistory | src/lib/api.ts:421-457 | offline, a page of 20 of the stored log; connected, a `request` for that page |
| Session.AuthProvider.constructor | src/components/AuthProvider.tsx:11-16 | a new provider mirrors the stored pair, has no user, is loading and is not authenticated (`IsAuthenticated`: truthy tokens and a truthy user) |
| Session.AuthProvider.Adopt | src/components/AuthProvider.tsx:49-73 | a reply with data has its pair stored and mirrored and its user set, and raises a TypeError when it has no user; any other reply raises its error or the fallback and changes nothing; loading ends once the call settles |
| Session.AuthProvider.InitializeAuth | src/components/AuthProvider.tsx:20-43 | a corrupt pair raises and changes nothing; no pair only ends loading; with a pair, the store is whatever the profile call left; a profile with data sets the user and keeps the pair read before the call; any other settled outcome removes the pair from storage and state and keeps the user; a pending call changes no state; offline, a stored pair always leaves the client authenticated and in sync |
| Session.AuthProvider.Login | src/components/AuthProvider.tsx:45-74 | the API login's outcome adopted as above; offline it always succeeds, authenticated and in sync with storage |
| Session.AuthProvider.Register | src/components/AuthProvider.tsx:76-105 | likewise for registration; offline the stored profile is the new user |
| Session.AuthProvider.Logout | src/components/AuthProvider.tsx:107-115 | the pair is removed from storage and state, the user is dropped, the client is not authenticated, and no bearer header is sent afterwards |
| Session.AuthProvider.RefreshToken | src/components/AuthProvider.tsx:117-126 | the stored pair is re-read into state; a corrupt entry logs out; state and storage agree afterwards |
| Registration.EmailPatternIff | src/pages/Register.tsx:62-63 | `EmailPattern`, the email regex, matches exactly: no white space, exactly one `@` with text before it, and a `.` after it with text on both sides |
| Registration.ValidateFirstFailure | src/pages/Register.tsx:32-109 | `Validate` (`validateForm`): the reported rule is the first one, in source order, that rejects the form |
| Registration.ValidateAccepts | src/pages/Register.tsx:32-109 | a form is accepted exactly when no rule rejects it, and a rejection names a rule that does reject it |
| Registration.ValidateMeaning | src/pages/Register.tsx:32-109 | the accepted forms in plain terms: non-blank username of raw length ≥ 3, a well-formed email, a password of ≥ 8 characters equal to its confirmation, and the terms accepted |
| Registration.Submission | src/pages/Register.tsx:111-118 | only a valid form is submitted; the trimmed username is non-empty with no white space at either end, the email is sent exactly as typed (a valid one has nothing to trim) and has the pattern's shape, and the password is sent as typed, at least 8 characters and equal to its confirmation |
| Registration.PaddedShortUsername | src/pages/Register.tsx:35-51 | a one-letter name padded with spaces passes validation and is sent as one letter |
| Registration.Strength | src/pages/Register.tsx:128-136 | the score is between 0 and 5; it is 0 exactly for the empty password and 5 exactly when all five tests pass |
| Registration.LabelsAgree | src/pages/Register.tsx:138-148 | `StrengthText` and `StrengthColor` always agree: Weak with destructive, Medium with warning, Strong with success |
| Registration.StrengthLabels | src/pages/Register.tsx:128-148 | the label of a password's score: a password long enough to pass validation is never Weak, a Strong one has at least three of the four character kinds, and the empty one is Weak |

## Left out

- Timing: the offline `setTimeout` delays are not modelled. Each offline call settles at once.
- `Math.random()`: replaced by the `pick` parameter of `Api.ApiService.VoiceUpload`.
- `Date.now()` and `new Date().toISOString()`: replaced by the `Stamp` parameter of the offline logging calls.
- Concurrency: each asynchronous operation runs as one atomic step. Interleavings of concurrent calls and React's batching of state updates are not modelled.
- The redirect to `/login` after a failed refresh (`window.location.href`) is not modelled; it is navigation outside this layer.
- `navigate('/')` after registration is not modelled, for the same reason.
- Toasts and `console` output are left out. They have no effect on state.
- The audio file in the voice upload's form data is left out. Only the text fields are modelled.
- The connected voice upload's reply is the body itself, not `{data}`. The model returns it as such, without interpreting it.
- The `useAuth` hook and the React context plumbing are left out. They only pass the provider's values through.
- The `isLoading` flag of the registration page is left out. It only disables the button.
- JSON numbers are integers in this model. Floating point is not modelled.
- `JSON.stringify` followed by `JSON.parse` is assumed to return the value written.
- `LocalStore.LocalStorage.Set`: does not model a write that the browser refuses (a quota error). The `storage` wrapper swallows that error, and the model assumes every write succeeds.
- `JsText.Lower`: lowers ASCII letters only. Unicode case mapping is not modelled.
- `Registration.Strength`: lengths count Unicode scalar values, where JavaScript counts UTF-16 code units. They differ only for characters outside the Basic Multilingual Plane.
- `Registration.ValidateMeaning`: the same applies to the username and password lengths.
- `Paging.Paginate`: the length of a stored string, and the offsets `slice` takes into it, count Unicode scalar values rather than UTF-16 code units.
- `Paging.FormDecode`: the reference decoder rejects a malformed `%` escape or a bad UTF-8 sequence, where the URL Standard's parser keeps the text as it is or substitutes U+FFFD; only well-formed escapes, the ones the encoder writes, are read back.
- `Session.AuthProvider.constructor`: a corrupt stored pair is excluded by its precondition. In the source it makes the very first render raise.
- `Http.RequestRun`: `fetch` rejecting for reasons other than a failed connection (for example an invalid URL) is treated as a failed connection. Both are caught alike.
