# apiap-parser login and token decoding, in Dafny

This project models the core of apiap-parser. The tool logs a user into the
eduVULCAN portal through a small relay, fetches the `/api/ap` page, takes the
JSON payload out of its hidden `ap` input, and decodes the JWT access tokens
listed in the payload's `Tokens` array. It covers three parts:

- **The client component** (`App` in `eduvulcan-parser/src/App.tsx`; the same
  code, minus the paste handler, is in `src/App.tsx`). It covers
  `decodeJWT`, `processTokens`, `handleLogin`, `loginWithProxy`,
  `loginDirect` and `handlePasteContent`.
  - `Client.App` is a class. Its fields are the component's React state.
  - Each method is proved against a reference function:
    - `ProxyAttempt` for `loginWithProxy`
    - `Login` for `handleLogin`
    - `Apply`, `Show`, `ExtractDocument` and `ExtractPaste` for the
      extraction step.
  - The relay's replies are an input sequence: the i-th request receives
    the i-th reply, and a request beyond the end is rejected.
  - `Valid()` is the class invariant. It says `decodedTokens` always holds
    the truthy decodes of `tokens`.
- **Claim decoding** (modules `Claims` and `Base64`).
  - A compact token is split on '.', and a token without exactly three
    segments gives null.
  - The middle segment is mapped from the base64url alphabet to the
    standard one and given to `atob`.
  - `atob` is modelled concretely as the WHATWG forgiving-base64 decode:
    ASCII whitespace is removed, one or two '=' are dropped when the length
    is a multiple of four, and a length of 1 modulo 4 or a character outside
    the alphabet is rejected.
  - The binary string is then given to `JSON.parse`.
  - An unpadded encoder is defined next to the decoder, and the round trip
    is proved.
- **The login relay** (`api/logowanie.js`, module `Relay`).
  - It answers OPTIONS and forwards GET.
  - On POST it normalises the body:
    - JSON first, then url-encoded, otherwise `req.body || {}`.
    - A stream error, a JSON syntax error, or a JSON body that parses to
      null falls back to `req.body || {}`. For null it is `Object.keys(null)`
      inside the same `try` that throws. `formData` is never null after the
      block.
  - It then checks for truthy `Alias` and `Password`, re-encodes every
    member with `toString()`, and forwards the form.
  - Every other method gets 405. A thrown error becomes 500, with the
    upstream status when there is one.
  - `getRawBody` is a loop, `ReadBody`, proved to return the chunks joined
    in order.

Foreign functions are parameters:
- `JSON.parse`, `JSON.stringify`, and the two `DOMParser` queries (the `ap`
  input and the anti-forgery token input) are fields of `Extraction.Host`.
- `JSON.parse` and `URLSearchParams` parsing on the relay are fields of
  `Relay.Platform`.
- The upstream portal's answer is `Relay.Upstream`.

The model follows the code as written in three places where one might
expect otherwise:
- The identity probe (`/Account/QueryUserInfo`) is not best-effort. Its
  failure ends `loginWithProxy` like any other failure and sends the run
  to the fallback GET.
- `processTokens` keeps non-string entries of `Tokens` in `tokens`. They
  decode to null, because `split` is missing on them and the catch returns
  null.
- A page without the `ap` element is not an error. The whole page becomes
  `apiData`.

The filter in `processTokens` drops null decodes, so `decodedTokens[i]` need
not belong to `tokens[i]`. The two sequences are rendered side by side by
index (`src/App.tsx:314-325`). `Claims.ClaimsAlignIff` states exactly when
they line up, and `ClaimsExamples.DriftExample` shows a concrete shift. The
model keeps the filter as written.

## Model

| member | source | states |
|---|---|---|
| Common.Contains | api/logowanie.js:60 | `includes`: whether the pattern starts at some position; `ContainsIff` states this |
| Common.ContainsIff | api/logowanie.js:60 | `includes` holds exactly when the pattern occurs at some position of the string |
| Common.Split | eduvulcan-parser/src/App.tsx:21 | `split('.')` yields one more piece than there are dots, and no piece holds a dot |
| Common.JoinSplit | eduvulcan-parser/src/App.tsx:21 | joining the pieces of a split with the separator gives back the original string |
| Common.SplitJoin | eduvulcan-parser/src/App.tsx:21 | splitting a join of dot-free pieces gives back exactly those pieces |
| Common.SplitWithoutSeparator | eduvulcan-parser/src/App.tsx:21-22 | a string with no dot splits into itself alone |
| Common.SplitAfterPiece | eduvulcan-parser/src/App.tsx:21 | a dot after a dot-free prefix closes the first piece, and the rest splits independently |
| Js.Lookup | api/logowanie.js:82 | a member is found exactly when some member has that key, and the value found belongs to such a member |
| Js.Unprintable | api/logowanie.js:96 | the values whose conversion to text throws: an object with its own `toString` member, or an array holding one at any depth |
| Js.ToString | api/logowanie.js:96 | `toString()` throws exactly on null and on an unprintable value; a string comes back unchanged and a number as its decimal text |
| Js.Truthy | api/logowanie.js:82 | JavaScript truthiness of a value, used by `!formData.Alias`, `filter(Boolean)` and `req.body or {}` |
| Js.Property | api/logowanie.js:82 | a property read finds a value exactly when the value is an object with a member of that key |
| Js.Digits | api/logowanie.js:87 | the decimal spelling of a natural number spells that number, is made of digits only, and has no leading zero |
| Js.Decimal | api/logowanie.js:87 | `String(n)`: the digits of n, behind a minus sign when n is negative |
| Js.Text | api/logowanie.js:96 | the text a value converts to inside an array join fails exactly on an unprintable value; strings and numbers give themselves and their decimal text |
| Base64.RemoveWhitespace | eduvulcan-parser/src/App.tsx:27 | `atob` step 1: the result holds no ASCII whitespace and is no longer than the input, and whitespace-free input is unchanged |
| Base64.RemoveWhitespaceAppend | eduvulcan-parser/src/App.tsx:27 | removing whitespace distributes over concatenation, so the kept characters stay in order |
| Base64.RemoveWhitespaceChar | eduvulcan-parser/src/App.tsx:27 | a single character is dropped exactly when it is ASCII whitespace |
| Base64.StripPadding | eduvulcan-parser/src/App.tsx:27 | `atob` step 2: only at a length that is a multiple of four, at most two trailing characters go, each of them '=', and as many trailing '=' as there are, up to two |
| Base64.DecodeCore | eduvulcan-parser/src/App.tsx:27 | four characters give three bytes; a final two or three characters give one or two bytes |
| Base64.Atob | eduvulcan-parser/src/App.tsx:27 | `atob` throws exactly when the cleaned input has length 1 modulo 4 or holds a character outside the alphabet |
| Base64.EncodeCore | eduvulcan-parser/src/App.tsx:27 | the encoder's output is all alphabet characters and never has length 1 modulo 4 |
| Base64.DecodeEncodeCore | eduvulcan-parser/src/App.tsx:27 | decoding the unpadded encoding of any bytes gives those bytes back |
| Base64.AtobEncodeCore | eduvulcan-parser/src/App.tsx:27 | `atob` accepts the unpadded encoding of any bytes and returns them |
| Base64.AtobEncode | eduvulcan-parser/src/App.tsx:27 | `atob` accepts the padded encoding of any bytes and returns them |
| Base64.PaddedHasNoWhitespace | eduvulcan-parser/src/App.tsx:27 | `atob` step 1 leaves a padded encoding unchanged |
| Base64.StripEncodePadding | eduvulcan-parser/src/App.tsx:27 | the '=' padding the encoder adds is exactly what `atob` step 2 removes |
| Base64.DecodeGroup | eduvulcan-parser/src/App.tsx:27 | a leading group of four encoded characters decodes to its three bytes, followed by the decode of the rest |
| Base64.AtobRejectsDanglingChar | eduvulcan-parser/src/App.tsx:27 | a cleaned length of 1 modulo 4 always makes `atob` throw |
| Claims.BinaryString | eduvulcan-parser/src/App.tsx:27 | the binary string `atob` returns has one character per byte, whose code is that byte |
| Claims.OrNull | eduvulcan-parser/src/App.tsx:27-31 | a `JSON.parse` that throws gives null, and a parsed value is returned as it is |
| Claims.DecodeJwt | eduvulcan-parser/src/App.tsx:19-33 | `decodeJWT`: a non-null result comes only from a token with three segments whose middle one `atob` accepts |
| Claims.DecodeEntry | eduvulcan-parser/src/App.tsx:19-33 | an entry of `Tokens` that is not a string decodes to null, since `split` throws inside the `try` |
| Claims.Decodes | eduvulcan-parser/src/App.tsx:39 | `map(decodeJWT)`: one decode per token, at the same position |
| Claims.DecodedClaims | eduvulcan-parser/src/App.tsx:39-40 | `decodedTokens` is no longer than `tokens` and holds only truthy values |
| Claims.ToStandardAlphabet | eduvulcan-parser/src/App.tsx:27 | `replace(/-/g,'+').replace(/_/g,'/')`: same length, and each character is mapped on its own |
| Claims.StandardOfUrl | eduvulcan-parser/src/App.tsx:27 | the base64url-to-standard mapping undoes the standard-to-base64url mapping |
| Claims.SegmentCountMismatchIsNull | eduvulcan-parser/src/App.tsx:21-24 | a token whose dot count is not two decodes to null |
| Claims.ThreeSegments | eduvulcan-parser/src/App.tsx:21-22 | three dot-free segments joined by dots split back into exactly those three |
| Claims.OnlyMiddleSegmentDecoded | eduvulcan-parser/src/App.tsx:21-28 | the decode depends only on the middle segment: header and signature can be any dot-free strings |
| Claims.DecodeEncodedToken | eduvulcan-parser/src/App.tsx:19-33 | round trip: a token whose middle segment is the base64url encoding of some bytes decodes to `JSON.parse` of those bytes' binary string, or null where the parse throws |
| Claims.Truthies | eduvulcan-parser/src/App.tsx:40 | `filter(Boolean)`: the result is no longer than its input, and every kept value is truthy |
| Claims.Kept | eduvulcan-parser/src/App.tsx:39-40 | the kept positions are ascending, and a position is kept exactly when its decode is truthy |
| Claims.TruthiesAreKept | eduvulcan-parser/src/App.tsx:40 | the filter's k-th output is the input at the k-th kept position |
| Claims.ClaimsAreKeptDecodes | eduvulcan-parser/src/App.tsx:39-40 | `decodedTokens` is exactly the decodes of the tokens at the kept positions, in order |
| Claims.TruthiesAllIff | eduvulcan-parser/src/App.tsx:40 | the filter keeps its full length exactly when every value is truthy, and then changes nothing |
| Claims.ClaimsAlignIff | src/App.tsx:39-40 | `decodedTokens` has the length of `tokens` exactly when every token decodes to a truthy value, and then `decodedTokens[i]` is the decode of `tokens[i]` |
| ClaimsExamples.NotAJwt | eduvulcan-parser/src/App.tsx:21-24 | the dot-free token "not-a-jwt" decodes to null |
| ClaimsExamples.SingleByteClaim | eduvulcan-parser/src/App.tsx:27 | the token "a.MQ.c" decodes to `JSON.parse("1")` |
| ClaimsExamples.FailedFirstShifts | eduvulcan-parser/src/App.tsx:39-40 | a failing token ahead of a decodable one moves the second token's claims to position 0 |
| ClaimsExamples.DriftExample | src/App.tsx:39-40 | for ["not-a-jwt", "a.MQ.c"], whose second payload parses to the number 1, `decodedTokens` is `[1]`: its position 0 holds the claims of `tokens[1]` |
| Extraction.TokensArray | eduvulcan-parser/src/App.tsx:167 | `Tokens` is picked exactly when the value's `Tokens` member is an array, and it is that array |
| Extraction.ParseCarrier | eduvulcan-parser/src/App.tsx:163-173 | a value that does not parse, or parses to null, is shown raw with no tokens; a value that parses to anything else is shown pretty-printed, and its `Tokens` array is processed exactly when there is one |
| Extraction.ExtractDocument | eduvulcan-parser/src/App.tsx:158-176 | a missing or empty `ap` element makes the whole page `apiData` and processes no tokens |
| Extraction.ExtractPaste | eduvulcan-parser/src/App.tsx:231-264 | pasted text holding the literal `id="ap"` goes through the page extraction, and any other text is parsed directly as JSON |
| Extraction.ApiDataSource | src/App.tsx:200-219 | `apiData` is the whole page when `ap` is missing or empty, the raw value when it does not parse or parses to null, and the pretty-printed value otherwise |
| Extraction.TokensIff | eduvulcan-parser/src/App.tsx:162-169 | tokens are processed exactly when `ap` is present and non-empty, it parses, and its `Tokens` member is an array; that array is passed on unchanged |
| Extraction.RepasteDisplayedData | eduvulcan-parser/src/App.tsx:253-260 | pasting back the displayed `apiData` gives the same outcome, when parse reads back what stringify wrote |
| Client.LeadingOk | eduvulcan-parser/src/App.tsx:99-180 | counts the successful replies in a row, up to a limit; the next reply is a rejection when it stops short |
| Client.LoginForm | eduvulcan-parser/src/App.tsx:125-132 | the login form is `Alias`, `Password`, then the anti-forgery token exactly when that input exists with a non-empty value |
| Client.ToSearchParams | eduvulcan-parser/src/App.tsx:135-138 | the copy loop gives the same pairs in the same order |
| Client.Apply | eduvulcan-parser/src/App.tsx:165-172 | an extraction sets `apiData`, changes `tokens` and `decodedTokens` only when a `Tokens` array was found, and leaves the rest alone |
| Client.Show | eduvulcan-parser/src/App.tsx:156-176 | a fetched page is stored in `rawHtml` and always produces some `apiData` |
| Client.ProxyAttempt | eduvulcan-parser/src/App.tsx:99-180 | `loginWithProxy` makes one to four requests after those already sent, and yields a page exactly when all four went out and the fourth succeeded |
| Client.Login | eduvulcan-parser/src/App.tsx:43-97 | `handleLogin` as a whole; `LoginSettles`, `FallbackExactlyOnce` and `ProxyFailsIff` state its outcomes |
| Client.App.constructor | eduvulcan-parser/src/App.tsx:6-15 | the initial state: empty fields, proxy mode on, nothing loaded, no tokens |
| Client.App.Send | eduvulcan-parser/src/App.tsx:105-110 | each request is logged in order and receives the next reply |
| Client.App.ProcessTokens | eduvulcan-parser/src/App.tsx:35-41 | `tokens` becomes the array unchanged, and `decodedTokens` its truthy decodes |
| Client.App.ShowParsed | eduvulcan-parser/src/App.tsx:163-173 | the parse try/catch writes what `ParseCarrier` says, and reading `.Tokens` of null falls to the catch |
| Client.App.ShowPage | eduvulcan-parser/src/App.tsx:156-176 | the page is stored in `rawHtml`, then extracted as `Show` says |
| Client.App.LoginWithProxy | eduvulcan-parser/src/App.tsx:99-180 | the requests and the final state match `ProxyAttempt`; the state changes only when all four requests succeed |
| Client.App.LoginDirect | src/App.tsx:182-223 | one direct fetch; its page is shown when the fetch succeeds, and nothing changes when it throws |
| Client.App.HandleLogin | eduvulcan-parser/src/App.tsx:43-97 | the final state and request log equal `Login`, and the class invariant is kept |
| Client.App.HandlePaste | eduvulcan-parser/src/App.tsx:225-269 | `rawHtml` becomes the pasted text, then the paste extraction is applied, and the class invariant is kept |
| LoginProperties.ProxyRequestOrder | eduvulcan-parser/src/App.tsx:101-153 | probe, login page, POST and `/api/ap` go out in that order, stop right after the first rejection, and succeed exactly when all four succeed |
| LoginProperties.PostCarriesLoginForm | eduvulcan-parser/src/App.tsx:119-146 | the login POST carries the form built from the page the second request returned |
| LoginProperties.FallbackExactlyOnce | eduvulcan-parser/src/App.tsx:55-87 | in proxy mode the log is the attempt's requests, plus exactly one GET of `/api/ap` when the attempt threw |
| LoginProperties.DirectHasNoFallback | src/App.tsx:88-90 | direct mode makes one request and reports an error exactly when it is rejected |
| LoginProperties.LoginSettles | eduvulcan-parser/src/App.tsx:91-96 | `loading` always ends false; a run with no error shows a page, and a failed run holds only the fixed message |
| LoginProperties.LoginStartsFromCleared | eduvulcan-parser/src/App.tsx:45-50 | the six setters clear every earlier result: a successful run holds only what its page yields, and no tokens unless that page has a `Tokens` array |
| LoginProperties.ProxyFailsIff | eduvulcan-parser/src/App.tsx:55-96 | proxy mode fails exactly when the attempt threw and the fallback GET was rejected too |
| LoginProperties.RecoversAfterRejectedLogin | eduvulcan-parser/src/App.tsx:55-87 | a rejected login POST followed by a good fallback GET shows that page with no error |
| LoginProperties.ProbeFailureFallsBack | eduvulcan-parser/src/App.tsx:100-110 | a failed probe skips the login page and the POST and goes straight to the fallback |
| LoginProperties.MissingCarrierShowsPage | src/App.tsx:216-219 | a page without a usable `ap` value is shown whole, with no tokens |
| LoginProperties.PasteKeepsTokens | eduvulcan-parser/src/App.tsx:253-263 | a paste with no `Tokens` array leaves `tokens` and `decodedTokens` as they were |
| LoginProperties.ApplyKeepsClaimsConsistent | eduvulcan-parser/src/App.tsx:35-41 | every extraction keeps `decodedTokens` equal to the decodes of `tokens` |
| Relay.ReadBody | api/logowanie.js:148-161 | the `getRawBody` loop settles as `RawBody` says |
| Relay.RawBody | api/logowanie.js:148-161 | `getRawBody` resolves to the chunks joined in arrival order, and rejects on a stream error |
| Relay.CookieOf | api/logowanie.js:21 | the forwarded cookie header: `req.headers.cookie`, or the empty string when it is absent |
| Relay.ContentTypeOf | api/logowanie.js:58 | the content type the parser is chosen by, or the empty string when the header is absent |
| Relay.ConcatAppend | api/logowanie.js:151-153 | accumulating chunk by chunk gives the same text as joining any split of the chunks |
| Relay.BodyOrEmpty | api/logowanie.js:73 | the `req.body or {}` fallback is never null |
| Relay.Assign | api/logowanie.js:68 | `formData[key] = value`; `AssignKeys` and `AssignLookup` state its effect |
| Relay.AssignKeys | api/logowanie.js:67-69 | `formData[key] = value` keeps the key order, and appends a key that is new |
| Relay.AssignLookup | api/logowanie.js:67-69 | after the assignment the key reads the new value, and every other key reads what it read before |
| Relay.FillForm | api/logowanie.js:66-69 | the `forEach` loop builds exactly `FormFields` of the pairs |
| Relay.FormFields | api/logowanie.js:66-69 | the object the url-encoded branch builds; `FormFieldsLastWins` and `FormFieldsUnique` state its keys and values |
| Relay.FormFieldsLastWins | api/logowanie.js:66-69 | the keys appear once each in order of first appearance, and each holds its last value |
| Relay.FormFieldsUnique | api/logowanie.js:66-69 | the url-encoded branch never yields the same key twice |
| Relay.ParsedOrBody | api/logowanie.js:62-63 | the JSON branch keeps a non-null parsed value, and falls back to `req.body or {}` when the parse throws or gives null; never null |
| Relay.FormData | api/logowanie.js:51-79 | `formData` after the body-parsing block is never null; `JsonWinsOverUrlEncoded`, `UrlEncodedFormData`, `OtherContentUsesRequestBody` and `UnreadableBodyFallsBack` state its routes |
| Relay.UrlEncodedFormData | api/logowanie.js:64-69 | for a url-encoded body `formData` is the object the posted pairs build: each key once, in order of first appearance, reading its last value |
| Relay.OtherContentUsesRequestBody | api/logowanie.js:71-74 | any content type naming neither JSON nor url-encoding gives `req.body`, or `{}` when that is falsy |
| Relay.PostedCredential | api/logowanie.js:64-69 | on a url-encoded form, `formData[key]` is truthy exactly when the last posted value of that key is non-empty |
| Relay.ParseBody | api/logowanie.js:51-79 | the body-parsing block of the POST branch leaves `formData` as `FormData` describes: JSON first, then url-encoded, else `req.body` or else `{}`, with the same fallback on a stream or parse error |
| Relay.HasCredentials | api/logowanie.js:82 | truthy `Alias` and `Password`; only an object can have them |
| Relay.Forwarded | api/logowanie.js:94-97 | for members whose `toString()` succeeds, the forwarded pairs: each member's key with its `toString()`, in order |
| Relay.BuildParams | api/logowanie.js:94-97 | the params loop succeeds exactly when every member's `toString()` does, giving each key with its `toString()` in order |
| Relay.ObjectKeys | api/logowanie.js:87 | `Object.keys`: an object's member names in order, an array's indices, always strings, and none for numbers and booleans |
| Relay.MissingCredentials | api/logowanie.js:84-90 | the 400 answer with the debug keys and the content type; `MissingCredentialsRefused` states when it is given |
| Relay.ServerError | api/logowanie.js:139-143 | the 500 answer; `RejectionStatus` states its status field |
| Relay.Relayed | api/logowanie.js:111-117 | the portal's answer passed on, or the 500 answer when the portal call was rejected |
| Relay.PostOutcome | api/logowanie.js:47-118 | a POST makes at most one upstream call; without one it answers 400 or 500, with one it passes the portal's answer on |
| Relay.Handle | api/logowanie.js:4-145 | OPTIONS gives 200; GET is forwarded; POST equals `PostOutcome`; any other method gets 405 `Method Not Allowed` and no upstream request |
| Relay.ForwardIff | api/logowanie.js:82-117 | a POST is forwarded exactly when the body is an object with truthy `Alias` and `Password` and every member's `toString()` succeeds; the forwarded form has its keys, in order, with their string values |
| Relay.MissingCredentialsRefused | api/logowanie.js:82-91 | missing or falsy credentials give 400 and no upstream request, whatever the body was |
| Relay.UrlEncodedForwarding | api/logowanie.js:64-117 | a url-encoded POST is forwarded exactly when the last posted `Alias` and `Password` are non-empty, and then carries each posted key once, in order of first appearance, with its last value |
| Relay.ForwardedFormFields | api/logowanie.js:64-97 | the form rebuilt from the posted pairs holds only strings, and re-encoded it has each key once, with its last value |
| Relay.UnprintableMemberRefused | api/logowanie.js:94-97 | a member whose `toString()` throws turns a POST with credentials into the 500 answer, with no upstream call |
| Relay.LookupUnique | api/logowanie.js:82 | with unique keys, a member's own key finds that member's value |
| Relay.JsonWinsOverUrlEncoded | api/logowanie.js:60-64 | a content type naming both JSON and url-encoding is parsed as JSON; a parse that throws or gives null falls back to `req.body or {}` |
| Relay.JsonNullUsesRequestBody | api/logowanie.js:62-82 | a JSON body `null` makes `Object.keys` throw into the fallback: 400 when `req.body` lacks credentials, forwarded when it has them |
| Relay.UnreadableBodyFallsBack | api/logowanie.js:76-79 | a body stream that errors makes `formData` fall back to `req.body`, or `{}` when that is falsy |
| Relay.RejectionStatus | api/logowanie.js:139-143 | a rejected upstream call gives 500, with the portal's status in the body when it is non-zero and 500 otherwise |

## Left out

- Browser and platform facilities are parameters, not models:
  - `JSON.parse` and `JSON.stringify`.
  - `DOMParser` and its element queries.
  - `URLSearchParams` parsing of a body.
- A parsed object is taken as the engine holds it. Duplicate JSON keys are
  assumed already resolved.
- Numbers are integers. Floating-point values and their `toString()` are
  not modelled.
- `Object.keys` puts integer-like keys first. The model keeps insertion
  order.
- The special key `__proto__` in `formData[key] = value` is not modelled.
- Relay.ObjectKeys: a string's indices are counted per character of the
  model's strings. JavaScript counts UTF-16 code units, so a character
  outside the Basic Multilingual Plane gives two keys there and one here.
  Only the debug keys of the 400 answer are affected.
- `Relay.ReadBody`: each chunk is taken as text. Decoding a UTF-8 sequence
  split across two chunks is not modelled.
- The text of the engine's TypeError message is a fixed constant,
  `TypeErrorMessage`.
- Headers the relay sets are not modelled: the CORS headers, the
  forwarded cookie header, and the copied `Set-Cookie`. The cookie text
  and the `Set-Cookie` value are carried through as data.
- The 5-redirect limit of the upstream POST is not modelled.
- `console` output is left out.
- The relay is modelled sequentially. Awaiting `getRawBody` and the
  upstream calls is not modelled.
- Network replies are an input sequence, so timing and concurrent logins
  are not modelled.
- For `fetch`, a rejection is a network failure only. A non-2xx response
  still has a body and is shown.
- Client.App.HandlePaste: the outer `catch` that sets "Failed to process
  the pasted content." is not modelled. No statement inside its `try` can
  throw once the inner catches have run.
- Rendering is left out: the JSX, the `showMode`/`showManualSteps` toggles,
  `copyToClipboard` and the `copySuccess` message.
- `email`, `password` and `useProxy` are set by form inputs. The model
  takes their current values.
- api/ap.js and api/account-query-user-info.js are not part of this model.
  The client sees their answers only as replies.
- eduvulcan-parser/vite.config.ts is not part of this model. It is the
  development proxy's configuration.
