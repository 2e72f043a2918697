/** The login component (`App` in eduvulcan-parser/src/App.tsx, and the
    same code in src/App.tsx without the paste handler). Its React state
    becomes the fields of a class; each setter is an assignment in program
    order. The relay's replies are an input: the i-th request the component
    makes receives the i-th reply. */
module Client {
  import opened Common
  import opened Js
  import opened Claims
  import opened Extraction

  const LoginFailed := "Login failed. Please check your credentials and try again."
  const VerificationField := "__RequestVerificationToken"

  /** The requests the component makes, in the relay's terms. */
  datatype Request =
    | QueryUserInfo(alias: string)              // POST /Account/QueryUserInfo, multipart {Alias}
    | GetLoginPage                               // GET /logowanie
    | PostLogin(form: seq<(string, string)>)     // POST /logowanie, url-encoded
    | GetAp                                      // GET /api/ap through the relay
    | FetchAp                                    // GET https://eduvulcan.pl/api/ap directly

  /** A reply: the response body, or a rejected request (a network error,
      or for axios a non-2xx status). */
  datatype Reply = Ok(body: string) | Err

  /** The reply to the i-th request; a request beyond the given replies fails. */
  function ReplyAt(replies: seq<Reply>, i: nat): Reply
  {
    if i < |replies| then replies[i] else Err
  }

  /** Position of a proxy-flow request in the fixed order probe, login page,
      login POST, `/api/ap`. */
  function Step(r: Request): nat
  {
    match r
    case QueryUserInfo(_) => 0
    case GetLoginPage => 1
    case PostLogin(_) => 2
    case GetAp => 3
    case FetchAp => 4
  }

  /** How many replies in a row, from position `from` and at most `limit`, succeed. */
  function LeadingOk(replies: seq<Reply>, from: nat, limit: nat): (m: nat)
    ensures m <= limit
    ensures forall i :: from <= i < from + m ==> ReplyAt(replies, i).Ok?
    ensures m < limit ==> ReplyAt(replies, from + m).Err?
    decreases limit
  {
    if limit == 0 || ReplyAt(replies, from).Err? then 0
    else 1 + LeadingOk(replies, from + 1, limit - 1)
  }

  /** The `FormData` of the login POST, in append order: `Alias`, then
      `Password`, then the anti-forgery token only when the input exists and
      its value is non-empty. */
  function LoginForm(alias: string, password: string, token: Option<string>): (form: seq<(string, string)>)
    ensures 2 <= |form| <= 3
    ensures form[0] == ("Alias", alias) && form[1] == ("Password", password)
    ensures |form| == 3 <==> token.Some? && token.value != ""
    ensures |form| == 3 ==> form[2] == (VerificationField, token.value)
  {
    var base := [("Alias", alias), ("Password", password)];
    if token.Some? && token.value != "" then base + [(VerificationField, token.value)] else base
  }

  /** The loop that copies the `FormData` entries into `URLSearchParams`:
      the same pairs in the same order. */
  method ToSearchParams(form: seq<(string, string)>) returns (params: seq<(string, string)>)
    ensures |params| == |form|
    ensures forall i :: 0 <= i < |form| ==> params[i] == form[i]
  {
    params := [];
    for i := 0 to |form|
      invariant params == form[..i]
    {
      params := params + [form[i]];
    }
  }

  /** The component state the login and paste handlers write. */
  datatype Screen = Screen(loading: bool, error: string, apiData: Option<string>,
                           rawHtml: Option<string>, tokens: seq<Json>, decodedTokens: seq<Json>)

  /** The state right after `handleLogin`'s six setters. */
  const Cleared := Screen(true, "", None, None, [], [])

  /** An extraction's writes: `apiData`, and `processTokens` when a `Tokens`
      array was found. */
  function Apply(host: Host, s: Screen, e: Outcome): (r: Screen)
    ensures r.apiData == Some(e.apiData)
    ensures r.loading == s.loading && r.error == s.error && r.rawHtml == s.rawHtml
    ensures e.tokens.None? ==> r.tokens == s.tokens && r.decodedTokens == s.decodedTokens
    ensures e.tokens.Some? ==> r.tokens == e.tokens.value && |r.decodedTokens| <= |r.tokens|
  {
    match e.tokens
    case None => s.(apiData := Some(e.apiData))
    case Some(items) =>
      s.(apiData := Some(e.apiData), tokens := items, decodedTokens := DecodedClaims(host.parse, items))
  }

  /** A fetched page is stored in `rawHtml` and then extracted. */
  function Show(host: Host, s: Screen, doc: string): (r: Screen)
    ensures r.rawHtml == Some(doc) && r.apiData.Some?
    ensures r.loading == s.loading && r.error == s.error
  {
    Apply(host, s.(rawHtml := Some(doc)), ExtractDocument(host, doc))
  }

  /** What `loginWithProxy` did: the request log afterwards, and the
      `/api/ap` page when every step succeeded (None when it threw). */
  datatype Attempt = Attempt(sent: seq<Request>, page: Option<string>)

  /** `loginWithProxy`: probe, login page, login POST, `/api/ap`; the first
      rejected request ends the attempt. The identity probe is not
      best-effort: its failure ends the attempt like any other. */
  function ProxyAttempt(host: Host, alias: string, password: string, replies: seq<Reply>,
                        sent: seq<Request>): (a: Attempt)
    ensures |sent| < |a.sent| <= |sent| + 4 && a.sent[..|sent|] == sent
    ensures a.page.Some? <==> |a.sent| == |sent| + 4 && ReplyAt(replies, |sent| + 3).Ok?
  {
    var n := |sent|;
    var s1 := sent + [QueryUserInfo(alias)];
    if ReplyAt(replies, n).Err? then Attempt(s1, None)
    else
      var s2 := s1 + [GetLoginPage];
      match ReplyAt(replies, n + 1)
      case Err => Attempt(s2, None)
      case Ok(page) =>
        var s3 := s2 + [PostLogin(LoginForm(alias, password, host.tokenValue(page)))];
        if ReplyAt(replies, n + 2).Err? then Attempt(s3, None)
        else
          var s4 := s3 + [GetAp];
          match ReplyAt(replies, n + 3)
          case Err => Attempt(s4, None)
          case Ok(doc) => Attempt(s4, Some(doc))
  }

  /** `handleLogin` as a whole: the final state and request log. In proxy
      mode a throw from `loginWithProxy` leads to one more GET of `/api/ap`,
      whose failure sets the fixed error message; in direct mode a failed
      fetch sets it at once. */
  function Login(host: Host, useProxy: bool, alias: string, password: string,
                 replies: seq<Reply>, sent: seq<Request>): (Screen, seq<Request>)
  {
    var failed := Cleared.(loading := false, error := LoginFailed);
    if useProxy then
      var a := ProxyAttempt(host, alias, password, replies, sent);
      if a.page.Some? then (Show(host, Cleared, a.page.value).(loading := false), a.sent)
      else
        match ReplyAt(replies, |a.sent|)
        case Ok(doc) => (Show(host, Cleared, doc).(loading := false), a.sent + [GetAp])
        case Err => (failed, a.sent + [GetAp])
    else
      match ReplyAt(replies, |sent|)
      case Ok(doc) => (Show(host, Cleared, doc).(loading := false), sent + [FetchAp])
      case Err => (failed, sent + [FetchAp])
  }

  class App {
    const host: Host
    const replies: seq<Reply>
    var email: string
    var password: string
    var useProxy: bool
    var loading: bool
    var error: string
    var apiData: Option<string>
    var rawHtml: Option<string>
    var tokens: seq<Json>
    var decodedTokens: seq<Json>
    /** The requests made so far, in order. */
    var sent: seq<Request>

    ghost function View(): Screen
      reads this
    {
      Screen(loading, error, apiData, rawHtml, tokens, decodedTokens)
    }

    /** `decodedTokens` always holds the truthy decodes of `tokens`. */
    ghost predicate Valid()
      reads this
    {
      decodedTokens == DecodedClaims(host.parse, tokens)
    }

    constructor (host: Host, replies: seq<Reply>)
      ensures Valid() && this.host == host && this.replies == replies
      ensures email == "" && password == "" && useProxy
      ensures View() == Screen(false, "", None, None, [], []) && sent == []
    {
      this.host := host;
      this.replies := replies;
      email, password, useProxy := "", "", true;
      loading, error, apiData, rawHtml := false, "", None, None;
      tokens, decodedTokens := [], [];
      sent := [];
    }

    /** One request to the relay: logged, and answered by the next reply. */
    method Send(r: Request) returns (reply: Reply)
      modifies this`sent
      ensures sent == old(sent) + [r]
      ensures reply == ReplyAt(replies, |old(sent)|)
    {
      reply := ReplyAt(replies, |sent|);
      sent := sent + [r];
    }

    /** `processTokens`: the array is stored unchanged and in order, its
        truthy decodes beside it. */
    method ProcessTokens(tokenArray: seq<Json>)
      modifies this`tokens, this`decodedTokens
      ensures Valid()
      ensures tokens == tokenArray && decodedTokens == DecodedClaims(host.parse, tokenArray)
    {
      tokens := tokenArray;
      decodedTokens := DecodedClaims(host.parse, tokenArray);
    }

    /** The try/catch around `JSON.parse` of a carrier value. */
    method ShowParsed(value: string)
      requires Valid()
      modifies this`apiData, this`tokens, this`decodedTokens
      ensures Valid()
      ensures View() == Apply(host, old(View()), ParseCarrier(host, value))
    {
      var parsed := host.parse(value);
      if parsed.None? {
        apiData := Some(value);
      } else {
        var data := parsed.value;
        apiData := Some(host.stringify(data));
        if data.JNull? {
          // `data.Tokens` throws on null; the catch shows the raw value
          apiData := Some(value);
        } else {
          var items := TokensArray(data);
          if items.Some? {
            ProcessTokens(items.value);
          }
        }
      }
    }

    /** Storing a fetched page and extracting from it. */
    method ShowPage(doc: string)
      requires Valid()
      modifies this`rawHtml, this`apiData, this`tokens, this`decodedTokens
      ensures Valid()
      ensures View() == Show(host, old(View()), doc)
    {
      rawHtml := Some(doc);
      var ap := host.apValue(doc);
      if ap.Some? && ap.value != "" {
        ShowParsed(ap.value);
      } else {
        apiData := Some(doc);
      }
    }

    /** `loginWithProxy`; `ok` is false where it throws. */
    method LoginWithProxy() returns (ok: bool)
      requires Valid()
      modifies this`sent, this`rawHtml, this`apiData, this`tokens, this`decodedTokens
      ensures Valid()
      ensures var a := ProxyAttempt(host, email, password, replies, old(sent));
        sent == a.sent && ok == a.page.Some? &&
        View() == if ok then Show(host, old(View()), a.page.value) else old(View())
    {
      var probe := Send(QueryUserInfo(email));
      if probe.Err? {
        return false;
      }
      var loginPage := Send(GetLoginPage);
      if loginPage.Err? {
        return false;
      }
      var form := LoginForm(email, password, host.tokenValue(loginPage.body));
      var params := ToSearchParams(form);
      assert params == form;
      var login := Send(PostLogin(params));
      if login.Err? {
        return false;
      }
      var api := Send(GetAp);
      if api.Err? {
        return false;
      }
      ShowPage(api.body);
      ok := true;
    }

    /** `loginDirect`; `ok` is false where the fetch throws. */
    method LoginDirect() returns (ok: bool)
      requires Valid()
      modifies this`sent, this`rawHtml, this`apiData, this`tokens, this`decodedTokens
      ensures Valid()
      ensures var reply := ReplyAt(replies, |old(sent)|);
        sent == old(sent) + [FetchAp] && ok == reply.Ok? &&
        View() == if ok then Show(host, old(View()), reply.body) else old(View())
    {
      var response := Send(FetchAp);
      if response.Err? {
        return false;
      }
      ShowPage(response.body);
      ok := true;
    }

    /** `handleLogin`: clear the results, run the chosen login, fall back
        once in proxy mode, and always end with `loading` false. */
    method HandleLogin()
      requires Valid()
      modifies this`loading, this`error, this`apiData, this`rawHtml, this`tokens,
               this`decodedTokens, this`sent
      ensures Valid()
      ensures (View(), sent) == Login(host, useProxy, email, password, replies, old(sent))
    {
      loading := true;
      error := "";
      apiData := None;
      rawHtml := None;
      tokens := [];
      decodedTokens := [];
      assert View() == Cleared;
      if useProxy {
        var ok := LoginWithProxy();
        if !ok {
          var api := Send(GetAp);
          if api.Ok? {
            ShowPage(api.body);
          } else {
            error := LoginFailed;
          }
        }
      } else {
        var ok := LoginDirect();
        if !ok {
          error := LoginFailed;
        }
      }
      loading := false;
    }

    /** `handlePasteContent`: the pasted text is kept as `rawHtml` and routed
        by the carrier literal. */
    method HandlePaste(content: string)
      requires Valid()
      modifies this`rawHtml, this`apiData, this`tokens, this`decodedTokens
      ensures Valid()
      ensures View() == Apply(host, old(View()).(rawHtml := Some(content)), ExtractPaste(host, content))
    {
      rawHtml := Some(content);
      if Contains(content, CarrierMarker) {
        var ap := host.apValue(content);
        if ap.Some? && ap.value != "" {
          ShowParsed(ap.value);
        } else {
          apiData := Some(content);
        }
      } else {
        ShowParsed(content);
      }
    }
  }
}
