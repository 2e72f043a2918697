/** What the login and paste flows promise, stated over the reference
    functions the `Client.App` methods are proved against. */
module LoginProperties {
  import opened Common
  import opened Js
  import opened Claims
  import opened Extraction
  import opened Client

  function Min(a: nat, b: nat): nat { if a <= b then a else b }

  /** `loginWithProxy` issues probe, login page, login POST and `/api/ap` in
      that order, stops right after the first rejected request, and
      succeeds exactly when all four replies are successes. */
  lemma ProxyRequestOrder(host: Host, alias: string, password: string, replies: seq<Reply>, sent: seq<Request>)
    ensures var a := ProxyAttempt(host, alias, password, replies, sent);
      var n := |sent|;
      var m := LeadingOk(replies, n, 4);
      && |a.sent| == n + Min(m + 1, 4)
      && a.sent[..n] == sent
      && (forall i :: n <= i < |a.sent| ==> Step(a.sent[i]) == i - n)
      && (a.page.Some? <==> m == 4)
  {
    var n := |sent|;
    var m := LeadingOk(replies, n, 4);
    if ReplyAt(replies, n).Ok? {
      assert LeadingOk(replies, n, 4) == 1 + LeadingOk(replies, n + 1, 3);
      if ReplyAt(replies, n + 1).Ok? {
        assert LeadingOk(replies, n + 1, 3) == 1 + LeadingOk(replies, n + 2, 2);
        if ReplyAt(replies, n + 2).Ok? {
          assert LeadingOk(replies, n + 2, 2) == 1 + LeadingOk(replies, n + 3, 1);
        }
      }
    }
  }

  /** The login POST carries the login form built from the page the second
      request returned. */
  lemma PostCarriesLoginForm(host: Host, alias: string, password: string, replies: seq<Reply>,
                             sent: seq<Request>)
    requires ReplyAt(replies, |sent|).Ok? && ReplyAt(replies, |sent| + 1).Ok?
    ensures var a := ProxyAttempt(host, alias, password, replies, sent);
      |a.sent| >= |sent| + 3 &&
      a.sent[|sent|] == QueryUserInfo(alias) &&
      a.sent[|sent| + 2] ==
        PostLogin(LoginForm(alias, password, host.tokenValue(ReplyAt(replies, |sent| + 1).body)))
  {
  }

  /** In proxy mode the request log is the attempt's requests followed by
      exactly one GET of `/api/ap` when (and only when) the attempt threw. */
  lemma {:induction false} FallbackExactlyOnce(host: Host, alias: string, password: string,
                                               replies: seq<Reply>, sent: seq<Request>)
    ensures var log := Login(host, true, alias, password, replies, sent).1;
      var n := |sent|;
      var m := LeadingOk(replies, n, 4);
      && log[..n] == sent
      && |log| == n + (if m < 4 then m + 2 else 4)
      && (forall i :: n <= i < n + Min(m + 1, 4) ==> Step(log[i]) == i - n)
      && (m < 4 ==> log[|log| - 1] == GetAp)
  {
    ProxyRequestOrder(host, alias, password, replies, sent);
    var a := ProxyAttempt(host, alias, password, replies, sent);
    var log := Login(host, true, alias, password, replies, sent).1;
    if a.page.None? {
      assert log == a.sent + [GetAp];
      assert log[..|sent|] == a.sent[..|sent|];
    }
  }

  /** In direct mode there is one request and no fallback. */
  lemma DirectHasNoFallback(host: Host, alias: string, password: string, replies: seq<Reply>,
                            sent: seq<Request>)
    ensures var (screen, log) := Login(host, false, alias, password, replies, sent);
      log == sent + [FetchAp] &&
      (screen.error != "" <==> ReplyAt(replies, |sent|).Err?)
  {
  }

  /** Every run ends with `loading` false, and either with a page shown and
      no error, or with the fixed message and every result cleared. */
  lemma LoginSettles(host: Host, useProxy: bool, alias: string, password: string,
                     replies: seq<Reply>, sent: seq<Request>)
    ensures var screen := Login(host, useProxy, alias, password, replies, sent).0;
      && !screen.loading
      && (screen.error == "" ==> screen.rawHtml.Some? && screen.apiData.Some?)
      && (screen.error != "" ==> screen == Screen(false, LoginFailed, None, None, [], []))
  {
  }

  /** Nothing from before `handleLogin` survives it: a run with no error
      holds exactly what the shown page yields on the cleared state, so it
      has no tokens unless that page carries a `Tokens` array. */
  lemma LoginStartsFromCleared(host: Host, useProxy: bool, alias: string, password: string,
                               replies: seq<Reply>, sent: seq<Request>)
    ensures var screen := Login(host, useProxy, alias, password, replies, sent).0;
      screen.error == "" ==>
        && screen.rawHtml.Some?
        && screen == Show(host, Cleared, screen.rawHtml.value).(loading := false)
        && (ExtractDocument(host, screen.rawHtml.value).tokens.None? ==>
              screen.tokens == [] && screen.decodedTokens == [])
  {
  }

  /** In proxy mode the run fails exactly when the attempt threw and the
      fallback GET was rejected too. */
  lemma {:induction false} ProxyFailsIff(host: Host, alias: string, password: string,
                                         replies: seq<Reply>, sent: seq<Request>)
    ensures var screen := Login(host, true, alias, password, replies, sent).0;
      var n := |sent|;
      var m := LeadingOk(replies, n, 4);
      screen.error != "" <==> m < 4 && ReplyAt(replies, n + m + 1).Err?
  {
    ProxyRequestOrder(host, alias, password, replies, sent);
  }

  /** A rejected login POST is recovered from when the fallback GET
      succeeds: the page it returns is shown, whether or not the login page
      had an anti-forgery token. */
  lemma RecoversAfterRejectedLogin(host: Host, alias: string, password: string,
                                   replies: seq<Reply>, sent: seq<Request>, doc: string)
    requires ReplyAt(replies, |sent|).Ok? && ReplyAt(replies, |sent| + 1).Ok?
    requires ReplyAt(replies, |sent| + 2).Err?
    requires ReplyAt(replies, |sent| + 3) == Ok(doc)
    ensures var (screen, log) := Login(host, true, alias, password, replies, sent);
      screen == Show(host, Cleared, doc).(loading := false) && screen.error == "" &&
      |log| == |sent| + 4 && log[|sent| + 3] == GetAp
  {
  }

  /** A failed identity probe skips the login page and the POST: the next
      request is the fallback GET. */
  lemma ProbeFailureFallsBack(host: Host, alias: string, password: string,
                              replies: seq<Reply>, sent: seq<Request>)
    requires ReplyAt(replies, |sent|).Err?
    ensures var (screen, log) := Login(host, true, alias, password, replies, sent);
      log == sent + [QueryUserInfo(alias), GetAp] &&
      screen == match ReplyAt(replies, |sent| + 1)
        case Ok(doc) => Show(host, Cleared, doc).(loading := false)
        case Err => Screen(false, LoginFailed, None, None, [], [])
  {
  }

  /** A page without the `ap` element, or with an empty one, is shown whole
      and yields no tokens. */
  lemma MissingCarrierShowsPage(host: Host, doc: string)
    requires host.apValue(doc) == None || host.apValue(doc) == Some("")
    ensures var screen := Show(host, Cleared, doc);
      screen.apiData == Some(doc) && screen.rawHtml == Some(doc) && screen.tokens == []
  {
  }

  /** A paste that yields no `Tokens` array leaves `tokens` and
      `decodedTokens` as they were; `rawHtml` is always the pasted text. */
  lemma PasteKeepsTokens(host: Host, s: Screen, content: string)
    requires ExtractPaste(host, content).tokens.None?
    ensures var t := Apply(host, s.(rawHtml := Some(content)), ExtractPaste(host, content));
      t.tokens == s.tokens && t.decodedTokens == s.decodedTokens && t.rawHtml == Some(content) &&
      t.loading == s.loading && t.error == s.error
  {
  }

  /** Extraction keeps `decodedTokens` the decodes of `tokens`. */
  lemma ApplyKeepsClaimsConsistent(host: Host, s: Screen, e: Outcome)
    requires s.decodedTokens == DecodedClaims(host.parse, s.tokens)
    ensures var t := Apply(host, s, e);
      t.decodedTokens == DecodedClaims(host.parse, t.tokens) && |t.decodedTokens| <= |t.tokens|
  {
  }
}
