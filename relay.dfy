/** The login relay (api/logowanie.js): OPTIONS answers the preflight, GET
    forwards to the portal's login page, POST normalises the body into a
    form, checks the credentials and forwards the form url-encoded; every
    other method is refused. The upstream portal's answer is an input. */
module Relay {
  import opened Common
  import opened Js

  /** The request body stream: its chunks as text, and whether it ends with
      an 'error' event instead of 'end'. */
  datatype Stream = Stream(chunks: seq<string>, failed: bool)

  datatype HttpRequest = HttpRequest(
    verb: string,
    contentType: Option<string>,
    cookie: Option<string>,
    stream: Stream,
    /** `req.body` as the platform parsed it; None when undefined. */
    body: Option<Json>)

  /** The portal's answer to the one request the relay forwards: a response,
      or a rejection with the error's message and, when the portal answered
      (axios rejects non-2xx statuses), the response status. */
  datatype Upstream =
    | Answered(status: int, data: string, setCookie: Option<seq<string>>)
    | Rejected(responseStatus: Option<int>, message: string)

  datatype UpstreamCall =
    | UpGet(cookie: string)
    | UpPost(cookie: string, params: seq<(string, string)>)

  datatype Body = NoBody | TextBody(text: string) | JsonBody(value: Json)

  datatype HttpResponse = HttpResponse(status: int, setCookie: Option<seq<string>>, body: Body)

  /** The parsers the relay calls: `JSON.parse` (None where it throws) and
      the pairs `new URLSearchParams(text)` yields, in order. */
  datatype Platform = Platform(parse: string -> Option<Json>, parseForm: string -> seq<(string, string)>)

  /** Stands for the engine's message of a TypeError the handler raises itself. */
  const TypeErrorMessage := "TypeError"

  /** The chunks joined in arrival order. */
  function Concat(chunks: seq<string>): string
  {
    if chunks == [] then "" else Concat(chunks[..|chunks| - 1]) + chunks[|chunks| - 1]
  }

  /** Concatenation distributes over splitting the chunk sequence. */
  lemma {:induction false} ConcatAppend(a: seq<string>, b: seq<string>)
    ensures Concat(a + b) == Concat(a) + Concat(b)
    decreases |b|
  {
    if b != [] {
      var c := a + b;
      assert c[..|c| - 1] == a + b[..|b| - 1];
      ConcatAppend(a, b[..|b| - 1]);
    } else {
      assert a + b == a;
    }
  }

  /** `getRawBody`: accumulates `data += chunk` and resolves on 'end';
      rejects (None) on 'error'. */
  method ReadBody(stream: Stream) returns (text: Option<string>)
    ensures text == RawBody(stream)
  {
    var data := "";
    for i := 0 to |stream.chunks|
      invariant data == Concat(stream.chunks[..i])
    {
      assert stream.chunks[..i + 1][..i] == stream.chunks[..i];
      data := data + stream.chunks[i];
    }
    assert stream.chunks[..|stream.chunks|] == stream.chunks;
    if stream.failed {
      return None;
    }
    return Some(data);
  }

  /** What `getRawBody` settles with: the joined chunks, or a rejection (None). */
  function RawBody(stream: Stream): Option<string>
  {
    if stream.failed then None else Some(Concat(stream.chunks))
  }

  function CookieOf(req: HttpRequest): string
  {
    if req.cookie.Some? then req.cookie.value else ""
  }

  function ContentTypeOf(req: HttpRequest): string
  {
    if req.contentType.Some? then req.contentType.value else ""
  }

  /** `req.body || {}`. */
  function BodyOrEmpty(body: Option<Json>): (r: Json)
    ensures r != JNull
  {
    if body.Some? && Truthy(body.value) then body.value else JObj([])
  }

  /** The keys of a member or pair list, in order. */
  function Keys<V>(fields: seq<(string, V)>): (ks: seq<string>)
    ensures |ks| == |fields| && forall i :: 0 <= i < |fields| ==> ks[i] == fields[i].0
  {
    seq(|fields|, i requires 0 <= i < |fields| => fields[i].0)
  }

  predicate UniqueKeys(fields: seq<(string, Json)>)
  {
    forall i, j :: 0 <= i < j < |fields| ==> fields[i].0 != fields[j].0
  }

  /** Lookup in an object whose first member is `f`. */
  lemma LookupFirst(f: (string, Json), rest: seq<(string, Json)>)
    ensures forall k :: Lookup([f] + rest, k) == if f.0 == k then Some(f.1) else Lookup(rest, k)
  {
    assert ([f] + rest)[1..] == rest;
  }

  /** `formData[key] = value` on a plain object: an existing member is
      overwritten where it stands, a new one goes last. */
  function Assign(fields: seq<(string, Json)>, key: string, value: Json): seq<(string, Json)>
  {
    if fields == [] then [(key, value)]
    else if fields[0].0 == key then [(key, value)] + fields[1..]
    else [fields[0]] + Assign(fields[1..], key, value)
  }

  /** The keys of a list with `f` in front. */
  lemma KeysPrepend<V>(f: (string, V), rest: seq<(string, V)>)
    ensures Keys([f] + rest) == [f.0] + Keys(rest)
  {
  }

  /** The assignment keeps the order of the keys and appends a new key. */
  lemma {:induction false} AssignKeys(fields: seq<(string, Json)>, key: string, value: Json)
    ensures Keys(Assign(fields, key, value)) ==
      if key in Keys(fields) then Keys(fields) else Keys(fields) + [key]
  {
    if fields != [] {
      var rest := fields[1..];
      assert fields == [fields[0]] + rest;
      KeysPrepend(fields[0], rest);
      if fields[0].0 == key {
        KeysPrepend((key, value), rest);
      } else {
        AssignKeys(rest, key, value);
        KeysPrepend(fields[0], Assign(rest, key, value));
        assert key in Keys(fields) <==> key in Keys(rest);
      }
    }
  }

  /** After the assignment the key reads the new value and every other key
      reads what it read before. */
  lemma {:induction false} AssignLookup(fields: seq<(string, Json)>, key: string, value: Json)
    ensures forall k :: Lookup(Assign(fields, key, value), k) == if k == key then Some(value) else Lookup(fields, k)
  {
    if fields == [] {
      LookupFirst((key, value), []);
    } else {
      assert fields == [fields[0]] + fields[1..];
      LookupFirst(fields[0], fields[1..]);
      if fields[0].0 == key {
        LookupFirst((key, value), fields[1..]);
      } else {
        AssignLookup(fields[1..], key, value);
        LookupFirst(fields[0], Assign(fields[1..], key, value));
      }
    }
  }

  /** The object the url-encoded branch builds: every pair assigned in order. */
  function FormFields(pairs: seq<(string, string)>): seq<(string, Json)>
  {
    if pairs == [] then []
    else
      var last := pairs[|pairs| - 1];
      Assign(FormFields(pairs[..|pairs| - 1]), last.0, JStr(last.1))
  }

  /** The `params.forEach((value, key) => formData[key] = value)` loop. */
  method FillForm(pairs: seq<(string, string)>) returns (fields: seq<(string, Json)>)
    ensures fields == FormFields(pairs)
  {
    fields := [];
    for i := 0 to |pairs|
      invariant fields == FormFields(pairs[..i])
    {
      assert pairs[..i + 1][..i] == pairs[..i];
      fields := Assign(fields, pairs[i].0, JStr(pairs[i].1));
    }
    assert pairs[..|pairs|] == pairs;
  }

  /** The keys of a sequence, each once, in order of first appearance. */
  function FirstOccurrences(keys: seq<string>): seq<string>
  {
    if keys == [] then []
    else
      var d := FirstOccurrences(keys[..|keys| - 1]);
      if keys[|keys| - 1] in d then d else d + [keys[|keys| - 1]]
  }

  /** The value of the last pair with the given key. */
  function LastValue(pairs: seq<(string, string)>, key: string): Option<string>
  {
    if pairs == [] then None
    else if pairs[|pairs| - 1].0 == key then Some(pairs[|pairs| - 1].1)
    else LastValue(pairs[..|pairs| - 1], key)
  }

  /** A repeated key keeps its last value, at the place of its first
      appearance; every key appears once. */
  lemma {:induction false} FormFieldsLastWins(pairs: seq<(string, string)>)
    ensures Keys(FormFields(pairs)) == FirstOccurrences(Keys(pairs))
    ensures forall k :: Lookup(FormFields(pairs), k) ==
                        (if LastValue(pairs, k).Some? then Some(JStr(LastValue(pairs, k).value)) else None)
  {
    if pairs != [] {
      var init := pairs[..|pairs| - 1];
      FormFieldsLastWins(init);
      AssignKeys(FormFields(init), pairs[|pairs| - 1].0, JStr(pairs[|pairs| - 1].1));
      AssignLookup(FormFields(init), pairs[|pairs| - 1].0, JStr(pairs[|pairs| - 1].1));
      assert Keys(pairs)[..|pairs| - 1] == Keys(init);
    }
  }

  lemma {:induction false} FirstOccurrencesUnique(keys: seq<string>)
    ensures forall i, j :: 0 <= i < j < |FirstOccurrences(keys)| ==>
      FirstOccurrences(keys)[i] != FirstOccurrences(keys)[j]
  {
    if keys != [] {
      FirstOccurrencesUnique(keys[..|keys| - 1]);
    }
  }

  /** The url-encoded branch never yields a key twice. */
  lemma FormFieldsUnique(pairs: seq<(string, string)>)
    ensures UniqueKeys(FormFields(pairs))
  {
    FormFieldsLastWins(pairs);
    FirstOccurrencesUnique(Keys(pairs));
    var f := FormFields(pairs);
    forall i, j | 0 <= i < j < |f| ensures f[i].0 != f[j].0 {
      assert Keys(f)[i] == f[i].0 && Keys(f)[j] == f[j].0;
    }
  }

  /** The JSON branch of the body-parsing block: the parsed value, unless
      the parse throws or gives null, in which case `Object.keys(formData)`
      throws; either way the catch falls back to `req.body || {}`. */
  function ParsedOrBody(parsed: Option<Json>, body: Option<Json>): (r: Json)
    ensures r != JNull
    ensures parsed.Some? && parsed.value != JNull ==> r == parsed.value
    ensures parsed.None? || parsed.value == JNull ==> r == BodyOrEmpty(body)
  {
    if parsed.Some? && parsed.value != JNull then parsed.value else BodyOrEmpty(body)
  }

  /** `formData` after the body-parsing block: the parser is chosen by
      content-type substring, JSON first; a stream error, a JSON syntax error
      or a JSON body that parses to null falls back to `req.body || {}`, so
      the result is never null. */
  function FormData(p: Platform, req: HttpRequest): (r: Json)
    ensures r != JNull
  {
    match RawBody(req.stream)
    case None => BodyOrEmpty(req.body)
    case Some(text) =>
      var ct := ContentTypeOf(req);
      if Contains(ct, "application/json") then ParsedOrBody(p.parse(text), req.body)
      else if Contains(ct, "application/x-www-form-urlencoded") then JObj(FormFields(p.parseForm(text)))
      else BodyOrEmpty(req.body)
  }

  /** The body-parsing block of the POST branch: reads the raw body, picks
      the parser by content type and falls back to `req.body || {}`. */
  method ParseBody(p: Platform, req: HttpRequest) returns (formData: Json)
    ensures formData == FormData(p, req)
  {
    var text := ReadBody(req.stream);
    var contentType := ContentTypeOf(req);
    if text.None? {
      formData := BodyOrEmpty(req.body);
    } else if Contains(contentType, "application/json") {
      var parsed := p.parse(text.value);
      formData := if parsed.Some? && parsed.value != JNull then parsed.value else BodyOrEmpty(req.body);
    } else if Contains(contentType, "application/x-www-form-urlencoded") {
      var fields := FillForm(p.parseForm(text.value));
      formData := JObj(fields);
    } else {
      formData := BodyOrEmpty(req.body);
    }
  }

  /** `formData.Alias && formData.Password` for a non-null value; only an
      object has the two members. */
  predicate HasCredentials(formData: Json)
    ensures HasCredentials(formData) ==> formData.JObj?
  {
    && Property(formData, "Alias").Some? && Truthy(Property(formData, "Alias").value)
    && Property(formData, "Password").Some? && Truthy(Property(formData, "Password").value)
  }

  /** Every member's `value.toString()` succeeds. */
  predicate Printable(fields: seq<(string, Json)>)
  {
    forall i :: 0 <= i < |fields| ==> ToString(fields[i].1).Some?
  }

  /** The pairs `params` receives: every member's key with `value.toString()`. */
  function Forwarded(fields: seq<(string, Json)>): (params: seq<(string, string)>)
    requires Printable(fields)
    ensures |params| == |fields|
    ensures forall i :: 0 <= i < |fields| ==>
      params[i].0 == fields[i].0 && Some(params[i].1) == ToString(fields[i].1)
  {
    seq(|fields|, i requires 0 <= i < |fields| => (fields[i].0, ToString(fields[i].1).value))
  }

  /** The `Object.entries(formData).forEach(... params.append ...)` loop; None
      where `toString` throws: on a null member, or on one that is (or is an
      array holding) an object with its own `toString` member. */
  method BuildParams(fields: seq<(string, Json)>) returns (params: Option<seq<(string, string)>>)
    ensures params.Some? <==> Printable(fields)
    ensures params.Some? ==> |params.value| == |fields|
    ensures params.Some? ==> forall i :: 0 <= i < |fields| ==>
      params.value[i].0 == fields[i].0 && Some(params.value[i].1) == ToString(fields[i].1)
  {
    var acc: seq<(string, string)> := [];
    for i := 0 to |fields|
      invariant |acc| == i
      invariant forall k :: 0 <= k < i ==> ToString(fields[k].1).Some?
      invariant forall k :: 0 <= k < i ==> acc[k].0 == fields[k].0 && Some(acc[k].1) == ToString(fields[k].1)
    {
      var text := ToString(fields[i].1);
      if text.None? {
        return None;
      }
      acc := acc + [(fields[i].0, text.value)];
    }
    return Some(acc);
  }

  const NotAllowed := HttpResponse(405, None, JsonBody(JObj([("message", JStr("Method Not Allowed"))])))

  /** The catch-all: 500 with the error's message and the upstream status
      when there was a (non-zero) one, else 500. */
  function ServerError(message: string, responseStatus: Option<int>): HttpResponse
  {
    var status := if responseStatus.Some? && responseStatus.value != 0 then responseStatus.value else 500;
    HttpResponse(500, None, JsonBody(JObj([
      ("message", JStr("Failed to process login request")),
      ("error", JStr(message)),
      ("status", JNum(status))])))
  }

  /** The portal's answer passed on: its status, body and Set-Cookie. */
  function Relayed(up: Upstream): HttpResponse
  {
    match up
    case Answered(status, data, setCookie) => HttpResponse(status, setCookie, TextBody(data))
    case Rejected(responseStatus, message) => ServerError(message, responseStatus)
  }

  /** `Object.keys(v)` of a non-null value. */
  function ObjectKeys(v: Json): (ks: seq<Json>)
    ensures v.JObj? ==> |ks| == |v.fields| && forall i :: 0 <= i < |ks| ==> ks[i] == JStr(v.fields[i].0)
    ensures v.JArr? ==> |ks| == |v.items| && forall i :: 0 <= i < |ks| ==> ks[i] == JStr(Decimal(i))
    ensures v.JStr? ==> |ks| == |v.s| && forall i :: 0 <= i < |ks| ==> ks[i] == JStr(Decimal(i))
    ensures !v.JObj? && !v.JArr? && !v.JStr? ==> ks == []
    ensures forall i :: 0 <= i < |ks| ==> ks[i].JStr?
  {
    match v
    case JObj(fields) => seq(|fields|, i requires 0 <= i < |fields| => JStr(fields[i].0))
    case JArr(items) => seq(|items|, i requires 0 <= i < |items| => JStr(Decimal(i)))
    case JStr(s) => seq(|s|, i requires 0 <= i < |s| => JStr(Decimal(i)))
    case _ => []
  }

  /** The 400 answer; `contentType` is left out of the JSON when the header is absent. */
  function MissingCredentials(formData: Json, contentType: Option<string>): HttpResponse
  {
    var debug := [("keys", JArr(ObjectKeys(formData)))] +
                 (if contentType.Some? then [("contentType", JStr(contentType.value))] else []);
    HttpResponse(400, None, JsonBody(JObj([
      ("message", JStr("Missing login credentials")),
      ("debug", JObj(debug))])))
  }

  /** The POST branch: the answer and the upstream calls it makes. */
  function PostOutcome(p: Platform, req: HttpRequest, up: Upstream): (r: (HttpResponse, seq<UpstreamCall>))
    ensures |r.1| <= 1
    ensures r.1 == [] ==> r.0.status == 400 || r.0.status == 500
    ensures r.1 != [] ==> r.1[0].UpPost? && r.1[0].cookie == CookieOf(req) && r.0 == Relayed(up)
  {
    var formData := FormData(p, req);
    if !HasCredentials(formData) then (MissingCredentials(formData, req.contentType), [])
    else if !Printable(formData.fields) then (ServerError(TypeErrorMessage, None), [])
    else (Relayed(up), [UpPost(CookieOf(req), Forwarded(formData.fields))])
  }

  /** The exported handler. */
  method Handle(p: Platform, req: HttpRequest, up: Upstream) returns (res: HttpResponse, calls: seq<UpstreamCall>)
    ensures req.verb == "OPTIONS" ==> res == HttpResponse(200, None, NoBody) && calls == []
    ensures req.verb == "GET" ==> res == Relayed(up) && calls == [UpGet(CookieOf(req))]
    ensures req.verb == "POST" ==> (res, calls) == PostOutcome(p, req, up)
    ensures req.verb !in {"OPTIONS", "GET", "POST"} ==> res == NotAllowed && calls == []
  {
    if req.verb == "OPTIONS" {
      return HttpResponse(200, None, NoBody), [];
    }
    var cookies := CookieOf(req);
    if req.verb == "GET" {
      return Relayed(up), [UpGet(cookies)];
    }
    if req.verb == "POST" {
      var formData := ParseBody(p, req);
      if !HasCredentials(formData) {
        return MissingCredentials(formData, req.contentType), [];
      }
      var params := BuildParams(formData.fields);
      if params.None? {
        return ServerError(TypeErrorMessage, None), [];
      }
      assert params.value == Forwarded(formData.fields);
      return Relayed(up), [UpPost(cookies, params.value)];
    }
    return NotAllowed, [];
  }

  /** A POST is forwarded upstream exactly when the normalised body is an
      object with truthy `Alias` and `Password` whose every member converts
      with `toString()`; the forwarded form then has exactly its keys, in
      order, with their string values. */
  lemma ForwardIff(p: Platform, req: HttpRequest, up: Upstream)
    ensures var (res, calls) := PostOutcome(p, req, up);
      var formData := FormData(p, req);
      && (calls != [] <==> formData.JObj? && HasCredentials(formData) && Printable(formData.fields))
      && (calls != [] ==>
            && |calls| == 1 && calls[0].UpPost?
            && Keys(formData.fields) == Keys(calls[0].params)
            && forall i :: 0 <= i < |formData.fields| ==>
                 Some(calls[0].params[i].1) == ToString(formData.fields[i].1))
  {
  }

  /** Missing or empty `Alias` or `Password`: 400 and no upstream request. */
  lemma MissingCredentialsRefused(p: Platform, req: HttpRequest, up: Upstream)
    requires !HasCredentials(FormData(p, req))
    ensures PostOutcome(p, req, up).0.status == 400 && PostOutcome(p, req, up).1 == []
  {
  }

  /** End to end for a url-encoded POST: the forwarded form has each key of
      the posted pairs once, in order of first appearance, with its last
      value. */
  lemma UrlEncodedForwarding(p: Platform, req: HttpRequest, up: Upstream)
    requires RawBody(req.stream).Some?
    requires !Contains(ContentTypeOf(req), "application/json")
    requires Contains(ContentTypeOf(req), "application/x-www-form-urlencoded")
    ensures var pairs := p.parseForm(RawBody(req.stream).value);
      var calls := PostOutcome(p, req, up).1;
      && (calls != [] <==> PostedNonEmpty(pairs, "Alias") && PostedNonEmpty(pairs, "Password"))
      && (calls != [] ==>
            Keys(calls[0].params) == FirstOccurrences(Keys(pairs)) &&
            forall i :: 0 <= i < |calls[0].params| ==>
              LastValue(pairs, calls[0].params[i].0) == Some(calls[0].params[i].1))
  {
    var pairs := p.parseForm(RawBody(req.stream).value);
    var fields := FormFields(pairs);
    assert FormData(p, req) == JObj(fields);
    ForwardedFormFields(pairs);
    PostedCredential(pairs, "Alias");
    PostedCredential(pairs, "Password");
    assert HasCredentials(JObj(fields)) <==>
      PostedNonEmpty(pairs, "Alias") && PostedNonEmpty(pairs, "Password");
  }

  /** On a url-encoded form, `formData[key]` is truthy exactly when the
      key's last posted value is non-empty. */
  lemma PostedCredential(pairs: seq<(string, string)>, key: string)
    ensures var formData := JObj(FormFields(pairs));
      Property(formData, key).Some? && Truthy(Property(formData, key).value) <==> PostedNonEmpty(pairs, key)
  {
    FormFieldsLastWins(pairs);
    assert Property(JObj(FormFields(pairs)), key) == Lookup(FormFields(pairs), key);
  }

  /** A key whose last posted value is non-empty: the url-encoded form
      makes `formData[key]` exactly that string. */
  predicate PostedNonEmpty(pairs: seq<(string, string)>, key: string)
  {
    LastValue(pairs, key).Some? && LastValue(pairs, key).value != ""
  }

  /** The url-encoded branch of the body-parsing block: `formData` is the
      object the posted pairs build, each key once in order of first
      appearance, reading its last posted value. */
  lemma UrlEncodedFormData(p: Platform, req: HttpRequest)
    requires RawBody(req.stream).Some?
    requires !Contains(ContentTypeOf(req), "application/json")
    requires Contains(ContentTypeOf(req), "application/x-www-form-urlencoded")
    ensures var pairs := p.parseForm(RawBody(req.stream).value);
      var formData := FormData(p, req);
      && formData == JObj(FormFields(pairs))
      && Keys(formData.fields) == FirstOccurrences(Keys(pairs))
      && forall k :: Property(formData, k) ==
           (if LastValue(pairs, k).Some? then Some(JStr(LastValue(pairs, k).value)) else None)
  {
    FormFieldsLastWins(p.parseForm(RawBody(req.stream).value));
  }

  /** Any other content type ignores the raw body: `formData` is
      `req.body || {}`. */
  lemma OtherContentUsesRequestBody(p: Platform, req: HttpRequest)
    requires RawBody(req.stream).Some?
    requires !Contains(ContentTypeOf(req), "application/json")
    requires !Contains(ContentTypeOf(req), "application/x-www-form-urlencoded")
    ensures FormData(p, req) == BodyOrEmpty(req.body)
  {
  }

  /** The form rebuilt from url-encoded pairs and re-encoded: each key once,
      in order of first appearance, with its last value. */
  lemma ForwardedFormFields(pairs: seq<(string, string)>)
    ensures Printable(FormFields(pairs))
    ensures var params := Forwarded(FormFields(pairs));
      Keys(params) == FirstOccurrences(Keys(pairs)) &&
      forall i :: 0 <= i < |params| ==> LastValue(pairs, params[i].0) == Some(params[i].1)
  {
    var fields := FormFields(pairs);
    FormFieldsLastWins(pairs);
    forall i | 0 <= i < |fields|
      ensures fields[i].1 == JStr(LastValue(pairs, fields[i].0).value)
    {
      assert Lookup(fields, fields[i].0) == Some(fields[i].1) by {
        FormFieldsUnique(pairs);
        LookupUnique(fields, i);
      }
    }
    var params := Forwarded(fields);
    assert Keys(params) == Keys(fields);
  }

  lemma {:induction false} LookupUnique(fields: seq<(string, Json)>, i: nat)
    requires UniqueKeys(fields) && i < |fields|
    ensures Lookup(fields, fields[i].0) == Some(fields[i].1)
  {
    if i > 0 {
      assert fields[0].0 != fields[i].0;
      assert fields[1..][i - 1] == fields[i];
      LookupUnique(fields[1..], i - 1);
    }
  }

  /** JSON is tested before url-encoding: a content type naming both is
      parsed as JSON, and a body that fails to parse or parses to null falls
      back to `req.body || {}`. */
  lemma JsonWinsOverUrlEncoded(p: Platform, req: HttpRequest)
    requires RawBody(req.stream).Some? && Contains(ContentTypeOf(req), "application/json")
    ensures FormData(p, req) ==
      match p.parse(RawBody(req.stream).value)
      case Some(j) => if j != JNull then j else BodyOrEmpty(req.body)
      case None => BodyOrEmpty(req.body)
  {
  }

  /** A JSON body `null` is not an error of its own: with credentials in
      `req.body` the POST is forwarded, without them it is refused with 400. */
  lemma JsonNullUsesRequestBody(p: Platform, req: HttpRequest, up: Upstream)
    requires RawBody(req.stream).Some? && Contains(ContentTypeOf(req), "application/json")
    requires p.parse(RawBody(req.stream).value) == Some(JNull)
    ensures FormData(p, req) == BodyOrEmpty(req.body)
    ensures !HasCredentials(BodyOrEmpty(req.body)) ==> PostOutcome(p, req, up).0.status == 400
    ensures HasCredentials(BodyOrEmpty(req.body)) && Printable(BodyOrEmpty(req.body).fields) ==>
      PostOutcome(p, req, up).1 == [UpPost(CookieOf(req), Forwarded(BodyOrEmpty(req.body).fields))]
  {
  }

  /** A member whose `toString()` throws sends a POST with credentials to
      the catch-all: 500, and the portal is not called. */
  lemma UnprintableMemberRefused(p: Platform, req: HttpRequest, up: Upstream, i: nat)
    requires HasCredentials(FormData(p, req))
    requires i < |FormData(p, req).fields| && Unprintable(FormData(p, req).fields[i].1)
    ensures PostOutcome(p, req, up) == (ServerError(TypeErrorMessage, None), [])
  {
  }

  /** A body that cannot be read falls back to `req.body || {}`. */
  lemma UnreadableBodyFallsBack(p: Platform, req: HttpRequest)
    requires req.stream.failed
    ensures FormData(p, req) == BodyOrEmpty(req.body)
  {
  }

  /** A rejected upstream request answers 500 whose body status is the
      portal's status when it gave a non-zero one, and 500 otherwise. */
  lemma RejectionStatus(up: Upstream)
    requires up.Rejected?
    ensures var res := Relayed(up);
      res.status == 500 && res.body.JsonBody? &&
      Lookup(res.body.value.fields, "status") ==
        Some(JNum(if up.responseStatus.Some? && up.responseStatus.value != 0 then up.responseStatus.value else 500))
  {
    var fields := Relayed(up).body.value.fields;
    assert fields[0].0 == "message" && fields[1].0 == "error";
    assert fields[1..][1..] == [fields[2]];
    assert Lookup(fields[1..][1..], "status") == Some(fields[2].1);
  }
}
