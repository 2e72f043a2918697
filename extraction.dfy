/** Payload extraction: the block the login paths and the paste handler
    share, which finds the hidden `ap` input of a fetched page, parses its
    value and picks out the `Tokens` array. The browser facilities it calls
    are parameters. */
module Extraction {
  import opened Common
  import opened Js

  /** The foreign calls the client makes, as functions. */
  datatype Host = Host(
    /** `JSON.parse`; None where it throws. */
    parse: string -> Option<Json>,
    /** `JSON.stringify(v, null, 2)`. */
    stringify: Json -> string,
    /** `DOMParser` then `getElementById('ap').value`; None when there is no such element. */
    apValue: string -> Option<string>,
    /** `DOMParser` then the value of `input[name="__RequestVerificationToken"]`; None when absent. */
    tokenValue: string -> Option<string>)

  /** What one extraction writes: the new `apiData`, and the `Tokens` array
      when `processTokens` is called (None leaves `tokens` and
      `decodedTokens` as they were). */
  datatype Outcome = Outcome(apiData: string, tokens: Option<seq<Json>>)

  /** The literal the paste handler looks for. */
  const CarrierMarker := "id=\"ap\""

  /** `apData.Tokens && Array.isArray(apData.Tokens)` for a non-null value. */
  function TokensArray(j: Json): (r: Option<seq<Json>>)
    ensures r.Some? <==> Property(j, "Tokens").Some? && Property(j, "Tokens").value.JArr?
    ensures r.Some? ==> Property(j, "Tokens") == Some(JArr(r.value))
  {
    match Property(j, "Tokens")
    case Some(JArr(items)) => Some(items)
    case _ => None
  }

  /** The try/catch around `JSON.parse(value)`: a parsed value is shown
      pretty-printed and its `Tokens` array is processed; a value that does
      not parse is shown as it is. A value that parses to null is shown as
      it is too: reading `.Tokens` of null throws, and the catch overwrites
      `apiData` with the raw value. */
  function ParseCarrier(host: Host, value: string): (e: Outcome)
    ensures host.parse(value).None? || host.parse(value) == Some(JNull) ==> e == Outcome(value, None)
    ensures host.parse(value).Some? && host.parse(value).value != JNull ==>
      e.apiData == host.stringify(host.parse(value).value) && e.tokens == TokensArray(host.parse(value).value)
    ensures e.tokens.Some? ==>
      host.parse(value).Some? && Property(host.parse(value).value, "Tokens") == Some(JArr(e.tokens.value))
  {
    match host.parse(value)
    case None => Outcome(value, None)
    case Some(JNull) => Outcome(value, None)
    case Some(j) => Outcome(host.stringify(j), TokensArray(j))
  }

  /** The extraction from a fetched page: when the `ap` element exists and
      its value is non-empty, that value is parsed; otherwise the whole page
      becomes `apiData`. A missing element is not an error. */
  function ExtractDocument(host: Host, doc: string): (e: Outcome)
    ensures host.apValue(doc) == None || host.apValue(doc) == Some("") ==> e == Outcome(doc, None)
  {
    match host.apValue(doc)
    case Some(v) => if v != "" then ParseCarrier(host, v) else Outcome(doc, None)
    case None => Outcome(doc, None)
  }

  /** The paste handler's routing: text holding the literal `id="ap"` goes
      through the page extraction; any other text is parsed as JSON
      directly and shown as it is when it does not parse. */
  function ExtractPaste(host: Host, content: string): (e: Outcome)
    ensures Contains(content, CarrierMarker) ==> e == ExtractDocument(host, content)
    ensures !Contains(content, CarrierMarker) ==> e == ParseCarrier(host, content)
  {
    if Contains(content, CarrierMarker) then ExtractDocument(host, content)
    else ParseCarrier(host, content)
  }

  /** Where `apiData` comes from: the whole page when the carrier is
      missing or empty, the raw carrier value when it does not parse (or
      parses to null), the pretty-printed value otherwise. */
  lemma ApiDataSource(host: Host, doc: string)
    ensures var e := ExtractDocument(host, doc);
      match host.apValue(doc)
      case None => e.apiData == doc
      case Some(v) =>
        if v == "" then e.apiData == doc
        else if host.parse(v).None? || host.parse(v) == Some(JNull) then e.apiData == v
        else e.apiData == host.stringify(host.parse(v).value)
  {
  }

  /** Tokens are processed exactly when the carrier is present, non-empty,
      parses, and its `Tokens` member is an array; the array is then passed
      on unchanged, non-string entries included. */
  lemma TokensIff(host: Host, doc: string)
    ensures var e := ExtractDocument(host, doc);
      e.tokens.Some? <==>
        (exists v, items :: host.apValue(doc) == Some(v) && v != "" && host.parse(v).Some? &&
           Property(host.parse(v).value, "Tokens") == Some(JArr(items)))
    ensures var e := ExtractDocument(host, doc);
      forall v, items ::
        (host.apValue(doc) == Some(v) && v != "" && host.parse(v).Some? &&
         Property(host.parse(v).value, "Tokens") == Some(JArr(items))) ==> e.tokens == Some(items)
  {
    var e := ExtractDocument(host, doc);
    if e.tokens.Some? {
      var v := host.apValue(doc).value;
      assert Property(host.parse(v).value, "Tokens") == Some(JArr(e.tokens.value));
    }
  }

  /** Pasting the pretty-printed `apiData` of a successful extraction back
      in reproduces the same outcome, provided `JSON.parse` reads back what
      `JSON.stringify` wrote and the printed text does not hold the
      carrier literal. */
  lemma RepasteDisplayedData(host: Host, doc: string, v: string, j: Json)
    requires host.apValue(doc) == Some(v) && v != ""
    requires host.parse(v) == Some(j) && j != JNull
    requires host.parse(host.stringify(j)) == Some(j)
    requires !Contains(host.stringify(j), CarrierMarker)
    ensures ExtractPaste(host, ExtractDocument(host, doc).apiData) == ExtractDocument(host, doc)
  {
  }
}
