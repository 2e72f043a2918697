/** Claim decoding: `decodeJWT` and the map/filter step of `processTokens`.
    A compact token (section 7.1 of RFC 7515) is split on '.', and only the
    middle segment is decoded: its base64url characters (section 5 of
    RFC 4648) are mapped to the standard alphabet, `atob` turns it into a
    binary string, and `JSON.parse` reads that string. Every failure is null. */
module Claims {
  import opened Common
  import opened Js
  import opened Base64

  /** `s.replace(/-/g, '+').replace(/_/g, '/')`. */
  function ToStandardAlphabet(s: string): (r: string)
    ensures |r| == |s|
    ensures forall i :: 0 <= i < |s| ==>
      r[i] == (if s[i] == '-' then '+' else if s[i] == '_' then '/' else s[i])
  {
    seq(|s|, i requires 0 <= i < |s| => if s[i] == '-' then '+' else if s[i] == '_' then '/' else s[i])
  }

  /** The base64url form of a standard-alphabet string ('+' as '-', '/' as '_'). */
  function ToUrlAlphabet(s: string): (r: string)
    ensures |r| == |s|
    ensures forall i :: 0 <= i < |s| ==>
      r[i] == (if s[i] == '+' then '-' else if s[i] == '/' then '_' else s[i])
  {
    seq(|s|, i requires 0 <= i < |s| => if s[i] == '+' then '-' else if s[i] == '/' then '_' else s[i])
  }

  /** The binary string `atob` returns: one character per byte. */
  function BinaryString(bytes: seq<Byte>): (r: string)
    ensures |r| == |bytes| && forall i :: 0 <= i < |bytes| ==> r[i] as int == bytes[i]
  {
    seq(|bytes|, i requires 0 <= i < |bytes| => bytes[i] as char)
  }

  /** JavaScript's null for a failed parse, the parsed value otherwise. */
  function OrNull(v: Option<Json>): Json
  {
    if v.Some? then v.value else JNull
  }

  /** `decodeJWT(token)` with `JSON.parse` given as `parse` (None where it
      throws). The result is null when the token does not have exactly three
      segments, when `atob` rejects the middle one, or when the binary string
      is not JSON. */
  function DecodeJwt(parse: string -> Option<Json>, token: string): (r: Json)
    ensures r != JNull ==> |Split(token, '.')| == 3
    ensures r != JNull ==> Atob(ToStandardAlphabet(Split(token, '.')[1])).Some?
  {
    var parts := Split(token, '.');
    if |parts| != 3 then JNull
    else
      match Atob(ToStandardAlphabet(parts[1]))
      case None => JNull
      case Some(bytes) => OrNull(parse(BinaryString(bytes)))
  }

  /** `decodeJWT` applied to an entry of the `Tokens` array. An entry that is
      not a string has no `split` method; the call throws and the catch
      returns null. */
  function DecodeEntry(parse: string -> Option<Json>, entry: Json): (r: Json)
    ensures !entry.JStr? ==> r == JNull
  {
    if entry.JStr? then DecodeJwt(parse, entry.s) else JNull
  }

  /** `tokenArray.map(decodeJWT)`. */
  function Decodes(parse: string -> Option<Json>, tokens: seq<Json>): (ds: seq<Json>)
    ensures |ds| == |tokens|
    ensures forall i :: 0 <= i < |tokens| ==> ds[i] == DecodeEntry(parse, tokens[i])
  {
    seq(|tokens|, i requires 0 <= i < |tokens| => DecodeEntry(parse, tokens[i]))
  }

  /** `.filter(Boolean)`: the truthy values, in order. */
  function Truthies(ds: seq<Json>): (r: seq<Json>)
    ensures |r| <= |ds|
    ensures forall k :: 0 <= k < |r| ==> Truthy(r[k])
  {
    if ds == [] then []
    else (if Truthy(ds[0]) then [ds[0]] else []) + Truthies(ds[1..])
  }

  /** `tokenArray.map(decodeJWT).filter(Boolean)`. */
  function DecodedClaims(parse: string -> Option<Json>, tokens: seq<Json>): (r: seq<Json>)
    ensures |r| <= |tokens|
    ensures forall k :: 0 <= k < |r| ==> Truthy(r[k])
  {
    Truthies(Decodes(parse, tokens))
  }

  /** The positions `from`, `from + 1`, ... of `ds` holding a truthy value,
      ascending: the positions the filter keeps. */
  function Kept(ds: seq<Json>, from: nat): (ks: seq<nat>)
    requires from <= |ds|
    ensures forall k :: 0 <= k < |ks| ==> from <= ks[k] < |ds|
    ensures forall k, l :: 0 <= k < l < |ks| ==> ks[k] < ks[l]
    ensures forall i :: from <= i < |ds| ==> (i in ks <==> Truthy(ds[i]))
    decreases |ds| - from
  {
    if from == |ds| then []
    else (if Truthy(ds[from]) then [from] else []) + Kept(ds, from + 1)
  }

  /** The filter keeps exactly the values at the kept positions, in order. */
  lemma {:induction false} TruthiesAreKept(ds: seq<Json>, from: nat)
    requires from <= |ds|
    ensures var ks, t := Kept(ds, from), Truthies(ds[from..]);
      |t| == |ks| && forall k :: 0 <= k < |ks| ==> t[k] == ds[ks[k]]
    decreases |ds| - from
  {
    if from < |ds| {
      var ks, t := Kept(ds, from), Truthies(ds[from..]);
      var rest, t' := Kept(ds, from + 1), Truthies(ds[from + 1..]);
      TruthiesAreKept(ds, from + 1);
      assert t == (if Truthy(ds[from]) then [ds[from]] else []) + t' by {
        assert ds[from..][1..] == ds[from + 1..];
      }
      if Truthy(ds[from]) {
        assert ks == [from] + rest;
        forall k | 0 < k < |ks| ensures t[k] == ds[ks[k]] {
          assert t[k] == t'[k - 1] && ks[k] == rest[k - 1];
        }
      } else {
        assert ks == rest;
      }
    }
  }

  /** `decodedTokens` is exactly the decodes at the kept positions, in order. */
  lemma ClaimsAreKeptDecodes(parse: string -> Option<Json>, tokens: seq<Json>)
    ensures var ks := Kept(Decodes(parse, tokens), 0);
      DecodedClaims(parse, tokens) ==
        seq(|ks|, k requires 0 <= k < |ks| => DecodeEntry(parse, tokens[ks[k]]))
  {
    var ds := Decodes(parse, tokens);
    TruthiesAreKept(ds, 0);
    assert ds[0..] == ds;
    var ks := Kept(ds, 0);
    assert DecodedClaims(parse, tokens) == seq(|ks|, k requires 0 <= k < |ks| => ds[ks[k]]);
  }

  /** The filter keeps every value exactly when all of them are truthy, and
      then changes nothing. */
  lemma {:induction false} TruthiesAllIff(ds: seq<Json>)
    ensures |Truthies(ds)| == |ds| <==> forall i :: 0 <= i < |ds| ==> Truthy(ds[i])
    ensures (forall i :: 0 <= i < |ds| ==> Truthy(ds[i])) ==> Truthies(ds) == ds
  {
    if ds != [] {
      TruthiesAllIff(ds[1..]);
      var rest := Truthies(ds[1..]);
      if !Truthy(ds[0]) {
        assert |Truthies(ds)| == |rest| <= |ds| - 1;
      } else {
        assert Truthies(ds) == [ds[0]] + rest;
        if |rest| == |ds| - 1 {
          forall i | 1 <= i < |ds| ensures Truthy(ds[i]) {
            assert ds[1..][i - 1] == ds[i];
          }
        }
        if forall i :: 0 <= i < |ds| ==> Truthy(ds[i]) {
          forall i | 0 <= i < |ds[1..]| ensures Truthy(ds[1..][i]) {
            assert ds[1..][i] == ds[i + 1];
          }
          assert ds == [ds[0]] + ds[1..];
        }
      }
    }
  }

  /** `decodedTokens` lines up with `tokens` position by position exactly
      when every entry decodes to a truthy value; otherwise it is shorter,
      so its indices drift from those of `tokens`. */
  lemma ClaimsAlignIff(parse: string -> Option<Json>, tokens: seq<Json>)
    ensures |DecodedClaims(parse, tokens)| == |tokens| <==>
      forall i :: 0 <= i < |tokens| ==> Truthy(DecodeEntry(parse, tokens[i]))
    ensures (forall i :: 0 <= i < |tokens| ==> Truthy(DecodeEntry(parse, tokens[i]))) ==>
      forall i :: 0 <= i < |tokens| ==> DecodedClaims(parse, tokens)[i] == DecodeEntry(parse, tokens[i])
  {
    TruthiesAllIff(Decodes(parse, tokens));
  }

  /** A token whose segment count is not three decodes to null. */
  lemma SegmentCountMismatchIsNull(parse: string -> Option<Json>, token: string)
    requires Count(token, '.') != 2
    ensures DecodeJwt(parse, token) == JNull
  {
  }

  /** Only the middle segment matters: the header and signature segments
      can be replaced by any other dot-free strings. */
  lemma OnlyMiddleSegmentDecoded(parse: string -> Option<Json>,
                                 header: string, payload: string, signature: string,
                                 header': string, signature': string)
    requires '.' !in header && '.' !in payload && '.' !in signature
    requires '.' !in header' && '.' !in signature'
    ensures DecodeJwt(parse, header + "." + payload + "." + signature) ==
            DecodeJwt(parse, header' + "." + payload + "." + signature')
  {
    ThreeSegments(header, payload, signature);
    ThreeSegments(header', payload, signature');
  }

  lemma ThreeSegments(a: string, b: string, c: string)
    requires '.' !in a && '.' !in b && '.' !in c
    ensures Split(a + "." + b + "." + c, '.') == [a, b, c]
  {
    var parts := [a, b, c];
    assert Join(parts[1..], '.') == b + "." + c;
    assert Join(parts, '.') == a + "." + b + "." + c;
    SplitJoin(parts, '.');
  }

  /** The standard-alphabet mapping undoes the base64url mapping. */
  lemma StandardOfUrl(s: string)
    requires AllAlphabet(s)
    ensures ToStandardAlphabet(ToUrlAlphabet(s)) == s
  {
  }

  /** Round trip: a token whose middle segment is the unpadded base64url
      encoding of some bytes decodes to what `JSON.parse` makes of those
      bytes' binary string, whatever the other two segments are. */
  lemma DecodeEncodedToken(parse: string -> Option<Json>, header: string, payload: seq<Byte>, signature: string)
    requires '.' !in header && '.' !in signature
    ensures DecodeJwt(parse, header + "." + ToUrlAlphabet(EncodeCore(payload)) + "." + signature) ==
            OrNull(parse(BinaryString(payload)))
  {
    var core := EncodeCore(payload);
    var middle := ToUrlAlphabet(core);
    assert '.' !in middle by {
      forall i | 0 <= i < |middle| ensures middle[i] != '.' { assert IsAlphabetChar(core[i]); }
    }
    ThreeSegments(header, middle, signature);
    StandardOfUrl(core);
    AtobEncodeCore(payload);
  }
}

/** Concrete instances of the claim decoder's behaviour. */
module ClaimsExamples {
  import opened Common
  import opened Js
  import opened Base64
  import opened Claims

  /** A token without dots is a single segment and decodes to null. */
  lemma NotAJwt(parse: string -> Option<Json>)
    ensures DecodeJwt(parse, "not-a-jwt") == JNull
  {
    assert Count("not-a-jwt", '.') == 0;
  }

  /** "a.MQ.c" carries the single byte 49, the text "1", in its middle
      segment. */
  lemma SingleByteClaim(parse: string -> Option<Json>)
    ensures DecodeJwt(parse, "a.MQ.c") == OrNull(parse("1"))
  {
    var q: seq<Byte> := [49];
    assert CharOf(12) == 'M' && CharOf(16) == 'Q';
    assert EncodeCore(q) == "MQ";
    assert ToUrlAlphabet("MQ") == "MQ";
    assert BinaryString(q) == "1";
    DecodeEncodedToken(parse, "a", q, "c");
    assert "a" + "." + "MQ" + "." + "c" == "a.MQ.c";
  }

  /** A token that fails to decode ahead of one that decodes shifts the
      second token's claims to position 0 of `decodedTokens`. */
  lemma FailedFirstShifts(parse: string -> Option<Json>, t0: Json, t1: Json)
    requires !Truthy(DecodeEntry(parse, t0)) && Truthy(DecodeEntry(parse, t1))
    ensures DecodedClaims(parse, [t0, t1]) == [DecodeEntry(parse, t1)]
  {
    var d0, d1 := DecodeEntry(parse, t0), DecodeEntry(parse, t1);
    assert Decodes(parse, [t0, t1]) == [d0, d1];
    assert Truthies([d0, d1]) == [d1] by {
      assert [d0, d1][1..] == [d1];
      assert [d1][1..] == [];
    }
  }

  /** The drift on concrete tokens: "not-a-jwt" decodes to null, so the
      claims of "a.MQ.c" (the number 1) sit at position 0 of
      `decodedTokens` while the token itself sits at position 1 of
      `tokens`. */
  lemma DriftExample(parse: string -> Option<Json>)
    requires parse("1") == Some(JNum(1))
    ensures var tokens := [JStr("not-a-jwt"), JStr("a.MQ.c")];
      DecodeEntry(parse, tokens[0]) == JNull &&
      DecodeEntry(parse, tokens[1]) == JNum(1) &&
      DecodedClaims(parse, tokens) == [JNum(1)]
  {
    NotAJwt(parse);
    SingleByteClaim(parse);
    FailedFirstShifts(parse, JStr("not-a-jwt"), JStr("a.MQ.c"));
  }
}
