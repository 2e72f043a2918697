/** `atob` as the browser runs it: the forgiving-base64 decode of the WHATWG
    Infra standard over the alphabet of section 4 of RFC 4648, with padding
    optional. An encoder is given beside it as the decoder's inverse. */
module Base64 {
  import opened Common

  type Byte = b: int | 0 <= b < 256

  predicate IsAlphabetChar(c: char)
  {
    'A' <= c <= 'Z' || 'a' <= c <= 'z' || '0' <= c <= '9' || c == '+' || c == '/'
  }

  predicate AllAlphabet(s: string)
  {
    forall i :: 0 <= i < |s| ==> IsAlphabetChar(s[i])
  }

  /** The ASCII whitespace `atob` ignores: tab, line feed, form feed,
      carriage return and space. */
  predicate IsAsciiWhitespace(c: char)
  {
    c == '\t' || c == '\n' || c as int == 12 || c == '\r' || c == ' '
  }

  /** The six-bit value of an alphabet character. */
  function SixBits(c: char): (v: nat)
    requires IsAlphabetChar(c)
    ensures v < 64
  {
    if 'A' <= c <= 'Z' then c as int - 'A' as int
    else if 'a' <= c <= 'z' then c as int - 'a' as int + 26
    else if '0' <= c <= '9' then c as int - '0' as int + 52
    else if c == '+' then 62
    else 63
  }

  /** The alphabet character that stands for a six-bit value. */
  function CharOf(v: nat): (c: char)
    requires v < 64
    ensures IsAlphabetChar(c) && SixBits(c) == v
  {
    if v < 26 then ('A' as int + v) as char
    else if v < 52 then ('a' as int + v - 26) as char
    else if v < 62 then ('0' as int + v - 52) as char
    else if v == 62 then '+'
    else '/'
  }

  /** Step 1 of the forgiving decode: drop every ASCII whitespace character. */
  function RemoveWhitespace(s: string): (r: string)
    ensures forall i :: 0 <= i < |r| ==> !IsAsciiWhitespace(r[i])
    ensures (forall i :: 0 <= i < |s| ==> !IsAsciiWhitespace(s[i])) ==> r == s
    ensures |r| <= |s|
  {
    if s == [] then []
    else
      var rest := RemoveWhitespace(s[1..]);
      assert (forall i :: 0 <= i < |s| ==> !IsAsciiWhitespace(s[i])) ==>
             (forall i :: 0 <= i < |s[1..]| ==> !IsAsciiWhitespace(s[1..][i]));
      assert s == [s[0]] + s[1..];
      (if IsAsciiWhitespace(s[0]) then [] else [s[0]]) + rest
  }

  /** Removing whitespace works character by character: it distributes
      over concatenation, and a single character is dropped exactly when it
      is whitespace. Together these fix the result and its order. */
  lemma {:induction false} RemoveWhitespaceAppend(a: string, b: string)
    ensures RemoveWhitespace(a + b) == RemoveWhitespace(a) + RemoveWhitespace(b)
  {
    if a != [] {
      var keep := if IsAsciiWhitespace(a[0]) then [] else [a[0]];
      assert (a + b)[0] == a[0] && (a + b)[1..] == a[1..] + b;
      assert RemoveWhitespace(a + b) == keep + RemoveWhitespace(a[1..] + b);
      assert RemoveWhitespace(a) == keep + RemoveWhitespace(a[1..]);
      RemoveWhitespaceAppend(a[1..], b);
      assert keep + (RemoveWhitespace(a[1..]) + RemoveWhitespace(b)) ==
             (keep + RemoveWhitespace(a[1..])) + RemoveWhitespace(b);
    } else {
      assert a + b == b;
    }
  }

  lemma RemoveWhitespaceChar(c: char)
    ensures RemoveWhitespace([c]) == if IsAsciiWhitespace(c) then [] else [c]
  {
    assert [c][1..] == [];
  }

  /** Step 2: when the length is a multiple of four, one or two trailing
      '=' are removed, as many as there are. */
  function StripPadding(s: string): (r: string)
    ensures |r| <= |s| && r == s[..|r|]
    ensures |s| % 4 != 0 ==> r == s
    ensures |s| - |r| <= 2 && forall i :: |r| <= i < |s| ==> s[i] == '='
    ensures |s| % 4 == 0 && |s| >= 1 && s[|s| - 1] == '=' ==> |r| < |s|
    ensures |s| % 4 == 0 && |s| >= 2 && s[|s| - 1] == '=' && s[|s| - 2] == '=' ==> |r| == |s| - 2
  {
    if |s| % 4 == 0 && |s| >= 2 && s[|s| - 1] == '=' && s[|s| - 2] == '=' then s[..|s| - 2]
    else if |s| % 4 == 0 && |s| >= 1 && s[|s| - 1] == '=' then s[..|s| - 1]
    else s
  }

  /** Three bytes from four characters: 24 bits, high bits first. */
  function DecodeQuad(a: nat, b: nat, c: nat, d: nat): (r: seq<Byte>)
    requires a < 64 && b < 64 && c < 64 && d < 64
    ensures |r| == 3
  {
    [a * 4 + b / 16, (b % 16) * 16 + c / 4, (c % 4) * 64 + d]
  }

  /** The decoding loop over a whitespace-free, unpadded string of alphabet
      characters: a final group of two characters yields one byte and a
      final group of three yields two; the left-over low bits are discarded. */
  function DecodeCore(s: string): (r: seq<Byte>)
    requires AllAlphabet(s) && |s| % 4 != 1
    ensures |r| == |s| * 3 / 4
  {
    if |s| == 0 then []
    else if |s| == 2 then [SixBits(s[0]) * 4 + SixBits(s[1]) / 16]
    else if |s| == 3 then
      [SixBits(s[0]) * 4 + SixBits(s[1]) / 16, (SixBits(s[1]) % 16) * 16 + SixBits(s[2]) / 4]
    else
      DecodeQuad(SixBits(s[0]), SixBits(s[1]), SixBits(s[2]), SixBits(s[3])) + DecodeCore(s[4..])
  }

  /** `atob(data)`: the decoded bytes, or None where the browser throws
      (a length of 1 modulo 4 once whitespace and padding are gone, or a
      character outside the alphabet, '=' in the middle included). */
  function Atob(data: string): (r: Option<seq<Byte>>)
    ensures r.None? <==>
      (var s := StripPadding(RemoveWhitespace(data)); |s| % 4 == 1 || !AllAlphabet(s))
  {
    var s := StripPadding(RemoveWhitespace(data));
    if |s| % 4 == 1 || !AllAlphabet(s) then None else Some(DecodeCore(s))
  }

  /** Four characters from three bytes: 24 bits, six at a time, high bits first. */
  function EncodeGroup(x: Byte, y: Byte, z: Byte): (q: string)
    ensures |q| == 4 && AllAlphabet(q)
  {
    [CharOf(x / 4), CharOf((x % 4) * 16 + y / 16), CharOf((y % 16) * 4 + z / 64), CharOf(z % 64)]
  }

  lemma AlphabetAppend(a: string, b: string)
    requires AllAlphabet(a) && AllAlphabet(b)
    ensures AllAlphabet(a + b)
  {
    forall i | 0 <= i < |a + b| ensures IsAlphabetChar((a + b)[i]) {
      if i >= |a| { assert (a + b)[i] == b[i - |a|]; }
    }
  }

  /** The unpadded encoding: every three bytes become four characters, a
      final one byte two characters, a final two bytes three characters. */
  function EncodeCore(bytes: seq<Byte>): (s: string)
    ensures AllAlphabet(s) && |s| % 4 != 1
  {
    if |bytes| == 0 then []
    else if |bytes| == 1 then [CharOf(bytes[0] / 4), CharOf((bytes[0] % 4) * 16)]
    else if |bytes| == 2 then
      [CharOf(bytes[0] / 4), CharOf((bytes[0] % 4) * 16 + bytes[1] / 16), CharOf((bytes[1] % 16) * 4)]
    else
      var group := EncodeGroup(bytes[0], bytes[1], bytes[2]);
      var rest := EncodeCore(bytes[3..]);
      AlphabetAppend(group, rest);
      group + rest
  }

  /** The padded encoding (what `btoa` produces): '=' up to a multiple of four. */
  function Encode(bytes: seq<Byte>): string
  {
    var core := EncodeCore(bytes);
    core + Padding(core)
  }

  lemma QuadRoundTrip(x: Byte, y: Byte, z: Byte)
    ensures DecodeQuad(x / 4, (x % 4) * 16 + y / 16, (y % 16) * 4 + z / 64, z % 64) == [x, y, z]
  {
    var b := (x % 4) * 16 + y / 16;
    var c := (y % 16) * 4 + z / 64;
    assert b / 16 == x % 4 && b % 16 == y / 16;
    assert c / 4 == y % 16 && c % 4 == z / 64;
  }

  lemma OneByteRoundTrip(x: Byte)
    ensures DecodeCore(EncodeCore([x])) == [x]
  {
    var s := EncodeCore([x]);
    assert SixBits(s[0]) == x / 4 && SixBits(s[1]) == (x % 4) * 16;
  }

  lemma TwoByteRoundTrip(x: Byte, y: Byte)
    ensures DecodeCore(EncodeCore([x, y])) == [x, y]
  {
    var s := EncodeCore([x, y]);
    var b := (x % 4) * 16 + y / 16;
    assert SixBits(s[0]) == x / 4 && SixBits(s[1]) == b && SixBits(s[2]) == (y % 16) * 4;
    assert b / 16 == x % 4 && b % 16 == y / 16;
  }

  /** Decoding a leading group of four characters yields its three bytes. */
  lemma DecodeGroup(x: Byte, y: Byte, z: Byte, t: string)
    requires AllAlphabet(t) && |t| % 4 != 1
    ensures var s := EncodeGroup(x, y, z) + t;
      AllAlphabet(s) && |s| % 4 != 1 && DecodeCore(s) == [x, y, z] + DecodeCore(t)
  {
    var a, b, c, d := x / 4, (x % 4) * 16 + y / 16, (y % 16) * 4 + z / 64, z % 64;
    var s := EncodeGroup(x, y, z) + t;
    AlphabetAppend(EncodeGroup(x, y, z), t);
    assert s[4..] == t;
    assert SixBits(s[0]) == a && SixBits(s[1]) == b && SixBits(s[2]) == c && SixBits(s[3]) == d;
    QuadRoundTrip(x, y, z);
  }

  /** Decoding undoes the unpadded encoding. */
  lemma {:induction false} DecodeEncodeCore(bytes: seq<Byte>)
    ensures DecodeCore(EncodeCore(bytes)) == bytes
  {
    if |bytes| == 1 {
      OneByteRoundTrip(bytes[0]);
      assert bytes == [bytes[0]];
    } else if |bytes| == 2 {
      TwoByteRoundTrip(bytes[0], bytes[1]);
      assert bytes == [bytes[0], bytes[1]];
    } else if |bytes| >= 3 {
      var x, y, z, rest := bytes[0], bytes[1], bytes[2], bytes[3..];
      assert DecodeCore(EncodeCore(bytes)) == [x, y, z] + DecodeCore(EncodeCore(rest)) by {
        assert EncodeCore(bytes) == EncodeGroup(x, y, z) + EncodeCore(rest);
        DecodeGroup(x, y, z, EncodeCore(rest));
      }
      DecodeEncodeCore(rest);
      assert bytes == [x, y, z] + rest;
    }
  }

  /** `atob` recovers the bytes from the unpadded encoding. */
  lemma AtobEncodeCore(bytes: seq<Byte>)
    ensures Atob(EncodeCore(bytes)) == Some(bytes)
  {
    var s := EncodeCore(bytes);
    assert RemoveWhitespace(s) == s;
    assert |s| % 4 == 0 && |s| >= 1 ==> IsAlphabetChar(s[|s| - 1]);
    assert StripPadding(s) == s;
    DecodeEncodeCore(bytes);
  }

  /** The '=' padding the encoder appends to an unpadded encoding. */
  function Padding(core: string): string
  {
    if |core| % 4 == 2 then "==" else if |core| % 4 == 3 then "=" else ""
  }

  /** Alphabet characters and '=' are not whitespace, so step 1 keeps a
      padded encoding as it is. */
  lemma PaddedHasNoWhitespace(core: string)
    requires AllAlphabet(core)
    ensures RemoveWhitespace(core + Padding(core)) == core + Padding(core)
  {
    var s := core + Padding(core);
    forall i | 0 <= i < |s| ensures !IsAsciiWhitespace(s[i]) {
      if i < |core| { assert s[i] == core[i]; }
    }
  }

  /** The padding the encoder appends is exactly what step 2 removes. */
  lemma StripEncodePadding(core: string)
    requires AllAlphabet(core) && |core| % 4 != 1
    ensures StripPadding(core + Padding(core)) == core
  {
    var s := core + Padding(core);
    if |core| % 4 == 2 {
      assert StripPadding(s) == core by {
        assert s == core + "==";
        assert s[|s| - 1] == '=' && s[|s| - 2] == '=';
        assert s[..|s| - 2] == core;
      }
    } else if |core| % 4 == 3 {
      assert StripPadding(s) == core by {
        assert s == core + "=";
        assert s[|s| - 1] == '=' && s[|s| - 2] == core[|core| - 1];
        assert s[..|s| - 1] == core;
      }
    } else {
      assert StripPadding(s) == core by {
        assert s == core;
        assert |s| > 0 ==> IsAlphabetChar(s[|s| - 1]);
      }
    }
  }

  /** `atob` recovers the bytes from the padded encoding. */
  lemma AtobEncode(bytes: seq<Byte>)
    ensures Atob(Encode(bytes)) == Some(bytes)
  {
    PaddedHasNoWhitespace(EncodeCore(bytes));
    StripEncodePadding(EncodeCore(bytes));
    DecodeEncodeCore(bytes);
  }

  /** A string whose cleaned length is 1 modulo 4 is always rejected. */
  lemma AtobRejectsDanglingChar(data: string)
    requires |StripPadding(RemoveWhitespace(data))| % 4 == 1
    ensures Atob(data) == None
  {
  }
}
