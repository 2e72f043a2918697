/** JavaScript values as `JSON.parse` produces them, and the few built-in
    operations the login code applies to them: truthiness, property
    reads and `toString`. */
module Js {
  import opened Common

  /** A parsed JSON value. Numbers are restricted to integers; object
      members keep their source order. */
  datatype Json =
    | JNull
    | JBool(b: bool)
    | JNum(n: int)
    | JStr(s: string)
    | JArr(items: seq<Json>)
    | JObj(fields: seq<(string, Json)>)

  /** JavaScript truthiness (`Boolean(v)`, `!v`, `v && ...`). */
  predicate Truthy(j: Json)
  {
    match j
    case JNull => false
    case JBool(b) => b
    case JNum(n) => n != 0
    case JStr(s) => s != ""
    case JArr(_) => true
    case JObj(_) => true
  }

  /** The value stored under `key` in an object's member list. */
  function Lookup(fields: seq<(string, Json)>, key: string): (r: Option<Json>)
    ensures r.Some? <==> exists i :: 0 <= i < |fields| && fields[i].0 == key
    ensures r.Some? ==> exists i :: 0 <= i < |fields| && fields[i] == (key, r.value)
  {
    if fields == [] then None
    else if fields[0].0 == key then Some(fields[0].1)
    else
      var r := Lookup(fields[1..], key);
      assert forall i :: 0 <= i < |fields| - 1 ==> fields[1..][i] == fields[i + 1];
      r
  }

  /** `v.key` for a non-null value and one of the keys the code reads
      (`Alias`, `Password`, `Tokens`, `toString` of a parsed value): an
      object's own member, or undefined (None). None of these keys is
      inherited by a parsed value, so every other kind of value gives
      undefined. Reading a property of null throws, which callers handle
      before calling this. */
  function Property(j: Json, key: string): (r: Option<Json>)
    ensures r.Some? <==> j.JObj? && exists i :: 0 <= i < |j.fields| && j.fields[i].0 == key
  {
    if j.JObj? then Lookup(j.fields, key) else None
  }

  predicate AllDigits(s: string)
  {
    forall i :: 0 <= i < |s| ==> '0' <= s[i] <= '9'
  }

  /** The number a string of decimal digits spells, most significant first. */
  function DigitsValue(s: string): nat
    requires AllDigits(s)
  {
    if s == [] then 0 else DigitsValue(s[..|s| - 1]) * 10 + (s[|s| - 1] as int - '0' as int)
  }

  /** The decimal digits of a natural number: they spell `n`, with no
      leading zero except in "0" itself. */
  function Digits(n: nat): (r: string)
    ensures |r| >= 1 && AllDigits(r)
    ensures DigitsValue(r) == n
    ensures |r| == 1 || r[0] != '0'
    decreases n
  {
    var last := ['0' + (n % 10) as char];
    if n < 10 then last
    else
      var front := Digits(n / 10);
      assert (front + last)[..|front|] == front;
      front + last
  }

  /** `String(n)` for an integer: a minus sign before the digits of a
      negative number. */
  function Decimal(n: int): (r: string)
    ensures n >= 0 ==> AllDigits(r) && DigitsValue(r) == n
    ensures n < 0 ==> |r| >= 2 && r[0] == '-' && AllDigits(r[1..]) && DigitsValue(r[1..]) == -n
  {
    if n < 0 then
      var d := Digits(-n);
      assert ("-" + d)[1..] == d;
      "-" + d
    else Digits(n)
  }

  /** A value whose conversion to text throws: an object with a member of
      its own named `toString` (a parsed value is data, never callable, so
      both `v.toString()` and the string conversion's fallback to `valueOf`,
      which returns the object itself, fail), or an array holding such a
      value at any depth. */
  predicate Unprintable(j: Json)
  {
    match j
    case JObj(fields) => Lookup(fields, "toString").Some?
    case JArr(items) => exists i :: 0 <= i < |items| && Unprintable(items[i])
    case _ => false
  }

  /** The text `String(v)` gives for a value standing inside an array being
      joined, None where the conversion throws: null becomes the empty
      string, nested arrays are joined with commas, objects print as
      "[object Object]". */
  function Text(j: Json): (r: Option<string>)
    ensures r.None? <==> Unprintable(j)
    ensures j.JStr? ==> r == Some(j.s)
    ensures j.JNum? ==> r == Some(Decimal(j.n))
  {
    match j
    case JNull => Some("")
    case JBool(b) => Some(if b then "true" else "false")
    case JNum(n) => Some(Decimal(n))
    case JStr(s) => Some(s)
    case JArr(items) =>
      var texts := seq(|items|, i requires 0 <= i < |items| => Text(items[i]));
      if forall i :: 0 <= i < |texts| ==> texts[i].Some? then
        assert forall i :: 0 <= i < |items| ==> Text(items[i]) == texts[i];
        Some(Join(seq(|texts|, i requires 0 <= i < |texts| => texts[i].value), ','))
      else None
    case JObj(fields) => if Lookup(fields, "toString").Some? then None else Some("[object Object]")
  }

  /** `v.toString()`: throws (None) on null and on a value whose text
      conversion throws, otherwise gives the value's text. */
  function ToString(j: Json): (r: Option<string>)
    ensures r.None? <==> j.JNull? || Unprintable(j)
    ensures j.JStr? ==> r == Some(j.s)
    ensures j.JNum? ==> r == Some(Decimal(j.n))
  {
    if j.JNull? then None else Text(j)
  }
}
