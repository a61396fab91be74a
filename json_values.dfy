/** Values as Python holds them after decoding a JSON document: the raw device and
    user records, and every configuration tree the checks look into. */
module JsonValues {

  /** A decoded JSON value. An object is an association list of its members in
      insertion order; a Python dict has distinct keys, so every dict is one of these. */
  datatype Json =
    | JNull
    | JBool(b: bool)
    | JInt(i: int)
    | JStr(s: string)
    | JList(items: seq<Json>)
    | JObject(fields: seq<(string, Json)>)

  /** Python truthiness (`if x`, `not x`, `all`, `any`). */
  predicate Truthy(j: Json)
  {
    match j
    case JNull => false
    case JBool(b) => b
    case JInt(i) => i != 0
    case JStr(s) => s != ""
    case JList(xs) => xs != []
    case JObject(fs) => fs != []
  }

  function DigitChar(d: nat): (c: char)
    requires d < 10
    ensures '0' <= c <= '9'
  {
    (('0' as int) + d) as char
  }

  /** Decimal text of a natural number, without leading zeros. */
  function NatText(n: nat): (s: string)
    ensures |s| >= 1
    ensures forall k :: 0 <= k < |s| ==> '0' <= s[k] <= '9'
    ensures s[0] == '0' ==> n == 0
  {
    if n < 10 then [DigitChar(n)] else NatText(n / 10) + [DigitChar(n % 10)]
  }

  /** Python `str()` of an int. */
  function IntText(i: int): string
  {
    if i < 0 then "-" + NatText(-i) else NatText(i)
  }

  function BoolText(b: bool): string
  {
    if b then "True" else "False"
  }

  function Join(parts: seq<string>, sep: string): string
  {
    if |parts| == 0 then "" else if |parts| == 1 then parts[0] else parts[0] + sep + Join(parts[1..], sep)
  }

  /** Python `str()` of a value, as an f-string interpolates it. */
  function Str(j: Json): string
  {
    match j
    case JStr(s) => s
    case _ => Repr(j)
  }

  /** Python `repr()` of a value (strings in single quotes, without escaping). */
  function Repr(j: Json): string
  {
    match j
    case JNull => "None"
    case JBool(b) => BoolText(b)
    case JInt(i) => IntText(i)
    case JStr(s) => "'" + s + "'"
    case JList(xs) =>
      "[" + Join(seq(|xs|, k requires 0 <= k < |xs| => Repr(xs[k])), ", ") + "]"
    case JObject(fs) =>
      "{" + Join(seq(|fs|, k requires 0 <= k < |fs| => "'" + fs[k].0 + "': " + Repr(fs[k].1)), ", ") + "}"
  }
}
