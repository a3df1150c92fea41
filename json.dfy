/** JSON values as the store sees them once the document text has been parsed
    (RFC 8259 values: null, booleans, numbers, strings, arrays, objects), and the
    Qt conversions `toString`, `toInt` and `toDouble` that `Transaction::fromJson`
    applies to the fields it reads. */
module Json {

  datatype Json =
    | JNull
    | JBool(b: bool)
    | JNumber(n: real)
    | JString(s: string)
    | JArray(items: seq<Json>)
    | JObject(fields: map<string, Json>)

  type Object = map<string, Json>

  /** Bounds of the 32-bit `int` that `toInt` returns. */
  const IntMin: int := -0x8000_0000
  const IntMax: int := 0x7FFF_FFFF

  /** A const lookup on a JSON object: a missing key yields the undefined value,
      which every conversion below treats exactly like null. */
  function Get(obj: Object, key: string): Json {
    if key in obj then obj[key] else JNull
  }

  /** `toString()`: the text of a string value, the empty string otherwise. */
  function ToText(v: Json): (s: string)
    ensures v.JString? ==> s == v.s
    ensures s != "" ==> v.JString?
  {
    if v.JString? then v.s else ""
  }

  /** `toDouble()`: the value of a number, 0 otherwise. */
  function ToReal(v: Json): (r: real)
    ensures v.JNumber? ==> r == v.n
    ensures r != 0.0 ==> v.JNumber?
  {
    if v.JNumber? then v.n else 0.0
  }

  predicate IsWholeInt(n: real) {
    n == n.Floor as real && IntMin <= n.Floor <= IntMax
  }

  /** `toInt()`: a number that is whole and fits in 32 bits converts to that
      integer; every other value, including 2.5 and 2^40, converts to 0. */
  function ToInt(v: Json): (i: int)
    ensures IntMin <= i <= IntMax
    ensures i != 0 ==> v.JNumber? && v.n == i as real
  {
    if v.JNumber? && IsWholeInt(v.n) then v.n.Floor else 0
  }

  /** Writing an integer as a JSON number and reading it back with `toInt`
      gives the integer again. */
  lemma ToIntOfInt(k: int)
    requires IntMin <= k <= IntMax
    ensures ToInt(JNumber(k as real)) == k
  {
    assert (k as real).Floor == k;
  }
}
