/** The JSON values `JSON.parse` can produce, with JavaScript truthiness and `String(...)` coercion. */
module Json {
  import opened Base

  /** Numbers are restricted to integers; see README "Left out". */
  datatype Json =
    | JNull
    | JBool(b: bool)
    | JNumber(n: int)
    | JString(s: string)
    | JArray(items: seq<Json>)
    | JObject(fields: map<string, Json>)

  /** JavaScript truthiness of a parsed value: `null`, `false`, `0` and `""` are falsy; arrays and objects are truthy. */
  predicate Truthy(v: Json) {
    match v
    case JNull => false
    case JBool(b) => b
    case JNumber(n) => n != 0
    case JString(s) => s != ""
    case JArray(_) => true
    case JObject(_) => true
  }

  function DigitChar(d: nat): char
    requires d < 10
  {
    (48 + d) as char
  }

  function NatToDecimal(n: nat): (s: string)
    ensures |s| >= 1
    decreases n
  {
    if n < 10 then [DigitChar(n)] else NatToDecimal(n / 10) + [DigitChar(n % 10)]
  }

  function IntToDecimal(n: int): string {
    if n < 0 then "-" + NatToDecimal(-n) else NatToDecimal(n)
  }

  /** `parts.join(",")`. */
  function JoinWithComma(parts: seq<string>): string {
    if parts == [] then "" else if |parts| == 1 then parts[0] else parts[0] + "," + JoinWithComma(parts[1..])
  }

  /**
   * Whether `String(v)` throws. An object that `JSON.parse` built with an own "toString" member has
   * no callable `toString`, and its `valueOf` gives back the object, so the conversion raises a
   * TypeError; an array throws when one of its elements does, since `join` converts each element.
   */
  predicate ConversionThrows(v: Json)
    decreases v
  {
    match v
    case JObject(fields) => "toString" in fields
    case JArray(items) => exists i :: 0 <= i < |items| && ConversionThrows(items[i])
    case _ => false
  }

  /**
   * `String(v)`: arrays join their elements with "," (a `null` element becomes ""), objects give
   * "[object Object]"; `None` where the conversion throws.
   */
  function JsString(v: Json): (r: Option<string>)
    ensures r.None? <==> ConversionThrows(v)
    ensures v.JString? ==> r == Some(v.s)
    decreases v
  {
    match v
    case JNull => Some("null")
    case JBool(b) => Some(if b then "true" else "false")
    case JNumber(n) => Some(IntToDecimal(n))
    case JString(s) => Some(s)
    case JArray(items) =>
      var parts := seq(|items|, i requires 0 <= i < |items| =>
        if items[i].JNull? then Some("") else JsString(items[i]));
      if forall i :: 0 <= i < |parts| ==> parts[i].Some? then
        assert forall i :: 0 <= i < |items| ==> !ConversionThrows(items[i]) by {
          forall i | 0 <= i < |items|
            ensures !ConversionThrows(items[i])
          {
            assert parts[i].Some?;
          }
        }
        Some(JoinWithComma(seq(|parts|, i requires 0 <= i < |parts| => parts[i].value)))
      else
        assert exists i :: 0 <= i < |items| && ConversionThrows(items[i]) by {
          var k :| 0 <= k < |parts| && parts[k].None?;
          assert !items[k].JNull? && JsString(items[k]).None?;
        }
        None
    case JObject(fields) => if "toString" in fields then None else Some("[object Object]")
  }
}
