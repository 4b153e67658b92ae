/**
 * The JSON values the upstream service sends (RFC 8259 section 3), the two ways the
 * client looks a property up, and the converter that turns any scalar token into the
 * string every model property is declared as.
 */
module Json {
  import opened Wrappers
  import opened Text

  /**
   * A JSON value. A number token keeps its text; `integral` holds its value when the
   * text is an integer literal (no fraction part, no exponent).
   */
  datatype Json =
    | JNull
    | JBool(b: bool)
    | JNumber(lexeme: string, integral: Option<int>)
    | JString(s: string)
    | JArray(items: seq<Json>)
    | JObject(fields: seq<(string, Json)>)

  /** `JsonElement.TryGetProperty`: ordinal name match; of duplicates the last one is found. */
  function Property(fields: seq<(string, Json)>, name: string): (r: Option<Json>)
    ensures r.None? <==> forall i | 0 <= i < |fields| :: fields[i].0 != name
    ensures r.Some? ==> exists i | 0 <= i < |fields| ::
      fields[i] == (name, r.value) && forall j | i < j < |fields| :: fields[j].0 != name
  {
    if |fields| == 0 then None
    else if fields[|fields| - 1].0 == name then Some(fields[|fields| - 1].1)
    else Property(fields[..|fields| - 1], name)
  }

  /** A number token `TryGetInt64` accepts: an integer literal within 64 bits. */
  predicate FitsInt64(token: Json) {
    token.JNumber? && token.integral.Some? && Int64Min <= token.integral.value <= Int64Max
  }

  /**
   * `FlexibleStringConverter.Read`: the text a token gives a `string` property.
   * `formatDouble` stands for `TryGetDouble` followed by `ToString(InvariantCulture)`;
   * it gives None for a number with no finite double, where the converter's final
   * `GetString()` throws and is answered with null. The converter's fallback arm is
   * never reached from a value position: the six cases below are every token a value
   * can start with.
   */
  function ReadFlexibleString(token: Json, formatDouble: string -> Option<string>): (r: Option<string>)
    ensures r.None? <==>
      token.JNull? || token.JArray? || token.JObject?
      || (token.JNumber? && !FitsInt64(token) && formatDouble(token.lexeme).None?)
    ensures token.JBool? || FitsInt64(token) ==> r.Some? && |r.value| >= 1
    ensures token.JString? ==> r == Some(token.s)
    ensures token.JBool? ==> r == Some(if token.b then "true" else "false")
    ensures FitsInt64(token) ==> r == Some(IntToDecimal(token.integral.value))
    ensures token.JNumber? && !FitsInt64(token) ==> r == formatDouble(token.lexeme)
  {
    match token
    case JString(s) => Some(s)
    case JNumber(lexeme, integral) =>
      if FitsInt64(token) then Some(IntToDecimal(integral.value)) else formatDouble(lexeme)
    case JBool(b) => if b then Some("true") else Some("false")
    case JNull => None
    case JArray(_) => None
    case JObject(_) => None
  }

  /**
   * An integer sent as a JSON number and the same digits sent as a JSON string give
   * the property the same text.
   */
  lemma NumberReadsLikeItsString(v: int, formatDouble: string -> Option<string>)
    requires Int64Min <= v <= Int64Max
    ensures ReadFlexibleString(JNumber(IntToDecimal(v), Some(v)), formatDouble)
         == ReadFlexibleString(JString(IntToDecimal(v)), formatDouble)
         == Some(IntToDecimal(v))
  {
  }

  /** A 32-bit integer sent as a JSON number reads back through `int.TryParse` as itself. */
  lemma NumberTextParsesBack(v: int, lexeme: string, formatDouble: string -> Option<string>)
    requires Int32Min <= v <= Int32Max
    ensures ReadFlexibleString(JNumber(lexeme, Some(v)), formatDouble).Some?
    ensures ParseInt32(ReadFlexibleString(JNumber(lexeme, Some(v)), formatDouble).value) == Some(v)
  {
    ParseInt32RoundTrip(v);
  }

  /** A fractional number reads like its string form whenever the double formats back to the same text. */
  lemma FractionReadsLikeItsString(lexeme: string, formatDouble: string -> Option<string>)
    requires formatDouble(lexeme) == Some(lexeme)
    ensures ReadFlexibleString(JNumber(lexeme, None), formatDouble)
         == ReadFlexibleString(JString(lexeme), formatDouble)
  {
  }

  /** `true`/`false` tokens and the strings "true"/"false" give the same text. */
  lemma BooleanReadsLikeItsString(b: bool, formatDouble: string -> Option<string>)
    ensures ReadFlexibleString(JBool(b), formatDouble)
         == ReadFlexibleString(JString(if b then "true" else "false"), formatDouble)
  {
  }
}
