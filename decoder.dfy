/**
 * `ParseResponse<T>`: the cascade of four readings the client tries on every reply body
 * (the standard envelope, an envelope whose `data` is an array, a bare `T`, an object
 * holding `data`), then the "Empty response" and "Failed to parse response" envelopes.
 *
 * The JSON text layer and the binding of a value to the caller's `T` are parameters:
 * `lenient` is the serializer's reader (comments skipped, trailing commas allowed),
 * `strict` is `JsonDocument.Parse`, and `decodeT` is `Deserialize<T>` applied to an
 * already-read value (Throws when the value does not bind, None for the `null` literal).
 */
module Decoder {
  import opened Wrappers
  import opened Text
  import opened Json
  import opened ApiModels

  /** The JSON machinery `ParseResponse<T>` relies on. */
  datatype JsonLib<T> = JsonLib(
    lenient: string -> Option<Json>,
    strict: string -> Option<Json>,
    formatDouble: string -> Option<string>,
    decodeT: Json -> Outcome<Option<T>>)

  /**
   * The serializer's `PropertyNameCaseInsensitive` match of a JSON name to a property
   * name, the property name written in lower case.
   */
  predicate IsKey(name: string, property: string) {
    AsciiLower(name) == property
  }

  // ---------------------------------------------------------------------------
  // Binding a value to List<string> and to MessageItem

  /** One element of a `List<string>`: every token binds through the flexible converter. */
  function ReadTexts(items: seq<Json>, formatDouble: string -> Option<string>): (r: seq<Option<string>>)
    ensures |r| == |items|
    ensures forall k | 0 <= k < |items| :: r[k] == ReadFlexibleString(items[k], formatDouble)
  {
    if items == [] then []
    else ReadTexts(items[..|items| - 1], formatDouble) + [ReadFlexibleString(items[|items| - 1], formatDouble)]
  }

  /** `List<string>?`: null, or an array; any other token throws. */
  function DecodeTextList(v: Json, formatDouble: string -> Option<string>): (r: Outcome<Option<seq<Option<string>>>>)
    ensures r.Throws? <==> !(v.JNull? || v.JArray?)
    ensures v.JArray? ==> r == Produced(Some(ReadTexts(v.items, formatDouble)))
  {
    match v
    case JNull => Produced(None)
    case JArray(items) => Produced(Some(ReadTexts(items, formatDouble)))
    case _ => Throws
  }

  /** The properties of a `MessageItem` object, bound left to right; a later `text` overwrites an earlier one. */
  function DecodeItemFields(fields: seq<(string, Json)>, formatDouble: string -> Option<string>): (r: Outcome<MessageItem>)
    ensures r.Throws? <==> exists i | 0 <= i < |fields| ::
      IsKey(fields[i].0, "text") && DecodeTextList(fields[i].1, formatDouble).Throws?
    ensures r.Produced? && (forall i | 0 <= i < |fields| :: !IsKey(fields[i].0, "text")) ==>
      r.value.text.None?
    ensures r.Produced? ==>
      match LastIndex(fields, "text")
      case None => r.value.text.None?
      case Some(i) => DecodeTextList(fields[i].1, formatDouble) == Produced(r.value.text)
  {
    if fields == [] then Produced(MessageItem(None))
    else
      var last := fields[|fields| - 1];
      var at := LastIndex(fields[..|fields| - 1], "text");
      assert at.Some? ==> fields[..|fields| - 1][at.value] == fields[at.value];
      match DecodeItemFields(fields[..|fields| - 1], formatDouble)
      case Throws => Throws
      case Produced(item) =>
        if IsKey(last.0, "text") then
          match DecodeTextList(last.1, formatDouble)
          case Throws => Throws
          case Produced(t) => Produced(MessageItem(t))
        else Produced(item)
  }

  /** One element of `List<MessageItem>`: null, or an object. */
  function DecodeMessageItem(v: Json, formatDouble: string -> Option<string>): Outcome<Option<MessageItem>> {
    match v
    case JNull => Produced(None)
    case JObject(fields) =>
      (match DecodeItemFields(fields, formatDouble)
       case Throws => Throws
       case Produced(item) => Produced(Some(item)))
    case _ => Throws
  }

  /** The elements of a `List<MessageItem>`; one that does not bind makes the whole list throw. */
  function DecodeMessageItems(items: seq<Json>, formatDouble: string -> Option<string>): (r: Outcome<seq<Option<MessageItem>>>)
    ensures r.Throws? <==> exists k | 0 <= k < |items| :: DecodeMessageItem(items[k], formatDouble).Throws?
    ensures r.Produced? ==> |r.value| == |items|
    ensures r.Produced? ==> forall k | 0 <= k < |items| :: DecodeMessageItem(items[k], formatDouble) == Produced(r.value[k])
  {
    if items == [] then Produced([])
    else
      match DecodeMessageItems(items[..|items| - 1], formatDouble)
      case Throws => Throws
      case Produced(front) =>
        match DecodeMessageItem(items[|items| - 1], formatDouble)
        case Throws => Throws
        case Produced(item) => Produced(front + [item])
  }

  /** `List<MessageItem>?`: null, or an array of items. */
  function DecodeMessages(v: Json, formatDouble: string -> Option<string>): Outcome<Option<seq<Option<MessageItem>>>> {
    match v
    case JNull => Produced(None)
    case JArray(items) =>
      (match DecodeMessageItems(items, formatDouble)
       case Throws => Throws
       case Produced(m) => Produced(Some(m)))
    case _ => Throws
  }

  // ---------------------------------------------------------------------------
  // Binding a value to TSoftApiResponse<T>

  /** A property of the envelope whose value does not bind: the whole deserialization throws. */
  predicate FieldFails<T>(field: (string, Json), lib: JsonLib<T>) {
    (IsKey(field.0, "success") && !field.1.JBool?)
    || (IsKey(field.0, "data") && lib.decodeT(field.1).Throws?)
    || (IsKey(field.0, "message") && DecodeMessages(field.1, lib.formatDouble).Throws?)
  }

  /** No property after position `i` binds to `property`: the one at `i` is the value that stays. */
  predicate LastFor(fields: seq<(string, Json)>, i: int, property: string)
    requires 0 <= i < |fields|
  {
    IsKey(fields[i].0, property) && forall j | i < j < |fields| :: !IsKey(fields[j].0, property)
  }

  /**
   * The properties of the envelope object bound left to right onto a fresh
   * `TSoftApiResponse<T>` (Success false, Data and Message null); unknown names are skipped.
   */
  function DecodeEnvelopeFields<T>(fields: seq<(string, Json)>, lib: JsonLib<T>): (r: Outcome<Envelope<T>>)
    ensures r.Throws? <==> exists i | 0 <= i < |fields| :: FieldFails(fields[i], lib)
  {
    if fields == [] then Produced(Envelope(false, None, None))
    else
      var n := |fields| - 1;
      var name := fields[n].0;
      var v := fields[n].1;
      match DecodeEnvelopeFields(fields[..n], lib)
      case Throws => Throws
      case Produced(e) =>
        if IsKey(name, "success") then
          (if v.JBool? then Produced(e.(success := v.b)) else Throws)
        else if IsKey(name, "data") then
          (match lib.decodeT(v)
           case Throws => Throws
           case Produced(d) => Produced(e.(data := d)))
        else if IsKey(name, "message") then
          (match DecodeMessages(v, lib.formatDouble)
           case Throws => Throws
           case Produced(m) => Produced(e.(message := m)))
        else Produced(e)
  }

  /** The position of the last property that binds to `property`, if there is one. */
  function LastIndex(fields: seq<(string, Json)>, property: string): (r: Option<nat>)
    ensures r.Some? ==> r.value < |fields| && LastFor(fields, r.value, property)
    ensures r.None? ==> forall i | 0 <= i < |fields| :: !IsKey(fields[i].0, property)
  {
    if fields == [] then None
    else if IsKey(fields[|fields| - 1].0, property) then Some(|fields| - 1)
    else LastIndex(fields[..|fields| - 1], property)
  }

  /** `Success` ends up true exactly when the last property bound to it is the literal `true`. */
  lemma {:induction false} EnvelopeSuccessIsLastFlag<T>(fields: seq<(string, Json)>, lib: JsonLib<T>)
    requires DecodeEnvelopeFields(fields, lib).Produced?
    ensures var at := LastIndex(fields, "success");
      DecodeEnvelopeFields(fields, lib).value.success <==> at.Some? && fields[at.value].1 == JBool(true)
  {
    if fields != [] {
      var n := |fields| - 1;
      EnvelopeSuccessIsLastFlag(fields[..n], lib);
      var at := LastIndex(fields[..n], "success");
      if at.Some? {
        assert fields[..n][at.value] == fields[at.value];
      }
    }
  }

  /** `Data` is the binding of the last property named `data`; with no such property it stays null. */
  lemma {:induction false} EnvelopeDataIsLastData<T>(fields: seq<(string, Json)>, lib: JsonLib<T>)
    requires DecodeEnvelopeFields(fields, lib).Produced?
    ensures var data := DecodeEnvelopeFields(fields, lib).value.data;
      match LastIndex(fields, "data")
      case None => data.None?
      case Some(i) => lib.decodeT(fields[i].1) == Produced(data)
  {
    if fields != [] {
      var n := |fields| - 1;
      EnvelopeDataIsLastData(fields[..n], lib);
      var at := LastIndex(fields[..n], "data");
      if at.Some? {
        assert fields[..n][at.value] == fields[at.value];
      }
      if IsKey(fields[n].0, "data") {
        assert !IsKey(fields[n].0, "success");
      }
    }
  }

  /** `Deserialize<TSoftApiResponse<T>>` of a value: the literal null gives null, a non-object throws. */
  function DecodeEnvelope<T>(v: Json, lib: JsonLib<T>): (r: Outcome<Option<Envelope<T>>>)
    ensures r.Throws? <==> !v.JNull? && (!v.JObject? || exists i | 0 <= i < |v.fields| :: FieldFails(v.fields[i], lib))
    ensures r == Produced(None) <==> v.JNull?
  {
    match v
    case JNull => Produced(None)
    case JObject(fields) =>
      (match DecodeEnvelopeFields(fields, lib)
       case Throws => Throws
       case Produced(e) => Produced(Some(e)))
    case _ => Throws
  }

  // ---------------------------------------------------------------------------
  // The four readings; None stands for "fell through" (an exception caught, or null)

  /** The body as the standard envelope, kept only when its `Data` is non-null. */
  function Wrapped<T>(body: string, lib: JsonLib<T>): (r: Option<Envelope<T>>)
    ensures r.Some? ==> r.value.data.Some?
  {
    match lib.lenient(body)
    case None => None
    case Some(root) =>
      match DecodeEnvelope(root, lib)
      case Produced(Some(e)) => if e.data.Some? then Some(e) else None
      case _ => None
  }

  /** The `success` flag the strict readings compute; a present non-boolean throws (None). */
  function StrictSuccess(fields: seq<(string, Json)>, absent: bool): (r: Option<bool>)
    ensures Property(fields, "success").None? ==> r == Some(absent)
    ensures Property(fields, "success").Some? ==>
      (r.Some? <==> Property(fields, "success").value.JBool?)
  {
    match Property(fields, "success")
    case None => Some(absent)
    case Some(JBool(b)) => Some(b)
    case Some(_) => None
  }

  /** `{"data": [first, ...]}`: the first element bound to `T`; Success read strictly, false when absent. */
  function DataArray<T>(body: string, lib: JsonLib<T>): (r: Option<Envelope<T>>)
    ensures r.Some? ==> r.value.data.Some? && r.value.message.None?
  {
    match lib.strict(body)
    case Some(JObject(fields)) =>
      (match Property(fields, "data")
       case Some(JArray(items)) =>
         if |items| == 0 then None
         else
           (match lib.decodeT(items[0])
            case Produced(Some(item)) =>
              (match StrictSuccess(fields, false)
               case Some(success) => Some(Envelope(success, Some(item), None))
               case None => None)
            case _ => None)
       case _ => None)
    case _ => None
  }

  /** The whole body bound to `T`, reported as a success. */
  function Direct<T>(body: string, lib: JsonLib<T>): (r: Option<Envelope<T>>)
    ensures r.Some? ==> r.value.success && r.value.data.Some? && r.value.message.None?
  {
    match lib.lenient(body)
    case None => None
    case Some(root) =>
      match lib.decodeT(root)
      case Produced(Some(d)) => Some(Envelope(true, Some(d), None))
      case _ => None
  }

  /** `{"data": value}`: the value bound to `T`; Success read strictly, true when absent. */
  function DataObject<T>(body: string, lib: JsonLib<T>): (r: Option<Envelope<T>>)
    ensures r.Some? ==> r.value.data.Some? && r.value.message.None?
  {
    match lib.strict(body)
    case Some(JObject(fields)) =>
      (match Property(fields, "data")
       case Some(value) =>
         (match lib.decodeT(value)
          case Produced(Some(d)) =>
            (match StrictSuccess(fields, true)
             case Some(success) => Some(Envelope(success, Some(d), None))
             case None => None)
          case _ => None)
       case None => None)
    case _ => None
  }

  /** The four readings in the order `ParseResponse` tries them. */
  function Readings<T>(body: string, lib: JsonLib<T>): (r: seq<Option<Envelope<T>>>)
    ensures |r| == 4
  {
    [Wrapped(body, lib), DataArray(body, lib), Direct(body, lib), DataObject(body, lib)]
  }

  /** The first reading that produced an envelope. */
  function FirstReading<T>(readings: seq<Option<Envelope<T>>>): (r: Option<Envelope<T>>)
    ensures r.None? <==> forall k | 0 <= k < |readings| :: readings[k].None?
    ensures forall k | 0 <= k < |readings| ::
      (readings[k].Some? && forall j | 0 <= j < k :: readings[j].None?) ==> r == readings[k]
  {
    if readings == [] then None
    else if readings[0].Some? then readings[0]
    else FirstReading(readings[1..])
  }

  /** The failure message, with the body's length in UTF-16 code units. */
  function ParseFailureText(body: string): string {
    "Failed to parse response. Length: " + NatToDecimal(Utf16Length(body))
  }

  /** `ParseResponse<T>`. */
  function ParseResponse<T>(body: string, lib: JsonLib<T>): (r: Envelope<T>)
    ensures IsBlank(body) ==> r == Failure("Empty response")
    ensures !IsBlank(body) ==>
      (r.data.Some? <==> exists k | 0 <= k < 4 :: Readings(body, lib)[k].Some?)
    ensures !IsBlank(body) ==> forall k | 0 <= k < 4 ::
      (Readings(body, lib)[k].Some? && forall j | 0 <= j < k :: Readings(body, lib)[j].None?) ==>
        r == Readings(body, lib)[k].value
    ensures !IsBlank(body) && r.data.None? ==> r == Failure(ParseFailureText(body))
    ensures r.data.None? ==> !r.success
  {
    if IsBlank(body) then Failure("Empty response")
    else
      var readings := Readings(body, lib);
      ReadingsCarryData(body, lib);
      FirstReadingHasData(readings);
      match FirstReading(readings)
      case Some(e) => e
      case None => Failure(ParseFailureText(body))
  }

  /** When every reading that applies yields data, the first one applying does, and one applies exactly when some does. */
  lemma {:induction false} FirstReadingHasData<T>(readings: seq<Option<Envelope<T>>>)
    requires forall k | 0 <= k < |readings| :: readings[k].Some? ==> readings[k].value.data.Some?
    ensures FirstReading(readings).Some? <==> exists k | 0 <= k < |readings| :: readings[k].Some?
    ensures FirstReading(readings).Some? ==> FirstReading(readings).value.data.Some?
  {
    if readings != [] && readings[0].None? {
      var rest := readings[1..];
      FirstReadingHasData(rest);
      if k :| 0 <= k < |readings| && readings[k].Some? {
        assert rest[k - 1].Some?;
      }
      if k :| 0 <= k < |rest| && rest[k].Some? {
        assert readings[k + 1].Some?;
      }
    }
  }

  /** Every reading that applies yields data. */
  lemma ReadingsCarryData<T>(body: string, lib: JsonLib<T>)
    ensures forall k | 0 <= k < 4 :: Readings(body, lib)[k].Some? ==> Readings(body, lib)[k].value.data.Some?
  {
    var readings := Readings(body, lib);
    assert readings[0] == Wrapped(body, lib) && readings[1] == DataArray(body, lib);
    assert readings[2] == Direct(body, lib) && readings[3] == DataObject(body, lib);
  }

  // ---------------------------------------------------------------------------
  // How particular reply shapes are read

  /** An envelope whose data binds is returned as sent, a false `success` included. */
  lemma WrappedEnvelopeWins<T>(body: string, lib: JsonLib<T>, fields: seq<(string, Json)>, e: Envelope<T>)
    requires !IsBlank(body)
    requires lib.lenient(body) == Some(JObject(fields))
    requires DecodeEnvelopeFields(fields, lib) == Produced(e) && e.data.Some?
    ensures ParseResponse(body, lib) == e
  {
    assert Readings(body, lib)[0] == Some(e);
  }

  /** The first reading that produces an envelope is the answer. */
  lemma ReadingWins<T>(body: string, lib: JsonLib<T>, k: nat)
    requires !IsBlank(body) && k < 4 && Readings(body, lib)[k].Some?
    requires forall j | 0 <= j < k :: Readings(body, lib)[j].None?
    ensures ParseResponse(body, lib) == Readings(body, lib)[k].value
  {
  }

  /** When the first two readings fall through, a bare `T` is the answer. */
  lemma DirectWins<T>(body: string, lib: JsonLib<T>)
    requires !IsBlank(body) && Wrapped(body, lib).None? && DataArray(body, lib).None? && Direct(body, lib).Some?
    ensures ParseResponse(body, lib) == Direct(body, lib).value
  {
    ReadingWins(body, lib, 2);
  }

  /** When the first three readings fall through, the `data` object is the answer. */
  lemma DataObjectWins<T>(body: string, lib: JsonLib<T>)
    requires !IsBlank(body) && Wrapped(body, lib).None? && DataArray(body, lib).None? && Direct(body, lib).None?
    requires DataObject(body, lib).Some?
    ensures ParseResponse(body, lib) == DataObject(body, lib).value
  {
    ReadingWins(body, lib, 3);
  }

  /** An envelope that binds without data is not the first reading. */
  lemma NoDataNotWrapped<T>(body: string, lib: JsonLib<T>, fields: seq<(string, Json)>)
    requires lib.lenient(body) == Some(JObject(fields))
    requires DecodeEnvelopeFields(fields, lib).Produced? && DecodeEnvelopeFields(fields, lib).value.data.None?
    ensures Wrapped(body, lib).None?
  {
  }

  /** An object whose `data` is not an array is not the second reading. */
  lemma NoArrayNoDataArray<T>(body: string, lib: JsonLib<T>, fields: seq<(string, Json)>)
    requires lib.strict(body) == Some(JObject(fields))
    requires Property(fields, "data").None? || !Property(fields, "data").value.JArray?
    ensures DataArray(body, lib).None?
  {
  }

  /** An envelope that does not bind is not the first reading. */
  lemma ThrowingNotWrapped<T>(body: string, lib: JsonLib<T>, fields: seq<(string, Json)>)
    requires lib.lenient(body) == Some(JObject(fields))
    requires fields != [] && DecodeEnvelopeFields(fields[..|fields| - 1], lib).Throws?
    ensures Wrapped(body, lib).None?
  {
  }

  /** A present `success` that is not a boolean makes both strict readings fall through. */
  lemma BadSuccessFallsThrough<T>(body: string, lib: JsonLib<T>, fields: seq<(string, Json)>)
    requires lib.strict(body) == Some(JObject(fields))
    requires Property(fields, "success").Some? && !Property(fields, "success").value.JBool?
    ensures DataArray(body, lib).None? && DataObject(body, lib).None?
  {
  }

  /** When no reading produces an envelope the answer is the parse failure. */
  lemma NothingReads<T>(body: string, lib: JsonLib<T>)
    requires !IsBlank(body) && Wrapped(body, lib).None? && DataArray(body, lib).None?
    requires Direct(body, lib).None? && DataObject(body, lib).None?
    ensures ParseResponse(body, lib) == Failure(ParseFailureText(body))
  {
  }

  /** `{"success": false, "data": null}` binds to an error envelope without data. */
  lemma FlagThenNullData<T>(lib: JsonLib<T>)
    requires lib.decodeT(JNull) == Produced(None)
    ensures DecodeEnvelopeFields([("success", JBool(false)), ("data", JNull)], lib) == Produced(Envelope(false, None, None))
  {
    var fields := [("success", JBool(false)), ("data", JNull)];
    LowerCaseUnchanged("success");
    LowerCaseUnchanged("data");
    assert IsKey("success", "success") && !IsKey("data", "success") && IsKey("data", "data");
    var front := [("success", JBool(false))];
    assert fields[..1] == front && front[..0] == [];
    assert DecodeEnvelopeFields(front, lib) == Produced(Envelope(false, None, None));
  }

  /**
   * An error envelope with a null `data`, read for a `T` that binds from any object,
   * comes back as a success holding that object: the bare-`T` reading accepts it.
   */
  lemma NullDataEnvelopeReadsAsSuccess<T>(body: string, lib: JsonLib<T>, x: T)
    requires !IsBlank(body)
    requires lib.lenient(body) == Some(JObject([("success", JBool(false)), ("data", JNull)]))
    requires lib.strict(body) == lib.lenient(body)
    requires lib.decodeT(JNull) == Produced(None)
    requires lib.decodeT(JObject([("success", JBool(false)), ("data", JNull)])) == Produced(Some(x))
    ensures ParseResponse(body, lib) == Envelope(true, Some(x), None)
  {
    var fields := [("success", JBool(false)), ("data", JNull)];
    FlagThenNullData(lib);
    NoDataNotWrapped(body, lib, fields);
    assert Property(fields, "data") == Some(JNull);
    NoArrayNoDataArray(body, lib, fields);
    DirectWins(body, lib);
  }

  /**
   * `{"data": [first, ...]}` read for a single-object `T`: the first element, with
   * Success false when the body has no `success` property.
   */
  lemma DataArrayTakesFirstElement<T>(body: string, lib: JsonLib<T>, items: seq<Json>, x: T)
    requires !IsBlank(body)
    requires |items| > 0
    requires lib.lenient(body) == Some(JObject([("data", JArray(items))]))
    requires lib.strict(body) == lib.lenient(body)
    requires lib.decodeT(JArray(items)).Throws?
    requires lib.decodeT(items[0]) == Produced(Some(x))
    ensures ParseResponse(body, lib) == Envelope(false, Some(x), None)
  {
    var fields := [("data", JArray(items))];
    LowerCaseUnchanged("data");
    assert fields[..0] == [];
    assert Wrapped(body, lib).None?;
    assert Property(fields, "success").None?;
    assert Readings(body, lib)[1] == Some(Envelope(false, Some(x), None));
  }

  /**
   * `{"message": "m", "data": value}` read for a `T` that does not bind from the whole
   * object: a text `message` makes the envelope binding throw, the bare `T` reading
   * fails, and the `data` value comes back as a success because `success` is missing.
   */
  lemma DataObjectDefaultsToSuccess<T>(body: string, lib: JsonLib<T>, value: Json, x: T)
    requires !IsBlank(body)
    requires !value.JArray?
    requires lib.lenient(body) == Some(JObject([("message", JString("m")), ("data", value)]))
    requires lib.strict(body) == lib.lenient(body)
    requires lib.decodeT(JObject([("message", JString("m")), ("data", value)])).Throws?
    requires lib.decodeT(value) == Produced(Some(x))
    ensures ParseResponse(body, lib) == Envelope(true, Some(x), None)
  {
    var fields := [("message", JString("m")), ("data", value)];
    TextMessageFields(lib, value);
    MessageDataProperties(value);
    ThrowingNotWrapped(body, lib, fields);
    NoArrayNoDataArray(body, lib, fields);
    assert Direct(body, lib).None?;
    assert DataObject(body, lib) == Some(Envelope(true, Some(x), None));
    DataObjectWins(body, lib);
  }

  /** A non-boolean `success` makes every reading that looks at it fall through. */
  lemma StringSuccessFailsToParse<T>(body: string, lib: JsonLib<T>, value: Json)
    requires !IsBlank(body)
    requires lib.lenient(body) == Some(JObject([("success", JString("true")), ("data", value)]))
    requires lib.strict(body) == lib.lenient(body)
    requires lib.decodeT(JObject([("success", JString("true")), ("data", value)])).Throws?
    ensures ParseResponse(body, lib) == Failure(ParseFailureText(body))
  {
    var fields := [("success", JString("true")), ("data", value)];
    TextSuccessFields(lib, value);
    ThrowingNotWrapped(body, lib, fields);
    BadSuccessFallsThrough(body, lib, fields);
    NothingReads(body, lib);
  }

  /** The envelope fields with a text `success` throw already at that field, and `success` is found as text. */
  lemma TextSuccessFields<T>(lib: JsonLib<T>, value: Json)
    ensures var fields := [("success", JString("true")), ("data", value)];
      |fields| >= 1 && DecodeEnvelopeFields(fields[..1], lib).Throws?
      && Property(fields, "success") == Some(JString("true"))
  {
    var fields := [("success", JString("true")), ("data", value)];
    LowerCaseUnchanged("success");
    assert fields[..1] == [("success", JString("true"))] && fields[..0] == [];
    assert DecodeEnvelopeFields(fields[..1], lib).Throws?;
  }

  /** The envelope fields with a text `message` throw already at that field. */
  lemma TextMessageFields<T>(lib: JsonLib<T>, value: Json)
    ensures var fields := [("message", JString("m")), ("data", value)];
      |fields| >= 1 && DecodeEnvelopeFields(fields[..1], lib).Throws?
  {
    var fields := [("message", JString("m")), ("data", value)];
    LowerCaseUnchanged("message");
    assert fields[..1] == [("message", JString("m"))] && fields[..0] == [];
    assert DecodeMessages(JString("m"), lib.formatDouble).Throws?;
  }

  /** In `{"message": …, "data": value}` the strict lookups find `data` and no `success`. */
  lemma MessageDataProperties(value: Json)
    ensures var fields := [("message", JString("m")), ("data", value)];
      Property(fields, "data") == Some(value) && Property(fields, "success").None?
  {
    assert "message"[0] != "success"[0] && "data"[0] != "success"[0];
  }
}
