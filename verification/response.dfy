/**
 * How the terminal reads the reply of the suggestion service: the body is
 * decoded as JSON, its `text` field is decoded again (and once more when
 * that yields a string), and the non-empty strings of the resulting array
 * become the suggestions; every other path ends in an error message.
 * JSON decoding itself is a parameter: the model only relies on what a
 * decoder returned.
 */
module Response {
  import opened Wrappers
  import opened JsText

  /** A decoded JSON value. Numbers are kept as reals; floating point is not modelled. */
  datatype Json =
    | JNull
    | JBool(b: bool)
    | JNumber(n: real)
    | JString(s: JsStr)
    | JArray(items: seq<Json>)
    | JObject(fields: map<JsStr, Json>)

  /** A thrown value: an `Error` with its message, or anything else. */
  datatype Thrown = ErrorObject(message: JsStr) | NonError

  /** Why the reply could not be read as suggestions. */
  datatype ParseCause =
    | TextUnreadable           // `data.text` is not a string, so `.trim()` throws a TypeError
    | Rejected(thrown: Thrown) // a `JSON.parse` call threw

  /** What the terminal makes of one reply. */
  datatype Outcome =
    | Suggestions(list: seq<JsStr>)
    | RequestError(thrown: Thrown)
    | ParseFailure(cause: ParseCause)
    | FailedToComplete
    | NoData

  /** The property name `text`. */
  const TextKey: JsStr := [0x74, 0x65, 0x78, 0x74]

  /** JavaScript truthiness of a decoded value: `null`, `false`, `0` and `""` are falsy. */
  predicate Truthy(v: Json) {
    match v
    case JNull => false
    case JBool(b) => b
    case JNumber(n) => n != 0.0
    case JString(s) => s != []
    case JArray(_) => true
    case JObject(_) => true
  }

  /** `data.text` when it is a string; any other value makes `data.text.trim()` throw. */
  function TextField(data: Json): Option<JsStr> {
    if data.JObject? && TextKey in data.fields && data.fields[TextKey].JString? then
      Some(data.fields[TextKey].s)
    else
      None
  }

  /** The elements of `items` that are non-empty strings, in order. */
  function NonEmptyStrings(items: seq<Json>): (r: seq<JsStr>)
    ensures |r| <= |items|
    ensures forall k :: 0 <= k < |r| ==> r[k] != []
  {
    if items == [] then []
    else if items[0].JString? && items[0].s != [] then [items[0].s] + NonEmptyStrings(items[1..])
    else NonEmptyStrings(items[1..])
  }

  /** Filtering distributes over concatenation, so the order of the array is kept. */
  lemma {:induction false} NonEmptyStringsAppend(a: seq<Json>, b: seq<Json>)
    ensures NonEmptyStrings(a + b) == NonEmptyStrings(a) + NonEmptyStrings(b)
    decreases |a|
  {
    if a == [] {
      assert a + b == b;
    } else {
      assert (a + b)[1..] == a[1..] + b;
      NonEmptyStringsAppend(a[1..], b);
    }
  }

  /** A string is kept exactly when it is non-empty and one of the array's elements. */
  lemma {:induction false} NonEmptyStringsMembers(items: seq<Json>, s: JsStr)
    ensures s in NonEmptyStrings(items) <==> s != [] && JString(s) in items
    decreases |items|
  {
    if items != [] {
      NonEmptyStringsMembers(items[1..], s);
      assert items == [items[0]] + items[1..];
    }
  }

  /**
   * The value the text decodes to: `JSON.parse(text.trim())`, and when
   * that is a string, `JSON.parse` of that string as it is.
   */
  function Decoded(text: JsStr, parse: JsStr -> Result<Json, Thrown>): Result<Json, Thrown> {
    match parse(Trim(text))
    case Failure(e) => Failure(e)
    case Success(v) => if v.JString? then parse(v.s) else Success(v)
  }

  /**
   * The outcome of one reply. `data` is what `response.json()` gave:
   * a value or the thrown error.
   */
  function Classify(data: Result<Json, Thrown>, parse: JsStr -> Result<Json, Thrown>): (r: Outcome)
    ensures data.Failure? ==> r == RequestError(data.error)
    ensures data.Success? && !Truthy(data.value) ==> r == NoData
    ensures data.Success? && Truthy(data.value) && TextField(data.value).None? ==> r == ParseFailure(TextUnreadable)
    ensures r.Suggestions? ==> r.list != [] && forall k :: 0 <= k < |r.list| ==> r.list[k] != []
  {
    match data
    case Failure(e) => RequestError(e)
    case Success(v) =>
      if !Truthy(v) then NoData
      else match TextField(v)
        case None => ParseFailure(TextUnreadable)
        case Some(text) =>
          match Decoded(text, parse)
          case Failure(e) => ParseFailure(Rejected(e))
          case Success(w) =>
            var list := if w.JArray? then NonEmptyStrings(w.items) else [];
            if list == [] then FailedToComplete else Suggestions(list)
  }

  /**
   * For any truthy reply whose `text` is a string, suggestions are shown
   * exactly when the decoded value is an array holding a non-empty string,
   * and they are that array's non-empty strings.
   */
  lemma SuggestionsFromArray(data: Json, text: JsStr, parse: JsStr -> Result<Json, Thrown>)
    requires Truthy(data) && TextField(data) == Some(text)
    ensures var r, d := Classify(Success(data), parse), Decoded(text, parse);
      && (r.Suggestions? <==> d.Success? && d.value.JArray? && NonEmptyStrings(d.value.items) != [])
      && (r.Suggestions? ==> r.list == NonEmptyStrings(d.value.items))
      && (d.Failure? ==> r == ParseFailure(Rejected(d.error)))
      && (d.Success? && !d.value.JArray? ==> r == FailedToComplete)
  {
  }

  /** A list encoded twice, as a JSON string holding the JSON array, is still read. */
  lemma DoubleEncodedListIsRead(data: Json, text: JsStr, inner: JsStr, items: seq<Json>, parse: JsStr -> Result<Json, Thrown>)
    requires Truthy(data) && TextField(data) == Some(text)
    requires parse(Trim(text)) == Success(JString(inner))
    requires parse(inner) == Success(JArray(items))
    requires NonEmptyStrings(items) != []
    ensures Classify(Success(data), parse) == Suggestions(NonEmptyStrings(items))
  {
    SuggestionsFromArray(data, text, parse);
  }

  /** A list encoded three times is not unwrapped a third time: the reply fails to complete. */
  lemma TripleEncodedListFails(data: Json, text: JsStr, inner: JsStr, innermost: JsStr, parse: JsStr -> Result<Json, Thrown>)
    requires Truthy(data) && TextField(data) == Some(text)
    requires parse(Trim(text)) == Success(JString(inner))
    requires parse(inner) == Success(JString(innermost))
    ensures Classify(Success(data), parse) == FailedToComplete
  {
    SuggestionsFromArray(data, text, parse);
  }

  /** An array with no non-empty string fails to complete. */
  lemma NoStringsFails(data: Json, text: JsStr, items: seq<Json>, parse: JsStr -> Result<Json, Thrown>)
    requires Truthy(data) && TextField(data) == Some(text)
    requires parse(Trim(text)) == Success(JArray(items))
    requires NonEmptyStrings(items) == []
    ensures Classify(Success(data), parse) == FailedToComplete
  {
    SuggestionsFromArray(data, text, parse);
  }

  /** `["", 1, null]` holds no non-empty string, so a reply decoding to it fails to complete. */
  lemma NoStringsExample()
    ensures NonEmptyStrings([JString([]), JNumber(1.0), JNull]) == []
  {
    var items := [JString([]), JNumber(1.0), JNull];
    assert items[1..][1..] == [JNull];
    assert NonEmptyStrings(items[1..][1..]) == [];
  }

  /** The cross mark that starts every error line. */
  const Cross: CodeUnit := 0x2716

  /** The message of a thrown `Error`, trimmed; nothing for any other thrown value. */
  function ThrownText(t: Thrown): JsStr {
    match t
    case ErrorObject(m) => Trim(m)
    case NonError => []
  }

  /**
   * The red error line that replaces the suggestions, without its colour
   * codes. A falsy reply leaves the line empty; `typeErrorMessage` is the
   * engine's wording for the TypeError of `data.text.trim()`. The head
   * names the failure and a thrown message ends the line, trimmed.
   */
  function ErrorText(o: Outcome, typeErrorMessage: JsStr): (r: JsStr)
    requires !o.Suggestions?
    ensures o.NoData? <==> r == []
    ensures o.RequestError? ==> StartsWith(r, RequestErrorHead)
    ensures o.ParseFailure? ==> StartsWith(r, ParseFailureHead)
    ensures o.FailedToComplete? ==> r == FailedToCompleteLine
    ensures o.RequestError? ==> EndsWith(r, ThrownText(o.thrown))
    ensures o.ParseFailure? && o.cause.Rejected? ==> EndsWith(r, ThrownText(o.cause.thrown))
    ensures o.ParseFailure? && o.cause.TextUnreadable? ==> EndsWith(r, Trim(typeErrorMessage))
    ensures o.RequestError? ==> |r| == |RequestErrorHead| + |ThrownText(o.thrown)|
    ensures o.ParseFailure? && o.cause.Rejected? ==> |r| == |ParseFailureHead| + |ThrownText(o.cause.thrown)|
    ensures o.ParseFailure? && o.cause.TextUnreadable? ==> |r| == |ParseFailureHead| + |Trim(typeErrorMessage)|
  {
    match o
    case RequestError(t) => RequestErrorHead + ThrownText(t)
    case ParseFailure(TextUnreadable) => ParseFailureHead + Trim(typeErrorMessage)
    case ParseFailure(Rejected(t)) => ParseFailureHead + ThrownText(t)
    case FailedToComplete => FailedToCompleteLine
    case NoData => []
  }

  /** "✖ Request error" and a line break. */
  const RequestErrorHead: JsStr := [Cross] + Units(" Request error\r\n")

  /** "✖ Parse result failure" and a line break. */
  const ParseFailureHead: JsStr := [Cross] + Units(" Parse result failure\r\n")

  /** The whole line for a reply without usable suggestions. */
  const FailedToCompleteLine: JsStr :=
    [Cross] + Units(" Failed to complete, please check the input or retry.")

  /** `s` starts with `t`. */
  predicate StartsWith(s: JsStr, t: JsStr) {
    |t| <= |s| && s[..|t|] == t
  }

  /** `s` ends with `t`. */
  predicate EndsWith(s: JsStr, t: JsStr) {
    |t| <= |s| && s[|s| - |t|..] == t
  }
}
