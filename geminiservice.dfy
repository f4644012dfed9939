/** The extraction client: turns the language model's text reply into a
    product object, or into `null` whatever goes wrong. The network call and
    `JSON.parse` are not modelled; their outcomes are inputs. */
module GeminiService {
  import opened JsString
  import opened Types

  /** A value `JSON.parse` can produce. */
  datatype Json =
    | JNull
    | JBool(b: bool)
    | JNumber(n: real)
    | JString(s: string)
    | JArray(items: seq<Json>)
    | JObject(members: map<string, Json>)

  /** How the awaited `generateContent` call settled: it rejected, or it
      fulfilled with a response whose `text` may be undefined. */
  datatype Reply = CallFailed | Replied(text: Option<string>)

  /** What `JSON.parse` does with a string: throw a SyntaxError or return a value. */
  datatype ParseOutcome = SyntaxError | Parsed(value: Json)

  /** How the body of the `try` block completes: by returning, or by throwing. */
  datatype Completion = Returned(result: Option<Json>) | Threw

  /** Reading a property `x.key`: on `null` it throws a TypeError, on an
      object it finds the member or `undefined`, on any other value it gives
      `undefined` (no JSON string, number, boolean or array has an own
      property of the names read here). */
  datatype Access = TypeError | Undefined | Found(value: Json)

  function GetProperty(x: Json, key: string): (r: Access)
    ensures r.TypeError? <==> x.JNull?
    ensures r.Found? <==> x.JObject? && key in x.members
    ensures r.Found? ==> r.value == x.members[key]
  {
    match x
    case JNull => TypeError
    case JObject(members) => if key in members then Found(members[key]) else Undefined
    case _ => Undefined
  }

  /** JavaScript truthiness of a parsed value. */
  predicate Truthy(x: Json) {
    match x
    case JNull => false
    case JBool(b) => b
    case JNumber(n) => n != 0.0
    case JString(s) => s != []
    case _ => true
  }

  /** The falsy parsed values are exactly `null`, `false`, `0`, and the
      empty string; every array and object is truthy. */
  lemma FalsyValues(x: Json)
    ensures !Truthy(x) <==> x == JNull || x == JBool(false) || x == JNumber(0.0) || x == JString([])
  {
  }

  /** What the client accepts: an object whose `imageUrls` member is an array
      with at least one element. Nothing else of the object is looked at. */
  predicate HasImageUrls(x: Json) {
    && x.JObject?
    && "imageUrls" in x.members
    && x.members["imageUrls"].JArray?
    && |x.members["imageUrls"].items| >= 1
  }

  /** The `imageUrls` check on a parsed value, as the client runs it: a
      missing or falsy member, a non-array or an empty array returns `null`;
      reading the member of `null` throws. A value that passes is returned
      as it is. */
  function CheckImageUrls(productData: Json): (c: Completion)
    ensures c == Returned(Some(productData)) <==> HasImageUrls(productData)
    ensures c.Returned? && c.result.Some? ==> c.result.value == productData
    ensures c == Threw <==> productData == JNull
  {
    match GetProperty(productData, "imageUrls")
    case TypeError => Threw
    case Undefined => Returned(None)
    case Found(imageUrls) =>
      if !Truthy(imageUrls) || !imageUrls.JArray? || |imageUrls.items| == 0
      then Returned(None)
      else Returned(Some(productData))
  }

  /** The text handed to `JSON.parse`: the trimmed reply with a leading
      "```json" or "```" removed together with its last three characters,
      whatever they are, and trimmed again. */
  function CleanReply(raw: string): (r: string)
    ensures NoEdgeWhitespace(r)
  {
    var jsonString := Trim(raw);
    if StartsWith(jsonString, "```json") then Trim(Slice(jsonString, 7, -3))
    else if StartsWith(jsonString, "```") then Trim(Slice(jsonString, 3, -3))
    else jsonString
  }

  /** A reply that starts with "```json" after trimming keeps what lies
      between its first seven and its last three characters; a reply shorter
      than ten characters cleans to the empty string. */
  lemma CleanJsonFence(raw: string)
    requires StartsWith(Trim(raw), "```json")
    ensures var t := Trim(raw);
      CleanReply(raw) == if |t| >= 10 then Trim(t[7..|t| - 3]) else []
  {
    var t := Trim(raw);
    SliceDropLastThree(t, 7);
  }

  /** A reply that starts with "```" but not with "```json" keeps what lies
      between its first three and its last three characters. */
  lemma CleanPlainFence(raw: string)
    requires StartsWith(Trim(raw), "```") && !StartsWith(Trim(raw), "```json")
    ensures var t := Trim(raw);
      CleanReply(raw) == if |t| >= 6 then Trim(t[3..|t| - 3]) else []
  {
    var t := Trim(raw);
    SliceDropLastThree(t, 3);
  }

  /** Without a leading fence the cleaned text is the trimmed reply. */
  lemma CleanUnfenced(raw: string)
    requires !StartsWith(Trim(raw), "```")
    ensures CleanReply(raw) == Trim(raw)
  {
    var t := Trim(raw);
    assert !StartsWith(t, "```json");
  }

  /** The closing fence is never looked at: the last three characters go
      even when they are not backticks. */
  lemma CleanDropsUnfencedTail()
    ensures CleanReply("```json{}xyz") == "{}"
  {
    var raw := "```json{}xyz";
    TrimUnchanged(raw);
    assert StartsWith(raw, "```json");
    SliceDropLastThree(raw, 7);
    assert raw[7..|raw| - 3] == "{}";
    TrimUnchanged("{}");
  }

  /** A string with no whitespace at its ends is its own trim. */
  lemma TrimUnchanged(s: string)
    requires NoEdgeWhitespace(s)
    ensures Trim(s) == s
  {
    assert [] + s + [] == s;
    TrimPadded([], s, []);
  }

  /** Newline, core, newline trims to the core. */
  lemma TrimNewlines(s: string)
    requires NoEdgeWhitespace(s)
    ensures Trim("\n" + s + "\n") == s
  {
    assert AllWhitespace("\n");
    TrimPadded("\n", s, "\n");
  }

  /** The core of a reply fenced with "```json" comes back unchanged. */
  lemma TaggedFenceRoundTrip(s: string)
    requires NoEdgeWhitespace(s)
    ensures CleanReply("```json\n" + s + "\n```") == s
  {
    var fenced := "```json\n" + s + "\n```";
    var inner := "\n" + s + "\n";
    assert fenced == "```json" + inner + "```";
    assert Trim(fenced) == fenced by {
      assert fenced[0] == '`' && fenced[|fenced| - 1] == '`';
      TrimUnchanged(fenced);
    }
    assert StartsWith(fenced, "```json") by {
      assert fenced[..7] == "```json";
    }
    assert Slice(fenced, 7, -3) == inner by {
      SliceDropLastThree(fenced, 7);
      assert fenced[7..|fenced| - 3] == inner;
    }
    TrimNewlines(s);
  }

  /** The core of a reply fenced with plain "```" comes back unchanged. */
  lemma PlainFenceRoundTrip(s: string)
    requires NoEdgeWhitespace(s)
    ensures CleanReply("```\n" + s + "\n```") == s
  {
    var fenced := "```\n" + s + "\n```";
    assert fenced[0] == '`' && fenced[|fenced| - 1] == '`';
    TrimUnchanged(fenced);
    assert fenced[3] == '\n';
    assert !StartsWith(fenced, "```json");
    assert fenced[..3] == "```";
    SliceDropLastThree(fenced, 3);
    assert fenced[3..|fenced| - 3] == "\n" + s + "\n";
    TrimNewlines(s);
  }

  /** `extractProductDetails` once the model has replied: the whole `try`
      block with its outcome made explicit, then the `catch` that turns every
      exception into `null`. `parseAttempted` records whether `JSON.parse`
      was reached. */
  method ExtractProductDetails(reply: Reply, parse: string -> ParseOutcome)
    returns (r: Option<Json>, ghost parseAttempted: bool)
    ensures r.Some? <==>
      && reply.Replied? && reply.text.Some?
      && CleanReply(reply.text.value) != []
      && parse(CleanReply(reply.text.value)).Parsed?
      && HasImageUrls(parse(CleanReply(reply.text.value)).value)
    ensures r.Some? ==> r.value == parse(CleanReply(reply.text.value)).value
    ensures parseAttempted <==> reply.Replied? && reply.text.Some? && CleanReply(reply.text.value) != []
  {
    var outcome: Completion;
    parseAttempted := false;
    match reply {
      case CallFailed =>
        outcome := Threw;
      case Replied(None) =>
        // `undefined.trim()` throws
        outcome := Threw;
      case Replied(Some(rawResponseText)) =>
        var jsonString := CleanReply(rawResponseText);
        if jsonString == [] {
          outcome := Returned(None);
        } else {
          parseAttempted := true;
          match parse(jsonString) {
            case SyntaxError =>
              outcome := Threw;
            case Parsed(productData) =>
              outcome := CheckImageUrls(productData);
          }
        }
    }
    r := if outcome.Threw? then None else outcome.result;
  }

  /** A reply that parses to an object with an empty `imageUrls` array is
      rejected, whatever its other members. */
  lemma EmptyImageUrlsRejected(members: map<string, Json>)
    requires "imageUrls" in members && members["imageUrls"] == JArray([])
    ensures CheckImageUrls(JObject(members)) == Returned(None)
  {
  }
}
