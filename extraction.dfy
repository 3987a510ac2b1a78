/**
 * Extraction (`parse_final_conversation_to_csv`): the parse request, the
 * early returns on a failed call or an undecodable reply, and the row built
 * from the decoded object. The model call is `parseCall`, `json.loads` is
 * `decode`, the field-name file is `fieldnames` (None when it cannot be
 * read) and the clock is `today`.
 */
module Extraction {
  import opened Wrappers
  import opened Chat
  import opened PyStr
  import opened JsonValues

  /** How one extraction attempt ends. */
  datatype Outcome =
    | CallFailed(error: string)              // the parse call raised: message printed, nothing written
    | NotJson(reply: string)                 // json.loads raised JSONDecodeError: nothing written
    | FieldsUnreadable                       // the field-name file could not be read: nothing written
    | NoGetMethod                            // the reply decoded to a non-object and `.get` raised
    | WriterRaised(row: map<string, Json>)   // the row has a key outside the fieldnames: DictWriter raised
    | Appended(row: map<string, Json>)       // the row was handed to the CSV writer

  /** The parse request: the whole conversation, then the schema instructions as a system message. */
  function ParseMessages(conversation: seq<Message>, schemaInstructions: string): (messages: seq<Message>)
    ensures |messages| == |conversation| + 1
    ensures messages[..|conversation|] == conversation
    ensures messages[|conversation|] == Message(System, schemaInstructions)
  {
    conversation + [Message(System, schemaInstructions)]
  }

  /** The distinct field names, as the row's intended keys. */
  function Columns(fieldnames: seq<string>): set<string>
  {
    set fn | fn in fieldnames
  }

  /** `not row.get("date")`: the key is absent or its value is falsy. */
  predicate DateMissing(row: map<string, Json>): (missing: bool)
    ensures missing <==> "date" !in row || row["date"] in Falsy
  {
    "date" !in row || !Truthy(row["date"])
  }

  /**
   * The row: one entry per field name holding the decoded value or `""`, keys
   * the decoded object has beyond the field names dropped, and a missing or
   * falsy `date` replaced by today's date, whether or not `date` is a field name.
   */
  function Row(fieldnames: seq<string>, parsed: map<string, Json>, today: string): (row: map<string, Json>)
    ensures "date" in row
    ensures forall k :: k in row <==> k in fieldnames || k == "date"
    ensures forall fn :: fn in fieldnames && fn != "date" ==> row[fn] == GetOrEmpty(parsed, fn)
    ensures row["date"] == if "date" in fieldnames && Truthy(GetOrEmpty(parsed, "date"))
                           then parsed["date"] else JString(today)
  {
    var filled := map fn | fn in fieldnames :: GetOrEmpty(parsed, fn);
    if DateMissing(filled) then filled["date" := JString(today)] else filled
  }

  /** The row-filling loop, then the date fill. */
  method BuildRow(fieldnames: seq<string>, parsed: map<string, Json>, today: string)
    returns (row: map<string, Json>)
    ensures row == Row(fieldnames, parsed, today)
  {
    row := map[];
    for i := 0 to |fieldnames|
      invariant row.Keys == Columns(fieldnames[..i])
      invariant forall k :: k in row ==> row[k] == GetOrEmpty(parsed, k)
    {
      assert fieldnames[..i + 1] == fieldnames[..i] + [fieldnames[i]];
      row := row[fieldnames[i] := GetOrEmpty(parsed, fieldnames[i])];
    }
    assert fieldnames[..|fieldnames|] == fieldnames;
    assert row == map fn | fn in fieldnames :: GetOrEmpty(parsed, fn);
    if !("date" in row && Truthy(row["date"])) {
      row := row["date" := JString(today)];
    }
  }

  /**
   * What one extraction attempt yields, following the early returns in order:
   * the call, the decode, the field-name file, `.get` on the decoded value and
   * the CSV writer's check that the row has no key outside the field names.
   */
  function Extract(conversation: seq<Message>, schemaInstructions: string,
                      fieldnames: Option<seq<string>>,
                      parseCall: seq<Message> -> CallResult, decode: string -> Option<Json>,
                      today: string): (outcome: Outcome)
    ensures outcome.CallFailed? <==> parseCall(ParseMessages(conversation, schemaInstructions)).Failure?
    ensures outcome.NotJson? <==>
              var reply := parseCall(ParseMessages(conversation, schemaInstructions));
              reply.Answer? && decode(Strip(reply.content)).None?
    ensures outcome.NotJson? ==>
              outcome.reply == Strip(parseCall(ParseMessages(conversation, schemaInstructions)).content)
    ensures outcome.FieldsUnreadable? <==>
              var reply := parseCall(ParseMessages(conversation, schemaInstructions));
              reply.Answer? && decode(Strip(reply.content)).Some? && fieldnames.None?
    ensures outcome.NoGetMethod? <==>
              var reply := parseCall(ParseMessages(conversation, schemaInstructions));
              && reply.Answer? && decode(Strip(reply.content)).Some? && fieldnames.Some?
              && !decode(Strip(reply.content)).value.JObject? && |fieldnames.value| > 0
    ensures outcome.Appended? ==>
              fieldnames.Some? && outcome.row.Keys == Columns(fieldnames.value) && "date" in fieldnames.value
    ensures outcome.Appended? ==>
              var reply := parseCall(ParseMessages(conversation, schemaInstructions));
              && reply.Answer? && decode(Strip(reply.content)).Some?
              && decode(Strip(reply.content)).value.JObject?
              && outcome.row == Row(fieldnames.value, decode(Strip(reply.content)).value.fields, today)
    ensures outcome.WriterRaised? ==> fieldnames.Some? && "date" !in fieldnames.value
    ensures outcome.WriterRaised? ==>
              var reply := parseCall(ParseMessages(conversation, schemaInstructions));
              && reply.Answer? && decode(Strip(reply.content)).Some?
              && var parsed := decode(Strip(reply.content)).value;
                 outcome.row == Row(fieldnames.value, if parsed.JObject? then parsed.fields else map[], today)
  {
    match parseCall(ParseMessages(conversation, schemaInstructions))
    case Failure(error) => CallFailed(error)
    case Answer(content) =>
      var reply := Strip(content);
      match decode(reply)
      case None => NotJson(reply)
      case Some(parsed) =>
        if fieldnames.None? then FieldsUnreadable
        else if !parsed.JObject? && |fieldnames.value| > 0 then NoGetMethod
        else
          var row := Row(fieldnames.value, if parsed.JObject? then parsed.fields else map[], today);
          if row.Keys <= Columns(fieldnames.value) then Appended(row) else WriterRaised(row)
  }

  /** `parse_final_conversation_to_csv` up to the point where the row is written. */
  method ParseFinalConversation(conversation: seq<Message>, schemaInstructions: string,
                                fieldnames: Option<seq<string>>,
                                parseCall: seq<Message> -> CallResult, decode: string -> Option<Json>,
                                today: string) returns (outcome: Outcome)
    ensures outcome == Extract(conversation, schemaInstructions, fieldnames, parseCall, decode, today)
  {
    var parseMessages := conversation + [Message(System, schemaInstructions)];
    var result := parseCall(parseMessages);
    if result.Failure? {
      return CallFailed(result.error);
    }
    var reply := Strip(result.content);
    var decoded := decode(reply);
    if decoded.None? {
      return NotJson(reply);
    }
    if fieldnames.None? {
      return FieldsUnreadable;
    }
    var parsed := decoded.value;
    if !parsed.JObject? && |fieldnames.value| > 0 {
      return NoGetMethod;
    }
    var row := BuildRow(fieldnames.value, if parsed.JObject? then parsed.fields else map[], today);
    if row.Keys <= Columns(fieldnames.value) {
      outcome := Appended(row);
    } else {
      outcome := WriterRaised(row);
    }
  }

  /**
   * A well-formed reply for a schema without a `date` column never reaches the
   * file: the date fill adds a key the CSV writer refuses.
   */
  lemma DatelessSchemaRaises(conversation: seq<Message>, schemaInstructions: string,
                             fieldnames: seq<string>, fields: map<string, Json>,
                             parseCall: seq<Message> -> CallResult, decode: string -> Option<Json>,
                             today: string)
    requires parseCall(ParseMessages(conversation, schemaInstructions)).Answer?
    requires decode(Strip(parseCall(ParseMessages(conversation, schemaInstructions)).content)) == Some(JObject(fields))
    requires "date" !in fieldnames
    ensures Extract(conversation, schemaInstructions, Some(fieldnames), parseCall, decode, today).WriterRaised?
  {
  }

  /** The row as evidently intended: today's date fills the `date` column only when there is one. */
  function ColumnRow(fieldnames: seq<string>, parsed: map<string, Json>, today: string): (row: map<string, Json>)
    ensures row.Keys == Columns(fieldnames)
    ensures forall fn :: fn in fieldnames && fn != "date" ==> row[fn] == GetOrEmpty(parsed, fn)
    ensures "date" in fieldnames ==>
              row["date"] == if Truthy(GetOrEmpty(parsed, "date")) then parsed["date"] else JString(today)
  {
    var filled := map fn | fn in fieldnames :: GetOrEmpty(parsed, fn);
    if "date" in filled && !Truthy(filled["date"]) then filled["date" := JString(today)] else filled
  }

  /** Where the schema has a `date` column the intended row is the row the program builds. */
  lemma {:induction false} ColumnRowMatchesRow(fieldnames: seq<string>, parsed: map<string, Json>, today: string)
    requires "date" in fieldnames
    ensures ColumnRow(fieldnames, parsed, today) == Row(fieldnames, parsed, today)
  {
  }
}
