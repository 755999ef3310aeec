/** Configuration values as they are kept in a session's state: printing them as
    dynamic values and parsing them back, in every shape the parser takes. */
module ConfigState {
  import opened Text
  import opened SessionConfig

  /** A dynamically typed state value. */
  datatype Any =
    | Nil
    | Flag(flag: bool)
    | Number(number: real)
    | Txt(text: string)
    | List(items: seq<Any>)
    | Object(fields: map<string, Any>)
    | Objects(objects: seq<map<string, Any>>)  // a list typed as a list of objects
    | TextMaps(texts: seq<map<string, string>>)
    | Values(values: seq<ConfigValue>)

  datatype ParseError = NotAList | NotAnObject | NoID | IDNotText | NoValue | ValueNotFlag | ValueNotText

  function Field(fields: map<string, Any>, name: string): Any {
    if name in fields then fields[name] else Nil
  }

  function TextOf(a: Any): string {
    if a.Txt? then a.text else ""
  }

  predicate IsSet(a: Any) {
    a.Flag? && a.flag
  }

  // ------------------------------------------------------------------- print

  function PrintOne(v: ConfigValue): map<string, Any> {
    if v.boolValue.Some? then map["id" := Txt(v.id), "type" := Txt("boolean"), "value" := Flag(v.boolValue.value)]
    else map["id" := Txt(v.id), "value" := Txt(v.value)]
  }

  function PrintEach(values: seq<ConfigValue>): seq<map<string, Any>> {
    if values == [] then [] else PrintEach(values[..|values| - 1]) + [PrintOne(values[|values| - 1])]
  }

  method PrintValue(value: ConfigValue) returns (entry: map<string, Any>)
    ensures entry == PrintOne(value)
  {
    entry := map["id" := Txt(value.id)];
    if value.boolValue.Some? {
      entry := entry["type" := Txt("boolean")];
      entry := entry["value" := Flag(value.boolValue.value)];
    } else {
      entry := entry["value" := Txt(value.value)];
    }
  }

  method PrintValues(values: seq<ConfigValue>) returns (state: Any)
    ensures state == Objects(PrintEach(Normalize(values)))
  {
    var normalized := NormalizeValues(values);
    var printed: seq<map<string, Any>> := [];
    for n := 0 to |normalized|
      invariant printed == PrintEach(normalized[..n])
    {
      assert normalized[..n + 1][..n] == normalized[..n];
      var entry := PrintValue(normalized[n]);
      printed := printed + [entry];
    }
    assert normalized[..|normalized|] == normalized;
    state := Objects(printed);
  }

  // ------------------------------------------------------------------- parse

  function ParseOne(entry: map<string, Any>): Result<ConfigValue, ParseError> {
    if "id" !in entry then Err(NoID)
    else if !entry["id"].Txt? then Err(IDNotText)
    else if "value" !in entry then Err(NoValue)
    else if TextOf(Field(entry, "type")) == "boolean" then
      (if entry["value"].Flag? then Ok(ConfigValue(entry["id"].text, "", Some(entry["value"].flag)))
       else Err(ValueNotFlag))
    else
      (if entry["value"].Txt? then Ok(ConfigValue(entry["id"].text, entry["value"].text, None)) else Err(ValueNotText))
  }

  /** Parses in order; the first entry that cannot be parsed decides the error. */
  function ParseEach(entries: seq<map<string, Any>>): (r: Result<seq<ConfigValue>, ParseError>)
    ensures r.Ok? ==> |r.value| == |entries|
  {
    if entries == [] then Ok([])
    else
      match ParseEach(entries[..|entries| - 1])
      case Err(e) => Err(e)
      case Ok(front) =>
        match ParseOne(entries[|entries| - 1])
        case Err(e) => Err(e)
        case Ok(v) => Ok(front + [v])
  }

  function ParseObjects(entries: seq<map<string, Any>>): Result<seq<ConfigValue>, ParseError> {
    match ParseEach(entries)
    case Err(e) => Err(e)
    case Ok(values) => Ok(Normalize(values))
  }

  predicate AllObjects(items: seq<Any>) {
    forall i :: 0 <= i < |items| ==> items[i].Object?
  }

  function FieldsOf(items: seq<Any>): seq<map<string, Any>>
    requires AllObjects(items)
  {
    seq(|items|, i requires 0 <= i < |items| => items[i].fields)
  }

  function FromTexts(texts: seq<map<string, string>>): seq<ConfigValue> {
    seq(|texts|, i requires 0 <= i < |texts| =>
      ConfigValue(
        if "id" in texts[i] then texts[i]["id"] else "",
        if "value" in texts[i] then texts[i]["value"] else "",
        None))
  }

  function Parse(raw: Any): Result<seq<ConfigValue>, ParseError> {
    match raw
    case Values(values) => Ok(Normalize(values))
    case TextMaps(texts) => Ok(Normalize(FromTexts(texts)))
    case Objects(objects) => ParseObjects(objects)
    case List(items) => if AllObjects(items) then ParseObjects(FieldsOf(items)) else Err(NotAnObject)
    case _ => Err(NotAList)
  }

  method ParseEntries(entries: seq<map<string, Any>>) returns (r: Result<seq<ConfigValue>, ParseError>)
    ensures r == ParseObjects(entries)
  {
    var parsed: seq<ConfigValue> := [];
    for n := 0 to |entries|
      invariant ParseEach(entries[..n]) == Ok(parsed)
    {
      var entry := entries[n];
      assert entries[..n + 1][..n] == entries[..n];
      var one := ParseOne(entry);
      if one.Err? {
        FirstError(entries, n + 1);
        return Err(one.error);
      }
      parsed := parsed + [one.value];
    }
    assert entries[..|entries|] == entries;
    var normalized := NormalizeValues(parsed);
    r := Ok(normalized);
  }

  /** An error in a prefix is the error of the whole. */
  lemma {:induction false} FirstError(entries: seq<map<string, Any>>, n: nat)
    requires n <= |entries| && ParseEach(entries[..n]).Err?
    ensures ParseEach(entries) == ParseEach(entries[..n])
  {
    if n < |entries| {
      assert entries[..|entries| - 1][..n] == entries[..n];
      FirstError(entries[..|entries| - 1], n);
    } else {
      assert entries[..n] == entries;
    }
  }

  method ParseValues(raw: Any) returns (r: Result<seq<ConfigValue>, ParseError>)
    ensures r == Parse(raw)
  {
    match raw {
      case Values(values) =>
        var normalized := NormalizeValues(values);
        return Ok(normalized);
      case TextMaps(texts) =>
        var parsed: seq<ConfigValue> := [];
        for n := 0 to |texts|
          invariant parsed == FromTexts(texts[..n])
        {
          var id := if "id" in texts[n] then texts[n]["id"] else "";
          var value := if "value" in texts[n] then texts[n]["value"] else "";
          parsed := parsed + [ConfigValue(id, value, None)];
        }
        assert texts[..|texts|] == texts;
        var normalized := NormalizeValues(parsed);
        return Ok(normalized);
      case Objects(objects) =>
        r := ParseEntries(objects);
      case List(items) =>
        var entries: seq<map<string, Any>> := [];
        for n := 0 to |items|
          invariant AllObjects(items[..n]) && entries == FieldsOf(items[..n])
        {
          if !items[n].Object? {
            return Err(NotAnObject);
          }
          entries := entries + [items[n].fields];
        }
        assert items[..|items|] == items;
        r := ParseEntries(entries);
      case Nil => r := Err(NotAList);
      case Flag(_) => r := Err(NotAList);
      case Number(_) => r := Err(NotAList);
      case Txt(_) => r := Err(NotAList);
      case Object(_) => r := Err(NotAList);
    }
  }

  // -------------------------------------------------------------- round trip

  /** A list of objects after a trip through JSON, which forgets the element type. */
  function Untyped(objects: seq<map<string, Any>>): Any {
    List(seq(|objects|, i requires 0 <= i < |objects| => Object(objects[i])))
  }

  lemma UntypedFields(objects: seq<map<string, Any>>)
    ensures Parse(Untyped(objects)) == ParseObjects(objects)
  {
    assert FieldsOf(Untyped(objects).items) == objects;
  }

  lemma {:induction false} ParsePrinted(values: seq<ConfigValue>)
    requires AllNormal(values)
    ensures ParseEach(PrintEach(values)) == Ok(values)
  {
    if values != [] {
      var front, last := values[..|values| - 1], values[|values| - 1];
      FrontAndLast(values);
      ParsePrinted(front);
      assert IsNormal(last);
      ParsePrintedNext(front, last);
    }
  }

  lemma ParsePrintedNext(values: seq<ConfigValue>, v: ConfigValue)
    requires ParseEach(PrintEach(values)) == Ok(values) && IsNormal(v)
    ensures ParseEach(PrintEach(values + [v])) == Ok(values + [v])
  {
    PrintEachAppend(values, v);
    ParsePrintedOne(v);
    ParseEachAppend(PrintEach(values), PrintOne(v));
  }

  lemma PrintEachAppend(values: seq<ConfigValue>, v: ConfigValue)
    ensures PrintEach(values + [v]) == PrintEach(values) + [PrintOne(v)]
  {
    assert (values + [v])[..|values|] == values;
  }

  lemma ParsePrintedOne(v: ConfigValue)
    requires IsNormal(v)
    ensures ParseOne(PrintOne(v)) == Ok(v)
  {
  }

  lemma ParseEachAppend(entries: seq<map<string, Any>>, entry: map<string, Any>)
    requires ParseEach(entries).Ok? && ParseOne(entry).Ok?
    ensures ParseEach(entries + [entry]) == Ok(ParseEach(entries).value + [ParseOne(entry).value])
  {
    assert (entries + [entry])[..|entries|] == entries;
  }

  /** Main result: whatever values are stored, what is read back, directly or after
      JSON has forgotten the types, is their normalised form, and storing that again
      changes nothing. */
  lemma PrintParseRoundTrip(values: seq<ConfigValue>)
    ensures Parse(Objects(PrintEach(Normalize(values)))) == Ok(Normalize(values))
    ensures Parse(Untyped(PrintEach(Normalize(values)))) == Ok(Normalize(values))
    ensures Normalize(Normalize(values)) == Normalize(values)
  {
    ParsePrinted(Normalize(values));
    UntypedFields(PrintEach(Normalize(values)));
  }

  predicate WellFormedEntry(entry: map<string, Any>) {
    && "id" in entry && entry["id"].Txt? && "value" in entry
    && (if Field(entry, "type") == Txt("boolean") then entry["value"].Flag? else entry["value"].Txt?)
  }

  /** Parsing a list of objects succeeds exactly when every entry is well formed. */
  lemma {:induction false} ParseSucceedsExactly(entries: seq<map<string, Any>>)
    ensures ParseObjects(entries).Ok? <==> forall i :: 0 <= i < |entries| ==> WellFormedEntry(entries[i])
  {
    if entries != [] {
      var front, last := entries[..|entries| - 1], entries[|entries| - 1];
      ParseSucceedsExactly(front);
      assert ParseOne(last).Ok? <==> WellFormedEntry(last);
      if WellFormedEntry(last) && forall i :: 0 <= i < |front| ==> WellFormedEntry(front[i]) {
        forall i | 0 <= i < |entries| ensures WellFormedEntry(entries[i]) {
          if i < |front| { assert entries[i] == front[i]; }
        }
      }
      if forall i :: 0 <= i < |entries| ==> WellFormedEntry(entries[i]) {
        forall i | 0 <= i < |front| ensures WellFormedEntry(front[i]) { assert entries[i] == front[i]; }
      }
    }
  }

  /** What the fields of an entry say. */
  predicate Says(entry: map<string, Any>, v: ConfigValue) {
    && WellFormedEntry(entry) && v.id == entry["id"].text
    && (if entry["value"].Flag? then v.boolValue == Some(entry["value"].flag) && v.value == ""
        else v.boolValue == None && v.value == entry["value"].text)
  }

  /** A list that parses yields, in order, what each entry says, normalised. */
  lemma {:induction false} ParsedFields(entries: seq<map<string, Any>>)
    requires ParseEach(entries).Ok?
    ensures Parse(Objects(entries)) == Ok(Normalize(ParseEach(entries).value))
    ensures forall i :: 0 <= i < |entries| ==> Says(entries[i], ParseEach(entries).value[i])
  {
    if entries != [] {
      var front, last := entries[..|entries| - 1], entries[|entries| - 1];
      ParsedFields(front);
      ParsedOne(last);
      var values, v := ParseEach(front).value, ParseOne(last).value;
      assert ParseEach(entries) == Ok(values + [v]);
      SaysNext(front, values, last, v);
      FrontAndLast(entries);
    }
  }

  lemma ParsedOne(entry: map<string, Any>)
    requires ParseOne(entry).Ok?
    ensures Says(entry, ParseOne(entry).value)
  {
  }

  lemma SaysNext(entries: seq<map<string, Any>>, values: seq<ConfigValue>, entry: map<string, Any>, v: ConfigValue)
    requires |values| == |entries| && (forall i :: 0 <= i < |entries| ==> Says(entries[i], values[i])) && Says(entry, v)
    ensures forall i :: 0 <= i < |entries + [entry]| ==> Says((entries + [entry])[i], (values + [v])[i])
  {
  }

  /** A list that does not parse fails with the error of its first malformed entry. */
  lemma {:induction false} ParseFails(entries: seq<map<string, Any>>, i: nat)
    requires i < |entries| && !WellFormedEntry(entries[i])
    requires forall j :: 0 <= j < i ==> WellFormedEntry(entries[j])
    ensures Parse(Objects(entries)) == Err(Fault(entries[i]))
  {
    ParseSucceedsExactly(entries[..i]);
    assert entries[..i + 1][..i] == entries[..i];
    FirstError(entries, i + 1);
  }

  /** What is wrong with an entry: the id before the value, missing before mistyped. */
  function Fault(entry: map<string, Any>): ParseError {
    if "id" !in entry then NoID
    else if !entry["id"].Txt? then IDNotText
    else if "value" !in entry then NoValue
    else if Field(entry, "type") == Txt("boolean") then ValueNotFlag
    else ValueNotText
  }

  /** The list of text maps that an older version stored for values without booleans. */
  predicate AreTexts(texts: seq<map<string, string>>, values: seq<ConfigValue>) {
    && |texts| == |values|
    && forall i :: 0 <= i < |texts| ==>
         && texts[i] == map["id" := values[i].id, "value" := values[i].value]
         && values[i].boolValue == None
  }

  /** Typed values and text maps parse to the values they hold, normalised. */
  lemma OlderFormsParse(values: seq<ConfigValue>, texts: seq<map<string, string>>)
    requires AreTexts(texts, values)
    ensures Parse(Values(values)) == Ok(Normalize(values)) && Parse(TextMaps(texts)) == Ok(Normalize(values))
  {
    TextsParse(values, texts);
  }

  lemma TextsParse(values: seq<ConfigValue>, texts: seq<map<string, string>>)
    requires AreTexts(texts, values)
    ensures FromTexts(texts) == values
  {
    forall i | 0 <= i < |texts| ensures FromTexts(texts)[i] == values[i] {
      assert texts[i] == map["id" := values[i].id, "value" := values[i].value];
    }
  }

  /** Anything that is not a list is refused, and so is a list of something else than objects. */
  lemma ElseIsRefused(raw: Any)
    ensures raw.Nil? || raw.Flag? || raw.Number? || raw.Txt? || raw.Object? ==> Parse(raw) == Err(NotAList)
    ensures raw.List? && !AllObjects(raw.items) ==> Parse(raw) == Err(NotAnObject)
  {
  }
}
