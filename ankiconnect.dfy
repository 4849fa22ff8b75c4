/** The AnkiConnect client: the checks every request goes through, and how
    the replies of `notesInfo` and `findNotes` become a `Note` and a list of
    note ids. JSON text is not modelled: a reply body is the `Value` it
    decodes to, and a gjson path lookup is `Get`. */
module AnkiConnect {
  import opened Wrappers
  import opened Strings
  import opened Maps

  /** A decoded JSON value. */
  datatype Value =
    | Null
    | Bool(b: bool)
    | Str(s: string)
    | Num(n: int)
    | Arr(items: seq<Value>)
    | Obj(members: map<string, Value>)

  /** One component of a gjson path: an object key or an array index. */
  datatype Step = Key(name: string) | Index(i: nat)

  function Child(v: Value, step: Step): Option<Value> {
    match step
    case Key(k) => if v.Obj? && k in v.members then Some(v.members[k]) else None
    case Index(i) => if v.Arr? && i < |v.items| then Some(v.items[i]) else None
  }

  /** `gjson.Get(v, path)`; `None` is a result whose `Exists()` is false. */
  function Get(v: Value, path: seq<Step>): Option<Value>
    decreases |path|
  {
    if path == [] then Some(v)
    else match Child(v, path[0])
      case None => None
      case Some(c) => Get(c, path[1..])
  }

  /** `Result.String()`: an absent value and `null` give "", a string its
      text, a number or boolean its literal. An array or an object gives its
      raw JSON text, which a decoded value no longer carries; it is stood for
      by the brackets alone, so that it is non-empty as the raw text is. */
  function Text(v: Option<Value>): (r: string)
    ensures r == "" <==> v.None? || v.value.Null? || v.value == Str("")
  {
    match v
    case Some(Str(s)) => s
    case Some(Num(n)) => FormatInt(n)
    case Some(Bool(b)) => if b then "true" else "false"
    case Some(Arr(_)) => "[]"
    case Some(Obj(_)) => "{}"
    case _ => ""
  }

  /** Value of a string of decimal digits, most significant first. */
  function DigitsValue(s: string): nat
    requires forall i :: 0 <= i < |s| ==> IsDigit(s[i])
    decreases |s|
  {
    if s == [] then 0
    else
      assert IsDigit(s[|s| - 1]);
      10 * DigitsValue(s[..|s| - 1]) + (s[|s| - 1] as int - '0' as int)
  }

  /** gjson's `parseInt`: an optional '-' followed by at least one decimal
      digit and nothing else; any other text is not a number. */
  function ParseInt(s: string): (r: Option<int>)
    ensures r.Some? ==> s != [] && (s[0] == '-' || IsDigit(s[0]))
  {
    var sign := s != [] && s[0] == '-';
    var digits := if sign then s[1..] else s;
    if digits == [] || exists i :: 0 <= i < |digits| && !IsDigit(digits[i]) then None
    else
      var magnitude: int := DigitsValue(digits);
      Some(if sign then -magnitude else magnitude)
  }

  lemma {:induction false} DigitsValueOfNatToString(n: nat)
    ensures DigitsValue(NatToString(n)) == n
    decreases n
  {
    if n >= 10 {
      var s := NatToString(n);
      assert s[..|s| - 1] == NatToString(n / 10);
      DigitsValueOfNatToString(n / 10);
    }
  }

  /** Every number the program prints is parsed back to itself. */
  lemma ParseIntFormatInt(n: int)
    ensures ParseInt(FormatInt(n)) == Some(n)
  {
    if n < 0 {
      var s := FormatInt(n);
      assert s[1..] == NatToString(-n);
      assert s[0] == '-';
      DigitsValueOfNatToString(-n);
    } else {
      assert NatToString(n)[0] != '-';
      DigitsValueOfNatToString(n);
    }
  }

  /** `Result.Int()`: a number is itself, `true` is 1, a string is parsed
      by `parseInt` and is 0 when that fails; anything else is 0. */
  function AsInt(v: Value): int {
    match v
    case Num(n) => n
    case Bool(b) => if b then 1 else 0
    case Str(s) => if ParseInt(s).Some? then ParseInt(s).value else 0
    case _ => 0
  }

  /** `Result.Array()` of a value that exists. */
  function Elements(v: Value): seq<Value> {
    match v
    case Arr(items) => items
    case Null => []
    case _ => [v]
  }

  /** The top-level `error` text of a reply body. */
  function ErrorText(body: Value): string {
    Text(Get(body, [Key("error")]))
  }

  /** A note id sent back as a string reads as that id; one sent as a
      number reads the same. */
  lemma AsIntReadsIdText(id: int)
    ensures AsInt(Str(FormatInt(id))) == id
    ensures AsInt(Num(id)) == id
  {
    ParseIntFormatInt(id);
  }

  /** What the HTTP round trip produced. */
  datatype Transport =
    | Unreachable(reason: string)
    | ReadFailed(reason: string)
    | Replied(status: int, raw: string, body: Value)

  /** `sendRequest`: a request fails when the server cannot be reached, the
      body cannot be read, the status is not 200, or the body carries a
      non-empty top-level `error`; otherwise the body is passed on. */
  function SendRequest(t: Transport): (r: Result<Value>)
    ensures r.Ok? <==> t.Replied? && t.status == 200 && ErrorText(t.body) == ""
    ensures r.Ok? ==> r.value == t.body
    ensures t.Replied? && t.status != 200 ==>
              r == Err("anki connect returned " + FormatInt(t.status) + ": " + TrimSpace(t.raw))
    ensures t.Replied? && t.status == 200 && ErrorText(t.body) != "" ==>
              r == Err("anki connect error: " + ErrorText(t.body))
  {
    match t
    case Unreachable(e) => Err("request anki connect: " + e)
    case ReadFailed(e) => Err("read response: " + e)
    case Replied(status, raw, body) =>
      if status != 200 then Err("anki connect returned " + FormatInt(status) + ": " + TrimSpace(raw))
      else if ErrorText(body) != "" then Err("anki connect error: " + ErrorText(body))
      else Ok(body)
  }

  /** A field's text and the text of the field its audio goes to. */
  datatype Phrase = Phrase(value: string, audio: string)

  /** A note as the synchroniser sees it; `phrases` is keyed by source field. */
  datatype Note = Note(noteId: int, phrases: map<string, Phrase>)

  /** `fields.<name>.value` of one entry of a `notesInfo` result. */
  function FieldText(noteJson: Value, name: string): string {
    Text(Get(noteJson, [Key("fields"), Key(name), Key("value")]))
  }

  function PhraseOf(noteJson: Value, field: string, audioField: string): Phrase {
    Phrase(FieldText(noteJson, field), FieldText(noteJson, audioField))
  }

  /** What `GetNote` returns for a reply that passed `sendRequest`. */
  function GetNoteSpec(sent: Result<Value>, noteId: int, fields: map<string, string>): Result<Note> {
    match sent
    case Err(m) => Err(m)
    case Ok(body) =>
      if ErrorText(body) != "" then Err("anki connect error: " + ErrorText(body))
      else match Get(body, [Key("result"), Index(0)])
        case None => Err("note " + FormatInt(noteId) + " not found")
        case Some(n) => Ok(Note(noteId, map f | f in fields :: PhraseOf(n, f, fields[f])))
  }

  /** `GetNote`: the phrases are filled in one source field at a time, in
      the order `range` visits the mapping. */
  method GetNote(sent: Result<Value>, noteId: int, fields: map<string, string>)
    returns (note: Note, err: Option<string>)
    ensures err.None? <==> GetNoteSpec(sent, noteId, fields).Ok?
    ensures err.None? ==> GetNoteSpec(sent, noteId, fields) == Ok(note)
    ensures err.Some? ==> GetNoteSpec(sent, noteId, fields) == Err(err.value) && note == Note(0, map[])
  {
    note := Note(0, map[]);
    if sent.Err? {
      return note, Some(sent.msg);
    }
    var body := sent.value;
    if ErrorText(body) != "" {
      return note, Some("anki connect error: " + ErrorText(body));
    }
    var noteResult := Get(body, [Key("result"), Index(0)]);
    if noteResult.None? {
      return note, Some("note " + FormatInt(noteId) + " not found");
    }
    var phrases := CollectPhrases(noteResult.value, fields);
    note := Note(noteId, phrases);
    err := None;
  }

  /** The loop of `GetNote`: one phrase per source field of `fields`, read
      from the note entry `n`, in the order `range` visits the mapping. */
  method CollectPhrases(n: Value, fields: map<string, string>) returns (phrases: map<string, Phrase>)
    ensures phrases == map f | f in fields :: PhraseOf(n, f, fields[f])
  {
    phrases := map[];
    var order := RangeKeys(fields);
    for i := 0 to |order|
      invariant forall j :: 0 <= j < i ==> order[j] in phrases
      invariant forall f :: f in phrases ==> f in fields && phrases[f] == PhraseOf(n, f, fields[f])
    {
      var field := order[i];
      phrases := phrases[field := PhraseOf(n, field, fields[field])];
    }
    assert phrases.Keys == fields.Keys;
  }

  /** An `error` member that is an object or an array is non-empty text, so
      the request fails even with status 200. */
  lemma StructuredErrorFails(t: Transport)
    requires t.Replied? && t.status == 200
    requires Get(t.body, [Key("error")]).Some?
    requires Get(t.body, [Key("error")]).value.Obj? || Get(t.body, [Key("error")]).value.Arr?
    ensures SendRequest(t).Err?
    ensures GetNoteSpec(SendRequest(t), 0, map[]).Err?
  {
  }

  /** A successful `GetNote` returns the requested id and one phrase per
      source field, built from the raw texts of that field and of its audio
      field; a missing field reads as "". */
  lemma GetNoteFields(sent: Result<Value>, noteId: int, fields: map<string, string>)
    requires GetNoteSpec(sent, noteId, fields).Ok?
    ensures var note := GetNoteSpec(sent, noteId, fields).value;
      && note.noteId == noteId
      && note.phrases.Keys == fields.Keys
      && sent.Ok?
      && Get(sent.value, [Key("result"), Index(0)]).Some?
      && forall f :: f in fields ==>
           note.phrases[f] == PhraseOf(Get(sent.value, [Key("result"), Index(0)]).value, f, fields[f])
  {
  }

  /** `GetNote` after `sendRequest`: its own `error` check can never fire, so
      a note is missing exactly when the result has no first entry. */
  lemma GetNoteAfterSend(t: Transport, noteId: int, fields: map<string, string>)
    requires SendRequest(t).Ok?
    ensures GetNoteSpec(SendRequest(t), noteId, fields).Err? <==> Get(t.body, [Key("result"), Index(0)]).None?
    ensures GetNoteSpec(SendRequest(t), noteId, fields).Err? ==>
              GetNoteSpec(SendRequest(t), noteId, fields).msg == "note " + FormatInt(noteId) + " not found"
  {
  }

  /** What `QueryNotes` returns for a reply that passed `sendRequest`. */
  function QueryNotesSpec(sent: Result<Value>): Result<seq<int>> {
    match sent
    case Err(m) => Err(m)
    case Ok(body) =>
      if ErrorText(body) != "" then Err("anki connect error: " + ErrorText(body))
      else match Get(body, [Key("result")])
        case None => Err("gjsonResult doesn't exist")
        case Some(res) =>
          var items := Elements(res);
          Ok(seq(|items|, i requires 0 <= i < |items| => AsInt(items[i])))
  }

  /** `QueryNotes`: one id per element of `result`, in array order. */
  method QueryNotes(sent: Result<Value>) returns (ids: seq<int>, err: Option<string>)
    ensures err.None? <==> QueryNotesSpec(sent).Ok?
    ensures err.None? ==> QueryNotesSpec(sent) == Ok(ids)
    ensures err.Some? ==> QueryNotesSpec(sent) == Err(err.value) && ids == []
    ensures err.None? ==> sent.Ok? && Get(sent.value, [Key("result")]).Some?
    ensures err.None? ==> var items := Elements(Get(sent.value, [Key("result")]).value);
              |ids| == |items| && forall i :: 0 <= i < |ids| ==> ids[i] == AsInt(items[i])
  {
    ids := [];
    if sent.Err? {
      return [], Some(sent.msg);
    }
    var body := sent.value;
    if ErrorText(body) != "" {
      return [], Some("anki connect error: " + ErrorText(body));
    }
    var res := Get(body, [Key("result")]);
    if res.None? {
      return [], Some("gjsonResult doesn't exist");
    }
    var items := Elements(res.value);
    for i := 0 to |items|
      invariant |ids| == i
      invariant forall k :: 0 <= k < i ==> ids[k] == AsInt(items[k])
    {
      ids := ids + [AsInt(items[i])];
    }
    assert ids == seq(|items|, i requires 0 <= i < |items| => AsInt(items[i]));
    err := None;
  }

  /** The body `UpdateNoteField` posts. */
  function UpdateNoteFieldPayload(noteId: int, fieldName: string, fieldValue: string): Value {
    Obj(map[
      "action" := Str("updateNoteFields"),
      "version" := Num(5),
      "params" := Obj(map["note" := Obj(map[
        "id" := Num(noteId),
        "fields" := Obj(map[fieldName := Str(fieldValue)])])])])
  }

  /** The update request names one note and exactly one field of it. */
  lemma UpdateNamesOneField(noteId: int, fieldName: string, fieldValue: string)
    ensures var p := UpdateNoteFieldPayload(noteId, fieldName, fieldValue);
      && Get(p, [Key("action")]) == Some(Str("updateNoteFields"))
      && Get(p, [Key("params"), Key("note"), Key("id")]) == Some(Num(noteId))
      && var fs := Get(p, [Key("params"), Key("note"), Key("fields")]);
         fs.Some? && fs.value.Obj? && fs.value.members.Keys == {fieldName}
         && fs.value.members[fieldName] == Str(fieldValue)
  {
  }
}
