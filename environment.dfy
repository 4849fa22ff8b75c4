/** Everything outside the program: the note store behind AnkiConnect, the
    speech synthesiser, the working directory `./output`, the media
    directory, other files, and the text-generation model.

    `Env` is the state of all of it. `Services` fixes, for one run, which
    external calls fail and with what error text (`faults`), what a search
    query returns, what the model replies and how JSON decodes. Each
    external call has a pure step function here, and a method of `World`,
    the mutable state the program acts on, that performs it. */
module Environment {
  import opened Wrappers
  import opened Strings
  import opened Maps
  import AC = AnkiConnect
  import Gemini

  /** An external call, identified by its arguments. */
  datatype Op =
    | NotesInfo(noteId: int)
    | FindNotes(query: string)
    | UpdateNoteFields(noteId: int, field: string, value: string)
    | AddTags(noteId: int, tag: string)
    | RemoveTags(noteId: int, tag: string)
    | AddNote(fields: map<string, string>)
    | Synthesize(text: string)
    | Rename(from: string, to: string)
    | Remove(name: string)
    | Generate(prompt: Gemini.Prompt)
    | ReadFile(path: string)
    | CreateTemp(path: string)
    | CopyRest(path: string)
    | CloseTemp(path: string)
    | ReplaceFile(path: string)

  datatype Services = Services(
    faults: map<Op, string>,
    search: string -> seq<int>,
    replies: Gemini.Prompt -> string,
    decode: Gemini.Decoder)

  /** The error a call ends with, if the run's services make it fail. */
  function Fault(svc: Services, op: Op): Option<string> {
    if op in svc.faults then Some(svc.faults[op]) else None
  }

  /** Audio files are represented by the text they speak. */
  datatype Env = Env(
    output: map<string, string>,
    media: map<string, string>,
    files: map<string, string>,
    notes: map<int, map<string, string>>,
    tags: map<int, set<string>>,
    nextId: int)

  /** The tag the `anki` package gives notes that received audio; its
      definition is not part of this model, and the value the top-level
      command spells out is assumed. */
  const AnkiAudioTag := "audio-generated"

  function TagsOf(e: Env, noteId: int): set<string> {
    Lookup(e.tags, noteId, {})
  }

  // ---------------------------------------------------------------------
  // The note store's answers, in AnkiConnect's reply format.

  /** One entry of a `notesInfo` result. */
  function NoteJson(fields: map<string, string>): AC.Value {
    AC.Obj(map["fields" := AC.Obj(map k | k in fields :: AC.Obj(map["value" := AC.Str(fields[k])]))])
  }

  /** The store answers `notesInfo` for an unknown id with an empty list. */
  function NotesInfoReply(notes: map<int, map<string, string>>, noteId: int): AC.Transport {
    var found := if noteId in notes then [NoteJson(notes[noteId])] else [];
    AC.Replied(200, "", AC.Obj(map["result" := AC.Arr(found), "error" := AC.Null]))
  }

  function FindNotesReply(ids: seq<int>): AC.Transport {
    var items := seq(|ids|, i requires 0 <= i < |ids| => AC.Num(ids[i]));
    AC.Replied(200, "", AC.Obj(map["result" := AC.Arr(items), "error" := AC.Null]))
  }

  /** The phrases of a stored note under a field mapping. */
  function StoredPhrases(fields: map<string, string>, fieldMap: map<string, string>): map<string, AC.Phrase> {
    map f | f in fieldMap :: AC.Phrase(Lookup(fields, f, ""), Lookup(fields, fieldMap[f], ""))
  }

  // ---------------------------------------------------------------------
  // One step function per external call.

  function GetNoteStep(e: Env, svc: Services, noteId: int, fieldMap: map<string, string>): Result<AC.Note> {
    match Fault(svc, NotesInfo(noteId))
    case Some(m) => Err(m)
    case None => AC.GetNoteSpec(AC.SendRequest(NotesInfoReply(e.notes, noteId)), noteId, fieldMap)
  }

  lemma FieldTextOfStored(fields: map<string, string>, name: string)
    ensures AC.FieldText(NoteJson(fields), name) == Lookup(fields, name, "")
  {
    var fs := AC.Obj(map k | k in fields :: AC.Obj(map["value" := AC.Str(fields[k])]));
    assert AC.Get(NoteJson(fields), [AC.Key("fields"), AC.Key(name), AC.Key("value")])
        == AC.Get(fs, [AC.Key(name), AC.Key("value")]);
    if name in fields {
      assert AC.Get(fs, [AC.Key(name), AC.Key("value")])
          == AC.Get(AC.Obj(map["value" := AC.Str(fields[name])]), [AC.Key("value")]);
    }
  }

  /** Reading a note from the store: a stored note yields its own field
      texts, an unknown id yields "note N not found". */
  lemma StoreGetNote(e: Env, svc: Services, noteId: int, fieldMap: map<string, string>)
    requires Fault(svc, NotesInfo(noteId)).None?
    ensures noteId in e.notes ==>
              GetNoteStep(e, svc, noteId, fieldMap) == Ok(AC.Note(noteId, StoredPhrases(e.notes[noteId], fieldMap)))
    ensures noteId !in e.notes ==>
              GetNoteStep(e, svc, noteId, fieldMap) == Err("note " + FormatInt(noteId) + " not found")
  {
    if noteId in e.notes {
      StoreGetNoteFound(e.notes, noteId, fieldMap);
    } else {
      StoreGetNoteMissing(e.notes, noteId, fieldMap);
    }
  }

  lemma StoreGetNoteFound(notes: map<int, map<string, string>>, noteId: int, fieldMap: map<string, string>)
    requires noteId in notes
    ensures AC.GetNoteSpec(AC.SendRequest(NotesInfoReply(notes, noteId)), noteId, fieldMap)
            == Ok(AC.Note(noteId, StoredPhrases(notes[noteId], fieldMap)))
  {
    var t := NotesInfoReply(notes, noteId);
    assert AC.ErrorText(t.body) == "" by {
      assert AC.Get(t.body, [AC.Key("error")]) == AC.Get(AC.Null, []);
    }
    var n := NoteJson(notes[noteId]);
    assert AC.Get(t.body, [AC.Key("result"), AC.Index(0)]) == AC.Get(n, []);
    forall f | f in fieldMap
      ensures AC.PhraseOf(n, f, fieldMap[f]) == StoredPhrases(notes[noteId], fieldMap)[f]
    {
      FieldTextOfStored(notes[noteId], f);
      FieldTextOfStored(notes[noteId], fieldMap[f]);
    }
    assert (map f | f in fieldMap :: AC.PhraseOf(n, f, fieldMap[f])) == StoredPhrases(notes[noteId], fieldMap);
  }

  lemma StoreGetNoteMissing(notes: map<int, map<string, string>>, noteId: int, fieldMap: map<string, string>)
    requires noteId !in notes
    ensures AC.GetNoteSpec(AC.SendRequest(NotesInfoReply(notes, noteId)), noteId, fieldMap)
            == Err("note " + FormatInt(noteId) + " not found")
  {
    var t := NotesInfoReply(notes, noteId);
    assert AC.ErrorText(t.body) == "" by {
      assert AC.Get(t.body, [AC.Key("error")]) == AC.Get(AC.Null, []);
    }
    assert AC.Get(t.body, [AC.Key("result")]) == Some(AC.Arr([]));
  }


  function QueryStep(svc: Services, query: string): Result<seq<int>> {
    match Fault(svc, FindNotes(query))
    case Some(m) => Err(m)
    case None => AC.QueryNotesSpec(AC.SendRequest(FindNotesReply(svc.search(query))))
  }

  /** A query answered by the store yields the store's ids, in its order. */
  lemma StoreQuery(svc: Services, query: string)
    requires Fault(svc, FindNotes(query)).None?
    ensures QueryStep(svc, query) == Ok(svc.search(query))
  {
    var t := FindNotesReply(svc.search(query));
    assert AC.ErrorText(t.body) == "" by {
      assert AC.Get(t.body, [AC.Key("error")]) == AC.Get(AC.Null, []);
    }
    var ids := svc.search(query);
    var items := seq(|ids|, i requires 0 <= i < |ids| => AC.Num(ids[i]));
    assert AC.Get(t.body, [AC.Key("result")]) == AC.Get(AC.Arr(items), []);
    assert seq(|items|, i requires 0 <= i < |items| => AC.AsInt(items[i])) == ids;
  }

  /** The synthesiser leaves one file at `path` speaking `text`, or fails and
      leaves nothing. */
  function SynthesizeStep(e: Env, svc: Services, text: string, path: string): (Env, Option<string>) {
    match Fault(svc, Synthesize(text))
    case Some(m) => (e, Some(m))
    case None => (e.(output := e.output[path := text]), None)
  }

  /** `os.Rename` of a working file into the media directory. */
  function RenameStep(e: Env, svc: Services, from: string, name: string): (Env, Option<string>) {
    match Fault(svc, Rename(from, name))
    case Some(m) => (e, Some(m))
    case None =>
      if from !in e.output then (e, Some("rename " + from + ": no such file or directory"))
      else (e.(output := e.output - {from}, media := e.media[name := e.output[from]]), None)
  }

  /** `os.Remove` of a media file. */
  function RemoveStep(e: Env, svc: Services, name: string): (Env, Option<string>) {
    match Fault(svc, Remove(name))
    case Some(m) => (e, Some(m))
    case None =>
      if name !in e.media then (e, Some("remove " + name + ": no such file or directory"))
      else (e.(media := e.media - {name}), None)
  }

  /** The store's answer to `AC.UpdateNoteFieldPayload(noteId, field,
      value)`: that request names one note and the single field `field`
      (`AC.UpdateNamesOneField`), so exactly that field of that note is
      written. */
  function UpdateStep(e: Env, svc: Services, noteId: int, field: string, value: string): (Env, Option<string>) {
    match Fault(svc, UpdateNoteFields(noteId, field, value))
    case Some(m) => (e, Some(m))
    case None =>
      if noteId !in e.notes then (e, Some("anki connect error: note was not found: " + FormatInt(noteId)))
      else (e.(notes := e.notes[noteId := e.notes[noteId][field := value]]), None)
  }

  function AddTagStep(e: Env, svc: Services, noteId: int, tag: string): (Env, Option<string>) {
    match Fault(svc, AddTags(noteId, tag))
    case Some(m) => (e, Some(m))
    case None => (e.(tags := e.tags[noteId := TagsOf(e, noteId) + {tag}]), None)
  }

  function RemoveTagStep(e: Env, svc: Services, noteId: int, tag: string): (Env, Option<string>) {
    match Fault(svc, RemoveTags(noteId, tag))
    case Some(m) => (e, Some(m))
    case None => (e.(tags := e.tags[noteId := TagsOf(e, noteId) - {tag}]), None)
  }

  /** `AddNote`: a new note under the next free id. Duplicate detection is
      the store's: it shows up as the error text of a fault. */
  function AddNoteStep(e: Env, svc: Services, fields: map<string, string>): (Env, Result<int>) {
    match Fault(svc, AddNote(fields))
    case Some(m) => (e, Err(m))
    case None => (e.(notes := e.notes[e.nextId := fields], nextId := e.nextId + 1), Ok(e.nextId))
  }

  /** One model call. */
  function GenerateStep(svc: Services, prompt: Gemini.Prompt): Result<string> {
    match Fault(svc, Generate(prompt))
    case Some(m) => Err(m)
    case None => Ok(svc.replies(prompt))
  }

  function ReadStep(e: Env, svc: Services, path: string): Result<string> {
    match Fault(svc, ReadFile(path))
    case Some(m) => Err(m)
    case None => if path in e.files then Ok(e.files[path]) else Err("open " + path + ": no such file or directory")
  }

  /** Replacing a file through a temporary file: create, copy, close and
      rename can each fail, and then the original is kept. */
  function ReplaceStep(e: Env, svc: Services, path: string, contents: string): (Env, Option<string>) {
    if Fault(svc, CreateTemp(path)).Some? then (e, Fault(svc, CreateTemp(path)))
    else if Fault(svc, CopyRest(path)).Some? then (e, Fault(svc, CopyRest(path)))
    else if Fault(svc, CloseTemp(path)).Some? then (e, Fault(svc, CloseTemp(path)))
    else if Fault(svc, ReplaceFile(path)).Some? then (e, Fault(svc, ReplaceFile(path)))
    else (e.(files := e.files[path := contents]), None)
  }

  // ---------------------------------------------------------------------

  /** The external state the program changes in place. */
  class World {
    var output: map<string, string>
    var media: map<string, string>
    var files: map<string, string>
    var notes: map<int, map<string, string>>
    var tags: map<int, set<string>>
    var nextId: int
    const svc: Services

    function Snapshot(): Env
      reads this
    {
      Env(output, media, files, notes, tags, nextId)
    }

    constructor (start: Env, services: Services)
      ensures Snapshot() == start
      ensures svc == services
    {
      output, media, files := start.output, start.media, start.files;
      notes, tags, nextId := start.notes, start.tags, start.nextId;
      svc := services;
    }

    method GetNote(noteId: int, fieldMap: map<string, string>) returns (note: AC.Note, err: Option<string>)
      ensures err.None? <==> GetNoteStep(Snapshot(), svc, noteId, fieldMap).Ok?
      ensures err.None? ==> GetNoteStep(Snapshot(), svc, noteId, fieldMap) == Ok(note)
      ensures err.Some? ==> GetNoteStep(Snapshot(), svc, noteId, fieldMap) == Err(err.value)
    {
      var fault := Fault(svc, NotesInfo(noteId));
      if fault.Some? {
        return AC.Note(0, map[]), fault;
      }
      note, err := AC.GetNote(AC.SendRequest(NotesInfoReply(notes, noteId)), noteId, fieldMap);
    }

    method QueryNotes(query: string) returns (ids: seq<int>, err: Option<string>)
      ensures err.None? <==> QueryStep(svc, query).Ok?
      ensures err.None? ==> QueryStep(svc, query) == Ok(ids)
      ensures err.Some? ==> QueryStep(svc, query) == Err(err.value)
    {
      var fault := Fault(svc, FindNotes(query));
      if fault.Some? {
        return [], fault;
      }
      ids, err := AC.QueryNotes(AC.SendRequest(FindNotesReply(svc.search(query))));
    }

    method Synthesize(text: string, path: string) returns (err: Option<string>)
      modifies this
      ensures (Snapshot(), err) == SynthesizeStep(old(Snapshot()), svc, text, path)
    {
      err := Fault(svc, Op.Synthesize(text));
      if err.None? {
        output := output[path := text];
      }
    }

    method Rename(from: string, name: string) returns (err: Option<string>)
      modifies this
      ensures (Snapshot(), err) == RenameStep(old(Snapshot()), svc, from, name)
    {
      err := Fault(svc, Op.Rename(from, name));
      if err.None? {
        if from !in output {
          err := Some("rename " + from + ": no such file or directory");
        } else {
          media := media[name := output[from]];
          output := output - {from};
        }
      }
    }

    method Remove(name: string) returns (err: Option<string>)
      modifies this
      ensures (Snapshot(), err) == RemoveStep(old(Snapshot()), svc, name)
    {
      err := Fault(svc, Op.Remove(name));
      if err.None? {
        if name !in media {
          err := Some("remove " + name + ": no such file or directory");
        } else {
          media := media - {name};
        }
      }
    }

    method UpdateNoteField(noteId: int, field: string, value: string) returns (err: Option<string>)
      modifies this
      ensures (Snapshot(), err) == UpdateStep(old(Snapshot()), svc, noteId, field, value)
    {
      err := Fault(svc, UpdateNoteFields(noteId, field, value));
      if err.None? {
        if noteId !in notes {
          err := Some("anki connect error: note was not found: " + FormatInt(noteId));
        } else {
          notes := notes[noteId := notes[noteId][field := value]];
        }
      }
    }

    method AddNoteTag(noteId: int, tag: string) returns (err: Option<string>)
      modifies this
      ensures (Snapshot(), err) == AddTagStep(old(Snapshot()), svc, noteId, tag)
    {
      err := Fault(svc, AddTags(noteId, tag));
      if err.None? {
        tags := tags[noteId := Lookup(tags, noteId, {}) + {tag}];
      }
    }

    method RemoveNoteTag(noteId: int, tag: string) returns (err: Option<string>)
      modifies this
      ensures (Snapshot(), err) == RemoveTagStep(old(Snapshot()), svc, noteId, tag)
    {
      err := Fault(svc, RemoveTags(noteId, tag));
      if err.None? {
        tags := tags[noteId := Lookup(tags, noteId, {}) - {tag}];
      }
    }

    method AddNote(fields: map<string, string>) returns (noteId: int, err: Option<string>)
      modifies this
      ensures var (e, r) := AddNoteStep(old(Snapshot()), svc, fields);
        && Snapshot() == e
        && (r.Ok? <==> err.None?)
        && (r.Ok? ==> noteId == r.value)
        && (r.Err? ==> err == Some(r.msg) && noteId == 0)
    {
      err := Fault(svc, Op.AddNote(fields));
      noteId := 0;
      if err.None? {
        noteId := nextId;
        notes := notes[noteId := fields];
        nextId := nextId + 1;
      }
    }

    method Generate(prompt: Gemini.Prompt) returns (text: string, err: Option<string>)
      ensures GenerateStep(svc, prompt) == if err.None? then Ok(text) else Err(err.value)
    {
      err := Fault(svc, Op.Generate(prompt));
      text := if err.None? then svc.replies(prompt) else "";
    }

    method ReadFile(path: string) returns (contents: string, err: Option<string>)
      ensures ReadStep(Snapshot(), svc, path) == if err.None? then Ok(contents) else Err(err.value)
    {
      err := Fault(svc, Op.ReadFile(path));
      contents := "";
      if err.None? {
        if path in files {
          contents := files[path];
        } else {
          err := Some("open " + path + ": no such file or directory");
        }
      }
    }

    method ReplaceFile(path: string, contents: string) returns (err: Option<string>)
      modifies this
      ensures (Snapshot(), err) == ReplaceStep(old(Snapshot()), svc, path, contents)
    {
      err := Fault(svc, CreateTemp(path));
      if err.Some? { return; }
      err := Fault(svc, CopyRest(path));
      if err.Some? { return; }
      err := Fault(svc, CloseTemp(path));
      if err.Some? { return; }
      err := Fault(svc, Op.ReplaceFile(path));
      if err.Some? { return; }
      files := files[path := contents];
    }
  }
}
