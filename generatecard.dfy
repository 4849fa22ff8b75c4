/** The `generate-card` command: ask the model for a note about a word, add
    it to the store, give its sentences audio, and work through a vocabulary
    file one line at a time, removing each line once it has been handled. */
module GenerateCard {
  import opened Wrappers
  import opened Strings
  import opened Maps
  import opened AnkiConnect
  import opened Environment
  import opened NoteAudio
  import opened Gemini

  /** Source field to audio field. */
  const AudioFields: map<string, string> := map[
    "base_d" := "base_a", "s1" := "s1a", "s2" := "s2a", "s3" := "s3a", "s4" := "s4a"]

  /** The error text by which the store reports a duplicate note. */
  const DuplicateMessage := "cannot create note because it is a duplicate"

  /** The loop of `addAudioToNote` behaves as `NoteAudio` with these options. */
  const CardOptions := Options(false, true, false)

  /** One iteration of the loop in `addAudioToNote`: every field with text
      after sanitising is spoken, whatever its audio field holds, and the old
      audio is never removed. */
  function CardField(e: Env, svc: Services, noteId: int, field: string, target: string, phrase: Phrase)
    : (Env, Option<string>)
  {
    var text := TrimSpace(RemoveAll(phrase.value, Nbsp));
    if text == "" then (e, None)
    else
      var filename := FileName(noteId, field);
      var (e1, placeErr) := PlaceAudio(e, svc, text, filename);
      if placeErr.Some? then (e1, placeErr)
      else UpdateStep(e1, svc, noteId, target, SoundRef(filename))
  }

  function CardFieldAt(e: Env, svc: Services, note: Note, field: string): (Env, Option<string>) {
    CardField(e, svc, note.noteId, field, Lookup(AudioFields, field, ""), PhraseAt(note, field))
  }

  /** The loop over the fields in visit order `order`: the first error ends
      it. */
  function CardFields(e: Env, svc: Services, note: Note, order: seq<string>): (Env, Option<string>)
    decreases |order|
  {
    if order == [] then (e, None)
    else
      var (e1, err) := CardFields(e, svc, note, order[..|order| - 1]);
      if err.Some? then (e1, err)
      else CardFieldAt(e1, svc, note, order[|order| - 1])
  }

  /** `addAudioToNote`: a failed `GetNote` ends the process; after the loop
      the note is tagged. */
  function CardAddAudio(e: Env, svc: Services, noteId: int, order: seq<string>): (r: (Env, Outcome))
    ensures r.1.Done? ==> AnkiAudioTag in TagsOf(r.0, noteId)
    ensures GetNoteStep(e, svc, noteId, AudioFields).Err? ==> r.0 == e && r.1.Fatal?
    ensures GetNoteStep(e, svc, noteId, AudioFields).Ok? ==> !r.1.Fatal?
  {
    match GetNoteStep(e, svc, noteId, AudioFields)
    case Err(m) => (e, Fatal(m))
    case Ok(note) =>
      var (e1, err) := CardFields(e, svc, note, order);
      if err.Some? then (e1, Failed(err.value))
      else
        var (e2, tagErr) := AddTagStep(e1, svc, note.noteId, AnkiAudioTag);
        if tagErr.Some? then (e2, Failed(tagErr.value)) else (e2, Done)
  }

  /** `generateNote`: a failed model call, an undecodable reply or a failed
      `AddNote` other than a duplicate ends the process; a duplicate is
      skipped; what adding audio returns is ignored. */
  function GenerateNote(e: Env, svc: Services, word: string, order: seq<string>): (r: (Env, Outcome))
    ensures !r.1.Failed?
    ensures GenerateStep(svc, Prompt(CardPrompt, word)).Err? ==>
              r == (e, Fatal(GenerateStep(svc, Prompt(CardPrompt, word)).msg))
    ensures GenerateStep(svc, Prompt(CardPrompt, word)).Ok?
            && svc.decode(StripFences(GenerateStep(svc, Prompt(CardPrompt, word)).value)).Err? ==>
              r == (e, Fatal("failed to unmarshal response:\n" + GenerateStep(svc, Prompt(CardPrompt, word)).value + "\n"))
    ensures GenerateStep(svc, Prompt(CardPrompt, word)).Ok?
            && svc.decode(StripFences(GenerateStep(svc, Prompt(CardPrompt, word)).value)).Ok? ==>
              var added := AddNoteStep(e, svc, ToMap(svc.decode(StripFences(GenerateStep(svc, Prompt(CardPrompt, word)).value)).value));
              added.1.Err? && !Contains(added.1.msg, DuplicateMessage) ==>
                r == (added.0, Fatal("failed to add note: " + added.1.msg))
  {
    match GenerateStep(svc, Prompt(CardPrompt, word))
    case Err(m) => (e, Fatal(m))
    case Ok(text) =>
      match svc.decode(StripFences(text))
      case Err(_) => (e, Fatal("failed to unmarshal response:\n" + text + "\n"))
      case Ok(resp) =>
        var (e1, added) := AddNoteStep(e, svc, ToMap(resp));
        match added
        case Err(m) =>
          if Contains(m, DuplicateMessage) then (e1, Done) else (e1, Fatal("failed to add note: " + m))
        case Ok(noteId) =>
          var (e2, outcome) := CardAddAudio(e1, svc, noteId, order);
          (e2, if outcome.Fatal? then outcome else Done)
  }

  /** Where the first line of `s` ends: the index of its first newline, or
      `|s|`. */
  function LineEnd(s: string): (n: nat)
    ensures n <= |s|
    ensures n < |s| ==> s[n] == '\n'
    ensures '\n' !in s[..n]
    decreases |s|
  {
    if s == [] || s[0] == '\n' then 0
    else
      var n := 1 + LineEnd(s[1..]);
      assert s[..n] == [s[0]] + s[1..][..n - 1];
      n
  }

  /** `ReadString('\n')`: the first line with its newline, and the rest. */
  function SplitFirstLine(s: string): (r: (string, string))
    ensures r.0 + r.1 == s
    ensures s != "" ==> r.0 != ""
    ensures || (r.0 != "" && r.0[|r.0| - 1] == '\n' && '\n' !in r.0[..|r.0| - 1])
            || ('\n' !in s && r == (s, ""))
  {
    var n := LineEnd(s);
    if n < |s| then
      assert s[..n + 1][..n] == s[..n];
      (s[..n + 1], s[n + 1..])
    else
      assert s[..n] == s;
      (s, "")
  }

  /** The `handle` callback of `popFirstLine`: it gets the state, the line
      and the order in which the note's fields will be visited. A `Fatal`
      outcome ends the process inside the callback. */
  type Handler = (Env, string, seq<string>) -> (Env, Outcome)

  /** `generateNote` as a handler. */
  function Generate(svc: Services): Handler {
    (e: Env, word: string, order: seq<string>) => GenerateNote(e, svc, word, order)
  }

  /** A handler that never touches the vocabulary file. */
  ghost predicate KeepsFiles(handle: Handler) {
    forall e, word, order :: handle(e, word, order).0.files == e.files
  }

  /** `popFirstLine`: an empty file is reported as empty and left alone;
      otherwise the first line, trimmed, is handled and then the file is
      rewritten without it. */
  function PopFirstLine(e: Env, svc: Services, path: string, handle: Handler, order: seq<string>): (r: (Env, Outcome, bool))
    ensures r.2 ==> r.0 == e && r.1.Done?
    ensures ReadStep(e, svc, path).Err? ==> r == (e, Failed(ReadStep(e, svc, path).msg), false)
  {
    match ReadStep(e, svc, path)
    case Err(m) => (e, Failed(m), false)
    case Ok(contents) =>
      if contents == "" then (e, Done, true)
      else
        var (first, rest) := SplitFirstLine(contents);
        var (e1, handled) := handle(e, TrimSpace(first), order);
        if handled.Fatal? then (e1, handled, false)
        else
          var (e2, err) := ReplaceStep(e1, svc, path, rest);
          (e2, if err.Some? then Failed(err.value) else Done, false)
  }

  /** The state of the driver loop: its outcome, how many words it handled,
      and whether it has stopped. */
  datatype Drive = Drive(env: Env, outcome: Outcome, count: nat, stopped: bool)

  /** One more iteration of the driver loop, given what popping a line
      produced: an error ends the process, an empty file ends the loop, and
      so does reaching `limit` words. */
  function Next(d: Drive, popped: (Env, Outcome, bool), limit: int): Drive {
    var (e1, outcome, isEmpty) := popped;
    if !outcome.Done? then Drive(e1, Fatal(outcome.msg), d.count, true)
    else if isEmpty then Drive(e1, Done, d.count, true)
    else if d.count + 1 >= limit then Drive(e1, Done, d.count + 1, true)
    else Drive(e1, Done, d.count + 1, false)
  }

  /** `generateNoteForWordsInVocabFile` after as many iterations as
      `visits` has entries, the last entry being the field visit order of
      the last iteration; once the loop has stopped, further iterations
      change nothing. */
  function DriveLoop(e: Env, svc: Services, path: string, limit: int, handle: Handler, visits: seq<seq<string>>): Drive
    decreases |visits|
  {
    if visits == [] then Drive(e, Done, 0, false)
    else
      var d := DriveLoop(e, svc, path, limit, handle, visits[..|visits| - 1]);
      if d.stopped then d
      else Next(d, PopFirstLine(d.env, svc, path, handle, visits[|visits| - 1]), limit)
  }

  // ---------------------------------------------------------------------
  // The loop of `addAudioToNote` against `NoteAudio`.

  /** One iteration is `NoteAudio`'s with overwriting on, no dry run and no
      old audio removal. */
  lemma CardFieldIsSyncField(e: Env, svc: Services, noteId: int, field: string, target: string, phrase: Phrase)
    ensures CardField(e, svc, noteId, field, target, phrase) == SyncField(e, svc, CardOptions, noteId, field, target, phrase)
  {
  }

  lemma {:induction false} CardFieldsIsSyncFields(e: Env, svc: Services, note: Note, order: seq<string>)
    ensures CardFields(e, svc, note, order) == SyncFields(e, svc, CardOptions, note, AudioFields, order)
    decreases |order|
  {
    if order != [] {
      CardFieldsIsSyncFields(e, svc, note, order[..|order| - 1]);
      var e1 := CardFields(e, svc, note, order[..|order| - 1]).0;
      var last := order[|order| - 1];
      CardFieldIsSyncField(e1, svc, note.noteId, last, Lookup(AudioFields, last, ""), PhraseAt(note, last));
    }
  }

  /** Each audio field is named after its source field. */
  lemma AudioFieldsNaming()
    ensures forall f :: f in AudioFields ==> (f == "base_d" && AudioFields[f] == "base_a") || (|f| == 2 && AudioFields[f] == f + "a")
  {
    forall f | f in AudioFields
      ensures (f == "base_d" && AudioFields[f] == "base_a") || (|f| == 2 && AudioFields[f] == f + "a")
    {
      assert f in {"base_d", "s1", "s2", "s3", "s4"};
    }
  }

  /** Different source fields have different audio fields. */
  lemma AudioFieldsInjective()
    ensures Injective(AudioFields)
  {
    AudioFieldsNaming();
    forall f, g | f in AudioFields && g in AudioFields && f != g
      ensures AudioFields[f] != AudioFields[g]
    {
      if f != "base_d" && g != "base_d" {
        assert (f + "a")[..2] == f && (g + "a")[..2] == g;
      }
    }
  }

  /** No audio field, and not the empty name, is one of the fields a
      generated note fills in. */
  lemma AudioFieldsNotGenerated()
    ensures forall f :: f in AudioFields ==> AudioFields[f] !in NoteFieldNames
    ensures "" !in NoteFieldNames
  {
    forall f | f in AudioFields
      ensures AudioFields[f] !in NoteFieldNames
    {
      assert f in {"base_d", "s1", "s2", "s3", "s4"};
    }
  }

  /** Adding audio is `NoteAudio`'s synchronisation with `CardOptions`,
      followed by tagging. */
  lemma CardAddAudioIsSync(e: Env, svc: Services, noteId: int, order: seq<string>)
    ensures var r := CardAddAudio(e, svc, noteId, order);
      var s := Sync(e, svc, noteId, AudioFields, CardOptions, order);
      && r.0 == s.0.(tags := r.0.tags)
      && (r.1.Done? ==> s.1.None?)
  {
    if GetNoteStep(e, svc, noteId, AudioFields).Ok? {
      var note := GetNoteStep(e, svc, noteId, AudioFields).value;
      CardFieldsIsSyncFields(e, svc, note, order);
    }
  }

  /** After a successful run every audio field whose source field has text
      refers to that field's new file, whether or not it had audio before:
      existing audio is always replaced. */
  lemma CardAudioReplaced(e: Env, svc: Services, noteId: int, order: seq<string>)
    requires Enumerates(order, AudioFields.Keys)
    requires CardAddAudio(e, svc, noteId, order).1.Done?
    ensures noteId in e.notes
    ensures forall f :: f in AudioFields && Sanitize(Lookup(e.notes[noteId], f, "")) != "" ==>
              Stored(CardAddAudio(e, svc, noteId, order).0, noteId, AudioFields[f]) == Some(SoundRef(FileName(noteId, f)))
  {
    CardAddAudioIsSync(e, svc, noteId, order);
    AudioFieldsInjective();
    SyncOverwrites(e, svc, noteId, AudioFields, CardOptions, order);
  }

  /** Adding audio touches neither the vocabulary file nor the id counter,
      and changes no field of the note other than the audio fields. */
  lemma CardAddAudioFrame(e: Env, svc: Services, noteId: int, order: seq<string>)
    ensures var r := CardAddAudio(e, svc, noteId, order).0;
      && r.files == e.files && r.nextId == e.nextId && r.notes.Keys == e.notes.Keys
      && forall k :: k !in AudioFields.Values && k != "" ==> Stored(r, noteId, k) == Stored(e, noteId, k)
  {
    CardAddAudioIsSync(e, svc, noteId, order);
    if GetNoteStep(e, svc, noteId, AudioFields).Ok? {
      SyncReadsStore(e, svc, noteId, AudioFields);
      var note := GetNoteStep(e, svc, noteId, AudioFields).value;
      SyncFieldsFrame(e, svc, CardOptions, note, AudioFields, order);
      TargetsWithin(AudioFields, order);
    }
  }

  // ---------------------------------------------------------------------
  // Generating a note.

  /** A duplicate note is skipped without any other change. */
  lemma SkipsDuplicate(e: Env, svc: Services, word: string, order: seq<string>, resp: Response, pre: string, post: string)
    requires GenerateStep(svc, Prompt(CardPrompt, word)).Ok?
    requires svc.decode(StripFences(GenerateStep(svc, Prompt(CardPrompt, word)).value)) == Ok(resp)
    requires Fault(svc, Op.AddNote(ToMap(resp))) == Some(pre + DuplicateMessage + post)
    ensures GenerateNote(e, svc, word, order) == (e, Done)
  {
    ContainsInfix(pre, DuplicateMessage, post);
  }

  /** A fenced reply becomes a new note holding the thirteen generated
      fields; adding audio afterwards leaves them as they were. */
  lemma AddsGeneratedNote(e: Env, svc: Services, word: string, order: seq<string>, body: string, resp: Response)
    requires GenerateStep(svc, Prompt(CardPrompt, word)) == Ok(JsonFence + body + Fence)
    requires svc.decode(body) == Ok(resp)
    requires Fault(svc, Op.AddNote(ToMap(resp))).None?
    ensures var r := GenerateNote(e, svc, word, order).0;
      && r.nextId == e.nextId + 1
      && forall f :: f in NoteFieldNames ==> Stored(r, e.nextId, f) == Some(ToMap(resp)[f])
  {
    StripFencesWrapped(body);
    var e1 := AddNoteStep(e, svc, ToMap(resp)).0;
    CardAddAudioFrame(e1, svc, e.nextId, order);
    AudioFieldsNotGenerated();
  }

  /** Generating a note never touches the vocabulary file. */
  lemma GenerateNoteKeepsFiles(e: Env, svc: Services, word: string, order: seq<string>)
    ensures GenerateNote(e, svc, word, order).0.files == e.files
  {
    match GenerateStep(svc, Prompt(CardPrompt, word))
    case Err(_) =>
    case Ok(text) =>
      match svc.decode(StripFences(text))
      case Err(_) =>
      case Ok(resp) =>
        var (e1, added) := AddNoteStep(e, svc, ToMap(resp));
        assert e1.files == e.files;
        if added.Ok? {
          CardAddAudioKeepsFiles(e1, svc, added.value, order);
        }
  }

  lemma CardAddAudioKeepsFiles(e: Env, svc: Services, noteId: int, order: seq<string>)
    ensures CardAddAudio(e, svc, noteId, order).0.files == e.files
  {
    CardAddAudioFrame(e, svc, noteId, order);
  }

  // ---------------------------------------------------------------------
  // The vocabulary file as a queue.

  /** `generateNote` leaves the vocabulary file to `popFirstLine`. */
  lemma GenerateKeepsFiles(svc: Services)
    ensures KeepsFiles(Generate(svc))
  {
    forall e, word, order
      ensures Generate(svc)(e, word, order).0.files == e.files
    {
      GenerateNoteKeepsFiles(e, svc, word, order);
    }
  }

  /** `w` is the first line of `contents`, without its newline. */
  lemma FirstLineOf(contents: string, w: string)
    requires '\n' !in w && (contents == w || w + "\n" <= contents)
    ensures TrimSpace(SplitFirstLine(contents).0) == TrimSpace(w)
  {
    var first := SplitFirstLine(contents).0;
    if contents == w {
      if first != "" && first[|first| - 1] == '\n' {
        assert contents[|first| - 1] == '\n';
      }
    } else {
      assert contents[|w|] == '\n';
      var x := first[..|first| - 1];
      assert first == x + "\n";
      assert x == contents[..|w|] == w;
      TrimSpaceAppendSpace(w, '\n');
    }
  }

  /** An empty file is reported as empty without calling the handler: the
      result is the same whatever the handler does. */
  lemma PopSkipsHandlerOnEmptyFile(e: Env, svc: Services, path: string, h1: Handler, h2: Handler, order: seq<string>)
    requires ReadStep(e, svc, path) == Ok("")
    ensures PopFirstLine(e, svc, path, h1, order) == PopFirstLine(e, svc, path, h2, order) == (e, Done, true)
  {
  }

  /** A non-empty file has only its first line handled, trimmed of
      surrounding whitespace, in the state the file was read in, and before
      the file is rewritten: two handlers that agree on that one call give
      the same result. */
  lemma PopHandlesFirstLine(e: Env, svc: Services, path: string, h1: Handler, h2: Handler, order: seq<string>, w: string)
    requires ReadStep(e, svc, path).Ok? && ReadStep(e, svc, path).value != ""
    requires var contents := ReadStep(e, svc, path).value;
      '\n' !in w && (contents == w || w + "\n" <= contents)
    requires h1(e, TrimSpace(w), order) == h2(e, TrimSpace(w), order)
    ensures PopFirstLine(e, svc, path, h1, order) == PopFirstLine(e, svc, path, h2, order)
    ensures !PopFirstLine(e, svc, path, h1, order).2
  {
    var contents := ReadStep(e, svc, path).value;
    FirstLineOf(contents, w);
    var line := TrimSpace(SplitFirstLine(contents).0);
    assert h1(e, line, order) == h2(e, line, order);
  }

  /** A handled line is removed: the file now holds what followed the first
      line's newline, and nothing else of it. */
  lemma PopConsumesFirstLine(e: Env, svc: Services, path: string, handle: Handler, order: seq<string>)
    requires KeepsFiles(handle)
    requires ReadStep(e, svc, path).Ok? && ReadStep(e, svc, path).value != ""
    requires PopFirstLine(e, svc, path, handle, order).1.Done?
    ensures var contents := ReadStep(e, svc, path).value;
      var r := PopFirstLine(e, svc, path, handle, order);
      && !r.2
      && r.0.files == e.files[path := SplitFirstLine(contents).1]
      && contents == SplitFirstLine(contents).0 + r.0.files[path]
      && |r.0.files[path]| < |contents|
  {
    var contents := ReadStep(e, svc, path).value;
    var (first, rest) := SplitFirstLine(contents);
    var (e1, handled) := handle(e, TrimSpace(first), order);
    assert e1.files == e.files;
    assert !handled.Fatal?;
    var (e2, err) := ReplaceStep(e1, svc, path, rest);
    assert err.None?;
    assert PopFirstLine(e, svc, path, handle, order) == (e2, Done, false);
  }

  /** When creating, copying into, closing or renaming the temporary file
      fails, the line stays although its word was handled. */
  lemma PopKeepsLineOnRewriteFailure(e: Env, svc: Services, path: string, handle: Handler, order: seq<string>)
    requires KeepsFiles(handle)
    requires ReadStep(e, svc, path).Ok? && ReadStep(e, svc, path).value != ""
    requires || Fault(svc, CreateTemp(path)).Some? || Fault(svc, CopyRest(path)).Some?
             || Fault(svc, CloseTemp(path)).Some? || Fault(svc, Op.ReplaceFile(path)).Some?
    ensures PopFirstLine(e, svc, path, handle, order).0.files == e.files
    ensures !PopFirstLine(e, svc, path, handle, order).1.Done?
  {
    var contents := ReadStep(e, svc, path).value;
    var h := handle(e, TrimSpace(SplitFirstLine(contents).0), order);
    assert h.0.files == e.files;
  }

  /** An empty vocabulary file stops the loop at once, with nothing done. */
  lemma DriveStopsOnEmptyFile(e: Env, svc: Services, path: string, limit: int, handle: Handler, order: seq<string>)
    requires ReadStep(e, svc, path) == Ok("")
    ensures DriveLoop(e, svc, path, limit, handle, [order]) == Drive(e, Done, 0, true)
  {
    assert [order][..0] == [];
  }

  /** What one iteration keeps of the loop's bound on the words handled. */
  predicate Bounded(d: Drive, limit: int, n: nat) {
    && d.count <= n
    && (d.count <= limit || d.count <= 1)
    && (!d.stopped ==> d.count == n && (n == 0 || n < limit))
    && !d.outcome.Failed?
  }

  lemma NextBounded(d: Drive, popped: (Env, Outcome, bool), limit: int, n: nat)
    requires n > 0 && Bounded(d, limit, n - 1) && !d.stopped
    ensures Bounded(Next(d, popped, limit), limit, n)
  {
  }

  /** One more iteration keeps the loop's bound. */
  lemma DriveBoundStep(e: Env, svc: Services, path: string, limit: int, handle: Handler, visits: seq<seq<string>>)
    requires visits != []
    requires Bounded(DriveLoop(e, svc, path, limit, handle, visits[..|visits| - 1]), limit, |visits| - 1)
    ensures Bounded(DriveLoop(e, svc, path, limit, handle, visits), limit, |visits|)
  {
    var d := DriveLoop(e, svc, path, limit, handle, visits[..|visits| - 1]);
    if !d.stopped {
      NextBounded(d, PopFirstLine(d.env, svc, path, handle, visits[|visits| - 1]), limit, |visits|);
    }
  }

  /** The loop handles at most `limit` words, or one when `limit` is below
      one; errors always end the process. */
  lemma {:induction false} DriveBound(e: Env, svc: Services, path: string, limit: int, handle: Handler, visits: seq<seq<string>>)
    ensures Bounded(DriveLoop(e, svc, path, limit, handle, visits), limit, |visits|)
    decreases |visits|
  {
    if visits != [] {
      DriveBound(e, svc, path, limit, handle, visits[..|visits| - 1]);
      DriveBoundStep(e, svc, path, limit, handle, visits);
    }
  }

  /** One iteration of the loop, for the loop that runs it on the world. */
  lemma DriveStep(e: Env, svc: Services, path: string, limit: int, handle: Handler, visits: seq<seq<string>>, order: seq<string>)
    requires !DriveLoop(e, svc, path, limit, handle, visits).stopped
    ensures var d := DriveLoop(e, svc, path, limit, handle, visits);
      DriveLoop(e, svc, path, limit, handle, visits + [order]) == Next(d, PopFirstLine(d.env, svc, path, handle, order), limit)
  {
    assert (visits + [order])[..|visits|] == visits;
  }

  // ---------------------------------------------------------------------

  /** One iteration of the loop in `addAudioToNote`, on the world. */
  method AddAudioToCardField(w: World, noteId: int, field: string, target: string, phrase: Phrase)
    returns (err: Option<string>)
    modifies w
    ensures (w.Snapshot(), err) == CardField(old(w.Snapshot()), w.svc, noteId, field, target, phrase)
  {
    err := None;
    var text := RemoveAll(phrase.value, Nbsp);
    text := TrimSpace(text);
    if text == "" {
      return;
    }
    var outputPath := OutputPath(text);
    err := w.Synthesize(text, outputPath);
    if err.Some? {
      return;
    }
    var filename := FileName(noteId, field);
    err := w.Rename(outputPath, filename);
    if err.Some? {
      return;
    }
    var newAudioFieldValue := SoundRef(filename);
    err := w.UpdateNoteField(noteId, target, newAudioFieldValue);
  }

  /** `addAudioToNote` on the world; `order` is the order in which `range`
      visited the phrases. */
  method AddAudioToCard(w: World, noteId: int) returns (outcome: Outcome, order: seq<string>)
    modifies w
    ensures GetNoteStep(old(w.Snapshot()), w.svc, noteId, AudioFields).Ok? ==> Enumerates(order, AudioFields.Keys)
    ensures (w.Snapshot(), outcome) == CardAddAudio(old(w.Snapshot()), w.svc, noteId, order)
  {
    ghost var e0 := w.Snapshot();
    var note, err := w.GetNote(noteId, AudioFields);
    if err.Some? {
      return Fatal(err.value), [];
    }
    GetNoteFields(AnkiConnect.SendRequest(NotesInfoReply(e0.notes, noteId)), noteId, AudioFields);
    order := RangeKeys(note.phrases);
    for i := 0 to |order|
      invariant (w.Snapshot(), None) == CardFields(e0, w.svc, note, order[..i])
    {
      CardFieldsAppend(e0, w.svc, note, order, i);
      var field := order[i];
      assert PhraseAt(note, field) == note.phrases[field];
      err := AddAudioToCardField(w, note.noteId, field, Lookup(AudioFields, field, ""), note.phrases[field]);
      if err.Some? {
        CardFieldsSticky(e0, w.svc, note, order, i + 1);
        return Failed(err.value), order;
      }
    }
    assert order[..|order|] == order;
    err := w.AddNoteTag(note.noteId, AnkiAudioTag);
    outcome := if err.Some? then Failed(err.value) else Done;
  }

  /** One more iteration of a loop that has not failed. */
  lemma CardFieldsAppend(e: Env, svc: Services, note: Note, order: seq<string>, i: nat)
    requires i < |order| && CardFields(e, svc, note, order[..i]).1.None?
    ensures CardFields(e, svc, note, order[..i + 1]) == CardFieldAt(CardFields(e, svc, note, order[..i]).0, svc, note, order[i])
  {
    assert order[..i + 1][..i] == order[..i];
  }

  /** Once a prefix of the loop has failed, the rest is never run. */
  lemma CardFieldsSticky(e: Env, svc: Services, note: Note, order: seq<string>, k: nat)
    requires k <= |order| && CardFields(e, svc, note, order[..k]).1.Some?
    ensures CardFields(e, svc, note, order) == CardFields(e, svc, note, order[..k])
  {
    CardFieldsIsSyncFields(e, svc, note, order[..k]);
    CardFieldsIsSyncFields(e, svc, note, order);
    SyncFieldsSticky(e, svc, CardOptions, note, AudioFields, order, k);
  }

  /** `generateNote` on the world. */
  method GenerateNoteFor(w: World, word: string) returns (outcome: Outcome, order: seq<string>)
    modifies w
    ensures (w.Snapshot(), outcome) == GenerateNote(old(w.Snapshot()), w.svc, word, order)
  {
    order := [];
    var text, err := w.Generate(Prompt(CardPrompt, word));
    if err.Some? {
      return Fatal(err.value), order;
    }
    var jsonText := TrimPrefix(text, JsonFence);
    jsonText := TrimSuffix(jsonText, Fence);
    var response := w.svc.decode(jsonText);
    if response.Err? {
      return Fatal("failed to unmarshal response:\n" + text + "\n"), order;
    }
    var noteId;
    noteId, err := w.AddNote(ToMap(response.value));
    if err.Some? {
      if Contains(err.value, DuplicateMessage) {
        return Done, order;
      }
      return Fatal("failed to add note: " + err.value), order;
    }
    outcome, order := AddAudioToCard(w, noteId);
    if !outcome.Fatal? {
      outcome := Done;
    }
  }

  /** `popFirstLine` on the world, with `generateNote` as the handler. */
  method PopFirstLineOf(w: World, path: string) returns (isEmpty: bool, outcome: Outcome, order: seq<string>)
    modifies w
    ensures (w.Snapshot(), outcome, isEmpty) == PopFirstLine(old(w.Snapshot()), w.svc, path, Generate(w.svc), order)
  {
    order := [];
    var contents, err := w.ReadFile(path);
    if err.Some? {
      return false, Failed(err.value), order;
    }
    if contents == "" {
      return true, Done, order;
    }
    var (first, rest) := SplitFirstLine(contents);
    outcome, order := GenerateNoteFor(w, TrimSpace(first));
    if outcome.Fatal? {
      return false, outcome, order;
    }
    err := w.ReplaceFile(path, rest);
    outcome := if err.Some? then Failed(err.value) else Done;
    isEmpty := false;
  }

  /** `generateNoteForWordsInVocabFile`: `visits` holds the field visit
      order of each iteration. */
  method GenerateForVocabFile(w: World, path: string, limit: int)
    returns (outcome: Outcome, count: nat, visits: seq<seq<string>>)
    modifies w
    ensures DriveLoop(old(w.Snapshot()), w.svc, path, limit, Generate(w.svc), visits) == Drive(w.Snapshot(), outcome, count, true)
  {
    ghost var e0 := w.Snapshot();
    count, visits := 0, [];
    while true
      invariant DriveLoop(e0, w.svc, path, limit, Generate(w.svc), visits) == Drive(w.Snapshot(), Done, count, false)
      decreases |Lookup(w.files, path, "")|
    {
      ghost var before := w.Snapshot();
      var isEmpty, popped, order := PopFirstLineOf(w, path);
      DriveStep(e0, w.svc, path, limit, Generate(w.svc), visits, order);
      visits := visits + [order];
      if !popped.Done? {
        return Fatal(popped.msg), count, visits;
      }
      if isEmpty {
        return Done, count, visits;
      }
      GenerateKeepsFiles(w.svc);
      PopConsumesFirstLine(before, w.svc, path, Generate(w.svc), order);
      count := count + 1;
      if count >= limit {
        return Done, count, visits;
      }
    }
  }
}
