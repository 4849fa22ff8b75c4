/** The older synchroniser of the top-level command: the same loop as
    `NoteAudio`, but the skip test is on the raw field text, every handled
    field also tags the note, store errors end the process, and old audio is
    always removed. `Dispatch` is the choice between one note and a query. */
module Legacy {
  import opened Wrappers
  import opened Strings
  import opened Maps
  import opened AnkiConnect
  import opened Environment
  import opened NoteAudio

  /** Source field to audio field. */
  const Fields: map<string, string> := map[
    "base_d" := "base_a", "s1" := "s1a", "s2" := "s2a", "s3" := "s3a", "s4" := "s4a",
    "s5" := "s5a", "s6" := "s6a", "s7" := "s7a", "s8" := "s8a", "s9" := "s9a"]

  const AudioGeneratedTag := "audio-generated"

  /** The command line: `-note`, `-dryrun`, `-overwrite`, `-query`, `-removetag`. */
  datatype Flags = Flags(noteId: int, dryRun: bool, overwrite: bool, query: string, removeTag: string)

  /** `keys`: every key of `m` once, in `range` order. */
  method Keys(m: map<string, string>) returns (allKeys: seq<string>)
    ensures |allKeys| == |m|
    ensures Enumerates(allKeys, m.Keys)
  {
    allKeys := RangeKeys(m);
  }

  /** The raw text decides: no "&nbsp;" removal and no trimming. */
  predicate LegacyNeedsAudio(phrase: Phrase, overwrite: bool) {
    phrase.value != "" && (phrase.audio == "" || overwrite)
  }

  /** The store calls after a file is in place: point `target` at it, tag
      the note, remove the tag to remove, then drop the old audio file.
      Any failing store call ends the process. */
  function StoreAudio(e: Env, svc: Services, removeTag: string, noteId: int, target: string, oldValue: string, newValue: string)
    : (r: (Env, Outcome))
    ensures !r.1.Failed?
    ensures r.0.output == e.output && r.0.files == e.files && r.0.nextId == e.nextId && r.0.notes.Keys == e.notes.Keys
    ensures r.0.notes == UpdateStep(e, svc, noteId, target, newValue).0.notes
    ensures forall n :: n != noteId ==> TagsOf(r.0, n) == TagsOf(e, n)
    ensures r.1.Done? ==>
              && Stored(r.0, noteId, target) == Some(newValue)
              && TagsOf(r.0, noteId) == TagsOf(e, noteId) + {AudioGeneratedTag} - (if removeTag != "" then {removeTag} else {})
              && r.0.media == RemoveOldAudio(e, svc, oldValue, newValue).media
    ensures r.1.Fatal? ==> r.0.media == e.media
  {
    var (e1, updateErr) := UpdateStep(e, svc, noteId, target, newValue);
    if updateErr.Some? then (e1, Fatal(updateErr.value))
    else
      var (e3, tagErr) := TagNote(e1, svc, noteId, removeTag);
      if tagErr.Some? then (e3, Fatal(tagErr.value))
      else
        RemoveOldAudioReadsMedia(e, e3, svc, oldValue, newValue);
        (RemoveOldAudio(e3, svc, oldValue, newValue), Done)
  }

  /** The store calls write the target field of this note and nothing else
      in the store. */
  lemma StoreAudioStore(e: Env, svc: Services, removeTag: string, noteId: int, target: string, oldValue: string, newValue: string)
    ensures var r := StoreAudio(e, svc, removeTag, noteId, target, oldValue, newValue).0;
            && (forall id :: id in e.notes && id != noteId ==> r.notes[id] == e.notes[id])
            && (forall k :: k != target ==> Stored(r, noteId, k) == Stored(e, noteId, k))
  {
    var r := StoreAudio(e, svc, removeTag, noteId, target, oldValue, newValue).0;
    UpdateStepWrites(e, r, svc, noteId, target, newValue);
  }

  /** Any state with the store that updating one field leaves differs from
      `e` in that field at most. */
  lemma UpdateStepWrites(e: Env, r: Env, svc: Services, noteId: int, target: string, newValue: string)
    requires r.notes == UpdateStep(e, svc, noteId, target, newValue).0.notes
    ensures forall id :: id in e.notes && id != noteId ==> r.notes[id] == e.notes[id]
    ensures forall k :: k != target ==> Stored(r, noteId, k) == Stored(e, noteId, k)
  {
    if r.notes != e.notes {
      assert noteId in e.notes && r.notes == e.notes[noteId := e.notes[noteId][target := newValue]];
    }
  }

  /** Add `audio-generated`, then remove `removeTag` unless it is empty;
      only this note's tags change. */
  function TagNote(e: Env, svc: Services, noteId: int, removeTag: string): (r: (Env, Option<string>))
    ensures r.0 == e.(tags := r.0.tags)
    ensures forall n :: n != noteId ==> TagsOf(r.0, n) == TagsOf(e, n)
    ensures r.1.None? ==>
              TagsOf(r.0, noteId) == TagsOf(e, noteId) + {AudioGeneratedTag} - (if removeTag != "" then {removeTag} else {})
  {
    var (e1, tagErr) := AddTagStep(e, svc, noteId, AudioGeneratedTag);
    if tagErr.Some? then (e1, tagErr)
    else if removeTag != "" then RemoveTagStep(e1, svc, noteId, removeTag)
    else (e1, None)
  }

  /** One iteration of the loop in `updateOneNote`. A failed synthesis or
      move is returned as an error; a failed store call ends the process. */
  function UpdateField(e: Env, svc: Services, flags: Flags, noteId: int, field: string, target: string, phrase: Phrase)
    : (r: (Env, Outcome))
    ensures !LegacyNeedsAudio(phrase, flags.overwrite) ==> r == (e, Done)
    ensures r.1.Failed? ==>
              || Fault(svc, Op.Synthesize(phrase.value)).Some?
              || Fault(svc, Op.Rename(OutputPath(phrase.value), FileName(noteId, field))).Some?
    ensures flags.dryRun ==> r.0.notes == e.notes && r.0.tags == e.tags && !r.1.Fatal?
    ensures flags.dryRun && r.1.Done? && LegacyNeedsAudio(phrase, flags.overwrite) ==>
              MediaFile(r.0, FileName(noteId, field)) == Some(phrase.value)
    ensures r.0.files == e.files && r.0.nextId == e.nextId && r.0.notes.Keys == e.notes.Keys
    ensures r.1.Done? && LegacyNeedsAudio(phrase, flags.overwrite) && !flags.dryRun ==>
              && Stored(r.0, noteId, target) == Some(SoundRef(FileName(noteId, field)))
              && (flags.removeTag != AudioGeneratedTag ==> AudioGeneratedTag in TagsOf(r.0, noteId))
              && (flags.removeTag != "" ==> flags.removeTag !in TagsOf(r.0, noteId))
  {
    if !LegacyNeedsAudio(phrase, flags.overwrite) then (e, Done)
    else
      var filename := FileName(noteId, field);
      var (e1, placeErr) := PlaceAudio(e, svc, phrase.value, filename);
      if placeErr.Some? then (e1, Failed(placeErr.value))
      else if flags.dryRun then (e1, Done)
      else StoreAudio(e1, svc, flags.removeTag, noteId, target, phrase.audio, SoundRef(filename))
  }

  /** One iteration writes at most the target field of this note: every
      other note, and every other field of this one, the source field
      included, keep their text. */
  lemma UpdateFieldStore(e: Env, svc: Services, flags: Flags, noteId: int, field: string, target: string, phrase: Phrase)
    ensures var r := UpdateField(e, svc, flags, noteId, field, target, phrase).0;
            && (forall id :: id in e.notes && id != noteId ==> r.notes[id] == e.notes[id])
            && (forall k :: k != target ==> Stored(r, noteId, k) == Stored(e, noteId, k))
  {
    if LegacyNeedsAudio(phrase, flags.overwrite) {
      var filename := FileName(noteId, field);
      var (e1, placeErr) := PlaceAudio(e, svc, phrase.value, filename);
      if placeErr.None? && !flags.dryRun {
        StoreAudioStore(e1, svc, flags.removeTag, noteId, target, phrase.audio, SoundRef(filename));
      }
    }
  }

  function UpdateFieldAt(e: Env, svc: Services, flags: Flags, note: Note, field: string): (Env, Outcome) {
    UpdateField(e, svc, flags, note.noteId, field, Lookup(Fields, field, ""), PhraseAt(note, field))
  }

  /** The loop over the fields in visit order `order`; it ends at the first
      outcome other than `Done`. */
  function UpdateFields(e: Env, svc: Services, flags: Flags, note: Note, order: seq<string>): (Env, Outcome)
    decreases |order|
  {
    if order == [] then (e, Done)
    else
      var (e1, outcome) := UpdateFields(e, svc, flags, note, order[..|order| - 1]);
      if !outcome.Done? then (e1, outcome)
      else UpdateFieldAt(e1, svc, flags, note, order[|order| - 1])
  }

  /** `updateOneNote` with visit order `order`; a failed `GetNote` ends the
      process. */
  function UpdateNote(e: Env, svc: Services, noteId: int, flags: Flags, order: seq<string>): (Env, Outcome) {
    match GetNoteStep(e, svc, noteId, Fields)
    case Err(m) => (e, Fatal(m))
    case Ok(note) => UpdateFields(e, svc, flags, note, order)
  }

  /** `log.Fatal(err)` on an error returned to `main`. */
  function Escalate(r: (Env, Outcome)): (Env, Outcome) {
    (r.0, if r.1.Failed? then Fatal(r.1.msg) else r.1)
  }

  /** The notes of a query, in the order returned; the first error ends the
      process. */
  function UpdateAll(e: Env, svc: Services, flags: Flags, ids: seq<int>, visits: seq<seq<string>>): (Env, Outcome)
    decreases |ids|
  {
    if ids == [] then (e, Done)
    else
      var (e1, outcome) := UpdateAll(e, svc, flags, ids[..|ids| - 1], visits);
      if !outcome.Done? then (e1, outcome)
      else Escalate(UpdateNote(e1, svc, ids[|ids| - 1], flags, OrderAt(visits, |ids| - 1)))
  }

  /** `main` after the media directory check: a note id wins over a query;
      with neither nothing happens. */
  function Dispatch(e: Env, svc: Services, flags: Flags, visits: seq<seq<string>>): (Env, Outcome) {
    if flags.noteId != 0 then Escalate(UpdateNote(e, svc, flags.noteId, flags, OrderAt(visits, 0)))
    else if flags.query != "" then
      match QueryStep(svc, flags.query)
      case Err(m) => (e, Fatal(m))
      case Ok(ids) => UpdateAll(e, svc, flags, ids, visits)
    else (e, Done)
  }

  // ---------------------------------------------------------------------

  /** Each audio field is named after its source field. */
  lemma FieldsNaming()
    ensures forall f :: f in Fields ==> (f == "base_d" && Fields[f] == "base_a") || (|f| == 2 && Fields[f] == f + "a")
  {
    forall f | f in Fields
      ensures (f == "base_d" && Fields[f] == "base_a") || (|f| == 2 && Fields[f] == f + "a")
    {
      assert f in {"base_d", "s1", "s2", "s3", "s4", "s5", "s6", "s7", "s8", "s9"};
    }
  }

  /** Different source fields have different audio fields, and no source
      field is an audio field. */
  lemma FieldsShape()
    ensures Injective(Fields)
    ensures forall f :: f in Fields ==> f !in Fields.Values
  {
    FieldsNaming();
    forall f, g | f in Fields && g in Fields && f != g
      ensures Fields[f] != Fields[g]
    {
      if f != "base_d" && g != "base_d" {
        assert (f + "a")[..2] == f && (g + "a")[..2] == g;
      }
    }
  }

  /** The query flag plays no part in handling one note. */
  lemma {:induction false} UpdateFieldsIgnoreQuery(e: Env, svc: Services, flags: Flags, note: Note, order: seq<string>, query: string)
    ensures UpdateFields(e, svc, flags, note, order) == UpdateFields(e, svc, flags.(query := query), note, order)
    decreases |order|
  {
    if order != [] {
      UpdateFieldsIgnoreQuery(e, svc, flags, note, order[..|order| - 1], query);
    }
  }

  /** With a note id the query is never looked at. */
  lemma NoteIdWins(e: Env, svc: Services, flags: Flags, visits: seq<seq<string>>, query: string)
    requires flags.noteId != 0
    ensures Dispatch(e, svc, flags, visits) == Dispatch(e, svc, flags.(query := query), visits)
  {
    match GetNoteStep(e, svc, flags.noteId, Fields)
    case Err(_) =>
    case Ok(note) => UpdateFieldsIgnoreQuery(e, svc, flags, note, OrderAt(visits, 0), query);
  }

  /** With neither a note id nor a query nothing changes. */
  lemma NothingToDo(e: Env, svc: Services, flags: Flags, visits: seq<seq<string>>)
    requires flags.noteId == 0 && flags.query == ""
    ensures Dispatch(e, svc, flags, visits) == (e, Done)
  {
  }

  /** A dry run makes no store call: notes and tags stay as they were. */
  lemma {:induction false} UpdateFieldsDryRun(e: Env, svc: Services, flags: Flags, note: Note, order: seq<string>)
    requires flags.dryRun
    ensures UpdateFields(e, svc, flags, note, order).0.notes == e.notes
    ensures UpdateFields(e, svc, flags, note, order).0.tags == e.tags
    decreases |order|
  {
    if order != [] {
      UpdateFieldsDryRun(e, svc, flags, note, order[..|order| - 1]);
    }
  }

  lemma UpdateNoteDryRun(e: Env, svc: Services, noteId: int, flags: Flags, order: seq<string>)
    requires flags.dryRun
    ensures UpdateNote(e, svc, noteId, flags, order).0.notes == e.notes
    ensures UpdateNote(e, svc, noteId, flags, order).0.tags == e.tags
  {
    if GetNoteStep(e, svc, noteId, Fields).Ok? {
      UpdateFieldsDryRun(e, svc, flags, GetNoteStep(e, svc, noteId, Fields).value, order);
    }
  }

  /** The audio tag is added before the tag to remove is removed: asking to
      remove the audio tag itself leaves the note without it. */
  lemma RemovingAudioTag(e: Env, svc: Services, flags: Flags, noteId: int, field: string, target: string, phrase: Phrase)
    requires flags.removeTag == AudioGeneratedTag && !flags.dryRun && LegacyNeedsAudio(phrase, flags.overwrite)
    requires UpdateField(e, svc, flags, noteId, field, target, phrase).1.Done?
    ensures AudioGeneratedTag !in TagsOf(UpdateField(e, svc, flags, noteId, field, target, phrase).0, noteId)
  {
  }

  /** "&nbsp;" alone is spoken by this loop, while `NoteAudio` skips it. */
  lemma NbspSpokenOnlyHere(e: Env, svc: Services, flags: Flags, noteId: int, field: string, target: string)
    requires svc.faults == map[] && flags.dryRun
    ensures var r := UpdateField(e, svc, flags, noteId, field, target, Phrase(Nbsp, ""));
      r.1.Done? && MediaFile(r.0, FileName(noteId, field)) == Some(Nbsp)
    ensures SyncField(e, svc, Options(flags.dryRun, flags.overwrite, true), noteId, field, target, Phrase(Nbsp, "")) == (e, None)
  {
    assert Nbsp[..|Nbsp|] == Nbsp;
    assert RemoveAll(Nbsp, Nbsp) == "";
  }

  /** With working tag calls, the store calls of this loop have the effect
      of recording with old audio removal, apart from the tags. */
  lemma StoreAudioAgrees(e: Env, svc: Services, removeTag: string, noteId: int, target: string, oldValue: string, newValue: string)
    requires Fault(svc, AddTags(noteId, AudioGeneratedTag)).None?
    requires removeTag != "" ==> Fault(svc, RemoveTags(noteId, removeTag)).None?
    ensures var l := StoreAudio(e, svc, removeTag, noteId, target, oldValue, newValue);
      var s := RecordAudio(e, svc, true, noteId, target, oldValue, newValue);
      && l.0.(tags := e.tags) == s.0
      && (l.1.Done? <==> s.1.None?)
  {
    var (e1, updateErr) := UpdateStep(e, svc, noteId, target, newValue);
    if updateErr.None? {
      var e2 := AddTagStep(e1, svc, noteId, AudioGeneratedTag).0;
      var e3 := if removeTag != "" then RemoveTagStep(e2, svc, noteId, removeTag).0 else e2;
      assert e3 == e1.(tags := e3.tags);
      RemoveOldAudioIgnoresTags(e1, svc, e3.tags, oldValue, newValue);
    }
  }

  /** On text that sanitising leaves as it is, and with working tag calls,
      one iteration has the same effect as one iteration of `NoteAudio`
      with old audio removal, apart from the tags. */
  lemma UpdateFieldAgrees(e: Env, svc: Services, flags: Flags, noteId: int, field: string, target: string, phrase: Phrase)
    requires Sanitize(phrase.value) == phrase.value
    requires Fault(svc, AddTags(noteId, AudioGeneratedTag)).None?
    requires flags.removeTag != "" ==> Fault(svc, RemoveTags(noteId, flags.removeTag)).None?
    ensures var l := UpdateField(e, svc, flags, noteId, field, target, phrase);
      var s := SyncField(e, svc, Options(flags.dryRun, flags.overwrite, true), noteId, field, target, phrase);
      && l.0.(tags := e.tags) == s.0
      && (l.1.Done? <==> s.1.None?)
  {
    var opts := Options(flags.dryRun, flags.overwrite, true);
    assert LegacyNeedsAudio(phrase, flags.overwrite) == NeedsAudio(phrase, opts);
    if NeedsAudio(phrase, opts) {
      var filename := FileName(noteId, field);
      var (e1, placeErr) := PlaceAudio(e, svc, phrase.value, filename);
      if placeErr.None? && !flags.dryRun {
        StoreAudioAgrees(e1, svc, flags.removeTag, noteId, target, phrase.audio, SoundRef(filename));
        assert e1.tags == e.tags;
      }
    }
  }

  lemma {:induction false} UpdateFieldsSticky(e: Env, svc: Services, flags: Flags, note: Note, order: seq<string>, k: nat)
    requires k <= |order|
    requires !UpdateFields(e, svc, flags, note, order[..k]).1.Done?
    ensures UpdateFields(e, svc, flags, note, order) == UpdateFields(e, svc, flags, note, order[..k])
    decreases |order| - k
  {
    if k == |order| {
      assert order[..k] == order;
    } else {
      var init := order[..|order| - 1];
      assert init[..k] == order[..k];
      UpdateFieldsSticky(e, svc, flags, note, init, k);
    }
  }

  lemma {:induction false} UpdateAllSticky(e: Env, svc: Services, flags: Flags, ids: seq<int>, visits: seq<seq<string>>, k: nat)
    requires k <= |ids|
    requires !UpdateAll(e, svc, flags, ids[..k], visits).1.Done?
    ensures UpdateAll(e, svc, flags, ids, visits) == UpdateAll(e, svc, flags, ids[..k], visits)
    decreases |ids| - k
  {
    if k == |ids| {
      assert ids[..k] == ids;
    } else {
      var init := ids[..|ids| - 1];
      assert init[..k] == ids[..k];
      UpdateAllSticky(e, svc, flags, init, visits, k);
    }
  }

  /** The visit orders of notes beyond the processed ones do not matter. */
  lemma {:induction false} UpdateAllVisits(e: Env, svc: Services, flags: Flags, ids: seq<int>, visits: seq<seq<string>>, more: seq<seq<string>>)
    requires |ids| <= |visits|
    ensures UpdateAll(e, svc, flags, ids, visits + more) == UpdateAll(e, svc, flags, ids, visits)
    decreases |ids|
  {
    if ids != [] {
      UpdateAllVisits(e, svc, flags, ids[..|ids| - 1], visits, more);
      assert OrderAt(visits + more, |ids| - 1) == OrderAt(visits, |ids| - 1);
    }
  }

  // ---------------------------------------------------------------------

  /** One iteration of the loop in `updateOneNote`, on the world. */
  method UpdateOneField(w: World, flags: Flags, noteId: int, field: string, target: string, phrase: Phrase)
    returns (outcome: Outcome)
    modifies w
    ensures (w.Snapshot(), outcome) == UpdateField(old(w.Snapshot()), w.svc, flags, noteId, field, target, phrase)
  {
    outcome := Done;
    if phrase.value == "" {
      return;
    }
    if phrase.audio != "" && !flags.overwrite {
      return;
    }
    var outputPath := OutputPath(phrase.value);
    var err := w.Synthesize(phrase.value, outputPath);
    if err.Some? {
      return Failed(err.value);
    }
    var filename := FileName(noteId, field);
    err := w.Rename(outputPath, filename);
    if err.Some? {
      return Failed(err.value);
    }
    var newAudioFieldValue := SoundRef(filename);
    if flags.dryRun {
      return;
    }
    err := w.UpdateNoteField(noteId, target, newAudioFieldValue);
    if err.Some? {
      return Fatal(err.value);
    }
    err := w.AddNoteTag(noteId, AudioGeneratedTag);
    if err.Some? {
      return Fatal(err.value);
    }
    if flags.removeTag != "" {
      err := w.RemoveNoteTag(noteId, flags.removeTag);
      if err.Some? {
        return Fatal(err.value);
      }
    }
    var removeErr := RemoveOldAudioFile(w, phrase.audio, newAudioFieldValue);
  }

  /** `updateOneNote`: `order` is the order in which `range` visited the
      phrases. */
  method UpdateOneNote(w: World, noteId: int, flags: Flags) returns (outcome: Outcome, order: seq<string>)
    modifies w
    ensures GetNoteStep(old(w.Snapshot()), w.svc, noteId, Fields).Ok? ==> Enumerates(order, Fields.Keys)
    ensures (w.Snapshot(), outcome) == UpdateNote(old(w.Snapshot()), w.svc, noteId, flags, order)
  {
    ghost var e0 := w.Snapshot();
    var note, err := w.GetNote(noteId, Fields);
    if err.Some? {
      return Fatal(err.value), [];
    }
    GetNoteFields(AnkiConnect.SendRequest(NotesInfoReply(e0.notes, noteId)), noteId, Fields);
    order := RangeKeys(note.phrases);
    outcome := UpdateFieldsOf(w, flags, note, order);
  }

  /** The loop of `updateOneNote` over the fetched note's fields, in visit
      order `order`. */
  method UpdateFieldsOf(w: World, flags: Flags, note: Note, order: seq<string>) returns (outcome: Outcome)
    modifies w
    ensures (w.Snapshot(), outcome) == UpdateFields(old(w.Snapshot()), w.svc, flags, note, order)
  {
    ghost var e0 := w.Snapshot();
    for i := 0 to |order|
      invariant (w.Snapshot(), Done) == UpdateFields(e0, w.svc, flags, note, order[..i])
    {
      UpdateFieldsAppend(e0, w.svc, flags, note, order, i);
      var field := order[i];
      outcome := UpdateOneField(w, flags, note.noteId, field, Lookup(Fields, field, ""), PhraseAt(note, field));
      if !outcome.Done? {
        UpdateFieldsSticky(e0, w.svc, flags, note, order, i + 1);
        return;
      }
    }
    assert order[..|order|] == order;
    outcome := Done;
  }

  /** One more iteration of a loop that has not stopped. */
  lemma UpdateFieldsAppend(e: Env, svc: Services, flags: Flags, note: Note, order: seq<string>, i: nat)
    requires i < |order| && UpdateFields(e, svc, flags, note, order[..i]).1.Done?
    ensures UpdateFields(e, svc, flags, note, order[..i + 1])
            == UpdateFieldAt(UpdateFields(e, svc, flags, note, order[..i]).0, svc, flags, note, order[i])
  {
    assert order[..i + 1][..i] == order[..i];
  }

  /** `main`: `visits` holds the visit order of each note processed. */
  method Run(w: World, flags: Flags) returns (outcome: Outcome, visits: seq<seq<string>>)
    modifies w
    ensures (w.Snapshot(), outcome) == Dispatch(old(w.Snapshot()), w.svc, flags, visits)
  {
    ghost var e0 := w.Snapshot();
    if flags.noteId != 0 {
      var order;
      outcome, order := UpdateOneNote(w, flags.noteId, flags);
      if outcome.Failed? {
        outcome := Fatal(outcome.msg);
      }
      return outcome, [order];
    }
    if flags.query == "" {
      return Done, [];
    }
    var ids, err := w.QueryNotes(flags.query);
    if err.Some? {
      return Fatal(err.value), [];
    }
    visits := [];
    for i := 0 to |ids|
      invariant |visits| == i
      invariant (w.Snapshot(), Done) == UpdateAll(e0, w.svc, flags, ids[..i], visits)
    {
      assert ids[..i + 1][..i] == ids[..i];
      var order;
      outcome, order := UpdateOneNote(w, ids[i], flags);
      UpdateAllVisits(e0, w.svc, flags, ids[..i], visits, [order]);
      visits := visits + [order];
      assert OrderAt(visits, i) == order;
      if !outcome.Done? {
        if outcome.Failed? {
          outcome := Fatal(outcome.msg);
        }
        UpdateAllSticky(e0, w.svc, flags, ids, visits, i + 1);
        return;
      }
    }
    assert ids[..|ids|] == ids;
    outcome := Done;
  }
}
