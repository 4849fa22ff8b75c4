/** Per-note audio synchronisation (`noteaudio.AddAudioToNote`): for every
    source field of a note that has text and, unless overwriting, no audio
    yet, synthesise the sanitised text, move the file into the media
    directory as `<noteId>-<field>.mp3`, point the audio field at it and
    optionally delete the file the audio field pointed at before.

    `SyncField` is one iteration of the loop, `SyncFields` the loop over a
    visit order, `Sync` the whole call; `AddAudioToNote` performs it on a
    `World`. */
module NoteAudio {
  import opened Wrappers
  import opened Strings
  import opened Maps
  import opened AnkiConnect
  import opened Environment

  datatype Options = Options(dryRun: bool, overwrite: bool, removeOldAudio: bool)

  const Nbsp := "&nbsp;"

  /** `sanitizePhraseText`: drop every "&nbsp;", then surrounding whitespace. */
  function Sanitize(text: string): (r: string)
    ensures Trimmed(r)
    ensures |r| <= |text|
  {
    TrimSpace(RemoveAll(text, Nbsp))
  }

  /** Text without markup or surrounding whitespace is spoken as it is. */
  lemma SanitizeClean(text: string)
    requires '&' !in text && Trimmed(text)
    ensures Sanitize(text) == text
  {
    RemoveAllAbsent(text, Nbsp);
    TrimSpaceKeepsTrimmed(text);
  }

  /** Deleting "&nbsp;" can bring a new "&nbsp;" together, so sanitising
      twice can differ from sanitising once: "&nb&nbsp;sp;" is an example. */
  lemma SanitizeNotIdempotent(s: string)
    requires s == "&nb" + Nbsp + "sp;"
    ensures Sanitize(s) == Nbsp
    ensures Sanitize(Sanitize(s)) == ""
  {
    RemoveAllJoins(s);
    assert Trimmed(Nbsp);
    TrimSpaceKeepsTrimmed(Nbsp);
    assert Nbsp[..6] == Nbsp;
    assert RemoveAll(Nbsp, Nbsp) == "";
  }

  /** The single deletion in "&nb&nbsp;sp;" joins its two halves. */
  lemma RemoveAllJoins(s: string)
    requires s == "&nb" + Nbsp + "sp;"
    ensures RemoveAll(s, Nbsp) == Nbsp
  {
    var t := s[3..];
    assert t[..6] == Nbsp && t[6..] == "sp;";
    assert RemoveAll(t, Nbsp) == "sp;";
    assert s[2..][..6][0] == 'b' && s[2..][1..] == t;
    assert RemoveAll(s[2..], Nbsp) == "b" + "sp;";
    assert s[1..][..6][0] == 'n' && s[1..][1..] == s[2..];
    assert RemoveAll(s[1..], Nbsp) == "n" + "bsp;";
    assert s[..6][3] == '&';
    assert RemoveAll(s, Nbsp) == "&" + "nbsp;";
  }

  const SoundPrefix := "[sound:"

  /** The audio field value that plays a media file. */
  function SoundRef(name: string): (r: string)
    ensures r != [] && r[0] == '[' && r[|r| - 1] == ']'
  {
    SoundPrefix + name + "]"
  }

  /** The match of `^\[sound:([^\]]+)\]$`: the file name, if `s` is exactly
      one non-empty sound reference. */
  function ParseSoundRef(s: string): (r: Option<string>)
    ensures r.Some? ==> s == SoundRef(r.value) && r.value != [] && ']' !in r.value
  {
    if |s| > |SoundPrefix| + 1 && s[..|SoundPrefix|] == SoundPrefix && s[|s| - 1] == ']'
       && ']' !in s[|SoundPrefix|..|s| - 1]
    then Some(s[|SoundPrefix|..|s| - 1])
    else None
  }

  /** Every reference the program writes is recognised again. */
  lemma ParseSoundRefRoundTrip(name: string)
    requires name != [] && ']' !in name
    ensures ParseSoundRef(SoundRef(name)) == Some(name)
  {
    var s := SoundRef(name);
    assert s[..|SoundPrefix|] == SoundPrefix;
    assert s[|SoundPrefix|..|s| - 1] == name;
  }

  /** Where the synthesiser writes, `./output/<text>.mp3`. */
  function OutputPath(text: string): string {
    "./output/" + text + ".mp3"
  }

  /** The media file name of a field's audio, `<noteId>-<field>.mp3`. */
  function FileName(noteId: int, field: string): string {
    FormatInt(noteId) + "-" + field + ".mp3"
  }

  /** Different fields of one note never share an audio file. */
  lemma FileNameInjective(noteId: int, f: string, g: string)
    requires FileName(noteId, f) == FileName(noteId, g)
    ensures f == g
  {
    var p := FormatInt(noteId) + "-";
    assert FileName(noteId, f) == p + f + ".mp3";
    assert FileName(noteId, f)[|p|..|p| + |f|] == f;
    assert FileName(noteId, g)[|p|..|p| + |g|] == g;
  }

  lemma FileNameHasNoBracket(noteId: int, field: string)
    requires ']' !in field
    ensures FileName(noteId, field) != [] && ']' !in FileName(noteId, field)
  {
    var d := FormatInt(noteId);
    assert ']' !in d by {
      forall i | 0 <= i < |d| ensures d[i] != ']' { }
    }
    var s := FileName(noteId, field);
    forall i | 0 <= i < |s| ensures s[i] != ']' {
      if i < |d| {
        assert s[i] == d[i];
      } else if i == |d| {
        assert s[i] == '-';
      } else if i < |d| + 1 + |field| {
        assert s[i] == field[i - |d| - 1];
      } else {
        assert s[i] == ".mp3"[i - |d| - 1 - |field|];
      }
    }
  }

  /** The text of a stored field, if the field exists. */
  function Stored(e: Env, noteId: int, field: string): Option<string> {
    if noteId in e.notes && field in e.notes[noteId] then Some(e.notes[noteId][field]) else None
  }

  function MediaFile(e: Env, name: string): Option<string> {
    if name in e.media then Some(e.media[name]) else None
  }

  /** `r` differs from `e` in the store only in fields `targets` of note
      `noteId`; tags, other files and the id counter are untouched. */
  ghost predicate StoreFrame(e: Env, r: Env, noteId: int, targets: set<string>) {
    && r.notes.Keys == e.notes.Keys
    && r.tags == e.tags && r.files == e.files && r.nextId == e.nextId
    && (forall id :: id in e.notes && id != noteId ==> r.notes[id] == e.notes[id])
    && (forall k :: k !in targets ==> Stored(r, noteId, k) == Stored(e, noteId, k))
  }

  /** Every field of note `noteId` either kept its text or holds non-empty
      text now. */
  ghost predicate Grown(e: Env, r: Env, noteId: int) {
    forall k :: Stored(r, noteId, k) == Stored(e, noteId, k) || (Stored(r, noteId, k).Some? && Stored(r, noteId, k).value != "")
  }

  /** `removeOldAudioFile`: delete the file the old audio value refers to,
      unless the value is empty, equals the new value or is not a single
      sound reference; a failed deletion is ignored. */
  function RemoveOldAudio(e: Env, svc: Services, oldValue: string, newValue: string): (r: Env)
    ensures r == e.(media := r.media)
    ensures oldValue == "" || oldValue == newValue || ParseSoundRef(TrimSpace(oldValue)).None? ==> r == e
  {
    if oldValue == "" || oldValue == newValue then e
    else match ParseSoundRef(TrimSpace(oldValue))
      case None => e
      case Some(oldFilename) => RemoveStep(e, svc, oldFilename).0
  }

  /** Only the referenced file can disappear, and it does unless its
      removal fails. */
  lemma RemoveOldAudioDeletes(e: Env, svc: Services, oldValue: string, newValue: string)
    ensures var r := RemoveOldAudio(e, svc, oldValue, newValue);
      && (forall n :: MediaFile(r, n) != MediaFile(e, n) ==>
            && oldValue != "" && oldValue != newValue
            && ParseSoundRef(TrimSpace(oldValue)) == Some(n)
            && MediaFile(r, n) == None)
      && (forall n :: (&& oldValue != "" && oldValue != newValue && ParseSoundRef(TrimSpace(oldValue)) == Some(n)
                       && Fault(svc, Op.Remove(n)).None?)
            ==> MediaFile(r, n) == None)
  {
    if oldValue != "" && oldValue != newValue && ParseSoundRef(TrimSpace(oldValue)).Some? {
      var name := ParseSoundRef(TrimSpace(oldValue)).value;
      assert RemoveOldAudio(e, svc, oldValue, newValue) == RemoveStep(e, svc, name).0;
    }
  }

  /** Whether a phrase gets audio: it has text after sanitising, and no
      audio yet unless overwriting. */
  predicate NeedsAudio(phrase: Phrase, opts: Options) {
    Sanitize(phrase.value) != "" && (phrase.audio == "" || opts.overwrite)
  }

  /** Whether handling `field` may delete media file `n`: the old audio
      value is replaced and refers to `n`. */
  predicate MayRemove(opts: Options, noteId: int, field: string, phrase: Phrase, n: string) {
    && NeedsAudio(phrase, opts) && opts.removeOldAudio && !opts.dryRun
    && phrase.audio != "" && phrase.audio != SoundRef(FileName(noteId, field))
    && ParseSoundRef(TrimSpace(phrase.audio)) == Some(n)
  }

  /** Synthesise `text` and move the file into the media directory as
      `name`. */
  function PlaceAudio(e: Env, svc: Services, text: string, name: string): (r: (Env, Option<string>))
    ensures r.1.Some? ==>
              Fault(svc, Op.Synthesize(text)).Some? || Fault(svc, Op.Rename(OutputPath(text), name)).Some?
    ensures r.0.notes == e.notes && r.0.tags == e.tags && r.0.files == e.files && r.0.nextId == e.nextId
    ensures r.1.None? ==> MediaFile(r.0, name) == Some(text) && r.0.output == e.output - {OutputPath(text)}
  {
    var outputPath := OutputPath(text);
    var (e1, synthErr) := SynthesizeStep(e, svc, text, outputPath);
    if synthErr.Some? then (e1, synthErr)
    else RenameStep(e1, svc, outputPath, name)
  }

  /** No media file other than `name` is touched. */
  lemma PlaceAudioMedia(e: Env, svc: Services, text: string, name: string)
    ensures forall n :: n != name ==> MediaFile(PlaceAudio(e, svc, text, name).0, n) == MediaFile(e, n)
  {
  }

  /** Point the audio field `target` at the new file, then, if asked, drop
      the file the old value referred to. */
  function RecordAudio(e: Env, svc: Services, removeOld: bool, noteId: int, target: string, oldValue: string, newValue: string)
    : (r: (Env, Option<string>))
    ensures r.1.Some? ==> noteId !in e.notes || Fault(svc, UpdateNoteFields(noteId, target, newValue)).Some?
    ensures r.0.output == e.output && r.0.tags == e.tags && r.0.files == e.files && r.0.nextId == e.nextId
    ensures r.1.None? ==> Stored(r.0, noteId, target) == Some(newValue)
  {
    var (e1, updateErr) := UpdateStep(e, svc, noteId, target, newValue);
    if updateErr.Some? then (e1, updateErr)
    else if removeOld then (RemoveOldAudio(e1, svc, oldValue, newValue), None)
    else (e1, None)
  }

  /** Recording writes only `target`, with the new value; `e` is any
      state whose store `e1` shares. */
  lemma RecordAudioStore(e: Env, e1: Env, svc: Services, removeOld: bool, noteId: int, target: string, oldValue: string, newValue: string)
    requires e1.notes == e.notes && e1.tags == e.tags && e1.files == e.files && e1.nextId == e.nextId
    ensures var r := RecordAudio(e1, svc, removeOld, noteId, target, oldValue, newValue).0;
      && StoreFrame(e, r, noteId, {target})
      && (forall k :: Stored(r, noteId, k) == Stored(e, noteId, k) || Stored(r, noteId, k) == Some(newValue))
  {
    var r := RecordAudio(e1, svc, removeOld, noteId, target, oldValue, newValue).0;
    var e2 := UpdateStep(e1, svc, noteId, target, newValue).0;
    assert r.notes == e2.notes && r.tags == e.tags && r.files == e.files && r.nextId == e.nextId;
    if e2.notes == e.notes {
      SameStoreFrame(e, r, noteId, {target});
    } else {
      assert noteId in e.notes && e2.notes == e.notes[noteId := e.notes[noteId][target := newValue]];
      WrittenFrame(e, r, noteId, target, newValue);
    }
  }

  /** Writing `value` into one field of a note stays within that field. */
  lemma WrittenFrame(e: Env, r: Env, noteId: int, target: string, value: string)
    requires noteId in e.notes && r.notes == e.notes[noteId := e.notes[noteId][target := value]]
    requires r.tags == e.tags && r.files == e.files && r.nextId == e.nextId
    ensures StoreFrame(e, r, noteId, {target})
    ensures forall k :: Stored(r, noteId, k) == Stored(e, noteId, k) || Stored(r, noteId, k) == Some(value)
  {
  }

  /** A state with the same store as `e` is within any frame of it. */
  lemma SameStoreFrame(e: Env, r: Env, noteId: int, targets: set<string>)
    requires r.notes == e.notes && r.tags == e.tags && r.files == e.files && r.nextId == e.nextId
    ensures StoreFrame(e, r, noteId, targets) && Grown(e, r, noteId)
  {
  }

  /** Recording deletes at most the file the old value refers to, and that
      one unless its removal fails. */
  lemma RecordAudioMedia(e: Env, svc: Services, removeOld: bool, noteId: int, target: string, oldValue: string, newValue: string)
    ensures var r := RecordAudio(e, svc, removeOld, noteId, target, oldValue, newValue);
      && (forall n :: MediaFile(r.0, n) != MediaFile(e, n) ==>
            && removeOld && r.1.None? && oldValue != "" && oldValue != newValue
            && ParseSoundRef(TrimSpace(oldValue)) == Some(n))
      && (forall n :: (&& r.1.None? && removeOld && oldValue != "" && oldValue != newValue
                       && ParseSoundRef(TrimSpace(oldValue)) == Some(n) && Fault(svc, Op.Remove(n)).None?)
            ==> MediaFile(r.0, n) == None)
  {
    var (e1, updateErr) := UpdateStep(e, svc, noteId, target, newValue);
    assert e1.media == e.media;
    RemoveOldAudioDeletes(e1, svc, oldValue, newValue);
  }

  /** One iteration of the loop over the note's phrases. It fails only
      when synthesis, the move into the media directory or the update of
      the note fails. */
  function SyncField(e: Env, svc: Services, opts: Options, noteId: int, field: string, target: string, phrase: Phrase)
    : (r: (Env, Option<string>))
    ensures !NeedsAudio(phrase, opts) ==> r == (e, None)
    ensures r.1.Some? ==>
              var text := Sanitize(phrase.value);
              && NeedsAudio(phrase, opts)
              && (|| Fault(svc, Op.Synthesize(text)).Some?
                  || Fault(svc, Op.Rename(OutputPath(text), FileName(noteId, field))).Some?
                  || (&& !opts.dryRun
                      && (|| noteId !in e.notes
                          || Fault(svc, UpdateNoteFields(noteId, target, SoundRef(FileName(noteId, field)))).Some?)))
  {
    if !NeedsAudio(phrase, opts) then (e, None)
    else
      var filename := FileName(noteId, field);
      var (e1, placeErr) := PlaceAudio(e, svc, Sanitize(phrase.value), filename);
      if placeErr.Some? || opts.dryRun then (e1, placeErr)
      else RecordAudio(e1, svc, opts.removeOldAudio, noteId, target, phrase.audio, SoundRef(filename))
  }

  lemma SyncFieldFrame(e: Env, svc: Services, opts: Options, noteId: int, field: string, target: string, phrase: Phrase)
    ensures var r := SyncField(e, svc, opts, noteId, field, target, phrase);
      && StoreFrame(e, r.0, noteId, {target})
      && (opts.dryRun ==> r.0.notes == e.notes)
  {
    var r := SyncField(e, svc, opts, noteId, field, target, phrase).0;
    if !NeedsAudio(phrase, opts) {
      SameStoreFrame(e, r, noteId, {target});
    } else {
      var filename := FileName(noteId, field);
      var e1 := PlaceAudio(e, svc, Sanitize(phrase.value), filename).0;
      if r == e1 {
        SameStoreFrame(e, e1, noteId, {target});
      } else {
        RecordAudioStore(e, e1, svc, opts.removeOldAudio, noteId, target, phrase.audio, SoundRef(filename));
      }
    }
  }

  lemma SyncFieldWrites(e: Env, svc: Services, opts: Options, noteId: int, field: string, target: string, phrase: Phrase)
    ensures var r := SyncField(e, svc, opts, noteId, field, target, phrase);
      && Grown(e, r.0, noteId)
      && (r.1.None? && NeedsAudio(phrase, opts) && !opts.dryRun ==>
            Stored(r.0, noteId, target) == Some(SoundRef(FileName(noteId, field))))
  {
    var r := SyncField(e, svc, opts, noteId, field, target, phrase).0;
    if !NeedsAudio(phrase, opts) {
      SameStoreFrame(e, r, noteId, {target});
    } else {
      var filename := FileName(noteId, field);
      var e1 := PlaceAudio(e, svc, Sanitize(phrase.value), filename).0;
      if r == e1 {
        SameStoreFrame(e, e1, noteId, {target});
      } else {
        RecordAudioStore(e, e1, svc, opts.removeOldAudio, noteId, target, phrase.audio, SoundRef(filename));
      }
    }
  }

  /** In the store, one iteration writes at most the audio field `target`
      of the note, with the reference to the field's new file, and only
      outside a dry run. */
  lemma SyncFieldStore(e: Env, svc: Services, opts: Options, noteId: int, field: string, target: string, phrase: Phrase)
    ensures var r := SyncField(e, svc, opts, noteId, field, target, phrase);
      && StoreFrame(e, r.0, noteId, {target})
      && Grown(e, r.0, noteId)
      && (opts.dryRun ==> r.0.notes == e.notes)
      && (r.1.None? && NeedsAudio(phrase, opts) && !opts.dryRun ==>
            Stored(r.0, noteId, target) == Some(SoundRef(FileName(noteId, field))))
  {
    SyncFieldFrame(e, svc, opts, noteId, field, target, phrase);
    SyncFieldWrites(e, svc, opts, noteId, field, target, phrase);
  }

  /** In the file system, one iteration moves the synthesised file out of
      `./output` into the media directory as the field's file and deletes
      at most the file the old audio value refers to. */
  lemma SyncFieldMedia(e: Env, svc: Services, opts: Options, noteId: int, field: string, target: string, phrase: Phrase)
    ensures var r := SyncField(e, svc, opts, noteId, field, target, phrase);
      && (r.1.None? && NeedsAudio(phrase, opts) ==> r.0.output == e.output - {OutputPath(Sanitize(phrase.value))})
      && (forall n :: n != FileName(noteId, field) && !MayRemove(opts, noteId, field, phrase, n) ==>
            MediaFile(r.0, n) == MediaFile(e, n))
      && (r.1.None? && NeedsAudio(phrase, opts) && !MayRemove(opts, noteId, field, phrase, FileName(noteId, field)) ==>
            MediaFile(r.0, FileName(noteId, field)) == Some(Sanitize(phrase.value)))
      && (forall n :: r.1.None? && MayRemove(opts, noteId, field, phrase, n) && Fault(svc, Op.Remove(n)).None? ==>
            MediaFile(r.0, n) == None)
  {
    if NeedsAudio(phrase, opts) {
      var filename := FileName(noteId, field);
      PlaceAudioMedia(e, svc, Sanitize(phrase.value), filename);
      var (e1, placeErr) := PlaceAudio(e, svc, Sanitize(phrase.value), filename);
      RecordAudioMedia(e1, svc, opts.removeOldAudio, noteId, target, phrase.audio, SoundRef(filename));
    }
  }

  /** The phrase of `field`; a field the note lacks reads as empty. */
  function PhraseAt(note: Note, field: string): Phrase {
    Lookup(note.phrases, field, Phrase("", ""))
  }

  function SyncFieldAt(e: Env, svc: Services, opts: Options, note: Note, fieldMap: map<string, string>, field: string)
    : (Env, Option<string>)
  {
    SyncField(e, svc, opts, note.noteId, field, Lookup(fieldMap, field, ""), PhraseAt(note, field))
  }

  /** The loop over the fields in visit order `order`: the first error ends it. */
  function SyncFields(e: Env, svc: Services, opts: Options, note: Note, fieldMap: map<string, string>, order: seq<string>)
    : (Env, Option<string>)
    decreases |order|
  {
    if order == [] then (e, None)
    else
      var (e1, err) := SyncFields(e, svc, opts, note, fieldMap, order[..|order| - 1]);
      if err.Some? then (e1, err)
      else SyncFieldAt(e1, svc, opts, note, fieldMap, order[|order| - 1])
  }

  /** `AddAudioToNote`, for the visit order `order` of `range note.Phrases`. */
  function Sync(e: Env, svc: Services, noteId: int, fieldMap: map<string, string>, opts: Options, order: seq<string>)
    : (Env, Option<string>)
  {
    match GetNoteStep(e, svc, noteId, fieldMap)
    case Err(m) => (e, Some(m))
    case Ok(note) => SyncFields(e, svc, opts, note, fieldMap, order)
  }

  /** The visit order of the `k`-th note a command processes; a note that
      was never visited has none. */
  function OrderAt(visits: seq<seq<string>>, k: nat): seq<string> {
    if k < |visits| then visits[k] else []
  }

  /** The audio fields the loop may write, in visit order. */
  function TargetsOf(fieldMap: map<string, string>, order: seq<string>): (t: set<string>)
    ensures (forall i :: 0 <= i < |order| ==> order[i] in fieldMap) ==> t <= fieldMap.Values
    decreases |order|
  {
    if order == [] then {}
    else TargetsOf(fieldMap, order[..|order| - 1]) + {Lookup(fieldMap, order[|order| - 1], "")}
  }

  /** Every target is a value of the field map, or the empty name that
      `Lookup` gives a field the map does not name. */
  lemma {:induction false} TargetsWithin(fieldMap: map<string, string>, order: seq<string>)
    ensures forall k :: k in TargetsOf(fieldMap, order) ==> k in fieldMap.Values || k == ""
    decreases |order|
  {
    if order != [] {
      TargetsWithin(fieldMap, order[..|order| - 1]);
    }
  }

  /** `fieldMap` sends different source fields to different audio fields. */
  predicate Injective(fieldMap: map<string, string>) {
    forall f, g :: f in fieldMap && g in fieldMap && f != g ==> fieldMap[f] != fieldMap[g]
  }

  // ---------------------------------------------------------------------
  // The loop: early exit, frame, effects.

  /** Once a prefix of the loop has failed, the rest is never run. */
  lemma {:induction false} SyncFieldsSticky(e: Env, svc: Services, opts: Options, note: Note, fieldMap: map<string, string>, order: seq<string>, k: nat)
    requires k <= |order|
    requires SyncFields(e, svc, opts, note, fieldMap, order[..k]).1.Some?
    ensures SyncFields(e, svc, opts, note, fieldMap, order) == SyncFields(e, svc, opts, note, fieldMap, order[..k])
    decreases |order| - k
  {
    if k == |order| {
      assert order[..k] == order;
    } else {
      var init := order[..|order| - 1];
      assert init[..k] == order[..k];
      SyncFieldsSticky(e, svc, opts, note, fieldMap, init, k);
    }
  }

  /** The position of the field a failing loop failed in. */
  function FailedAt(e: Env, svc: Services, opts: Options, note: Note, fieldMap: map<string, string>, order: seq<string>): nat
    decreases |order|
  {
    if order == [] then 0
    else if SyncFields(e, svc, opts, note, fieldMap, order[..|order| - 1]).1.Some? then
      FailedAt(e, svc, opts, note, fieldMap, order[..|order| - 1])
    else |order| - 1
  }

  /** One more iteration of a loop that has not failed. */
  lemma SyncFieldsAppend(e: Env, svc: Services, opts: Options, note: Note, fieldMap: map<string, string>, order: seq<string>, i: nat)
    requires i < |order| && SyncFields(e, svc, opts, note, fieldMap, order[..i]).1.None?
    ensures SyncFields(e, svc, opts, note, fieldMap, order[..i + 1])
            == SyncFieldAt(SyncFields(e, svc, opts, note, fieldMap, order[..i]).0, svc, opts, note, fieldMap, order[i])
  {
    assert order[..i + 1][..i] == order[..i];
  }

  /** A failing loop failed in one field, after every earlier field
      succeeded, and ends in the state that field left behind. */
  lemma {:induction false} SyncFieldsStopsAtError(e: Env, svc: Services, opts: Options, note: Note, fieldMap: map<string, string>, order: seq<string>)
    requires SyncFields(e, svc, opts, note, fieldMap, order).1.Some?
    ensures var k := FailedAt(e, svc, opts, note, fieldMap, order);
      && k < |order|
      && SyncFields(e, svc, opts, note, fieldMap, order[..k]).1.None?
      && SyncFieldAt(SyncFields(e, svc, opts, note, fieldMap, order[..k]).0, svc, opts, note, fieldMap, order[k])
         == SyncFields(e, svc, opts, note, fieldMap, order)
    decreases |order|
  {
    var init := order[..|order| - 1];
    if SyncFields(e, svc, opts, note, fieldMap, init).1.Some? {
      SyncFieldsStopsAtError(e, svc, opts, note, fieldMap, init);
      StopsAtEarlierError(e, svc, opts, note, fieldMap, order);
    } else {
      assert order[..|order| - 1] == init;
    }
  }

  /** The step of `SyncFieldsStopsAtError` where an earlier field failed. */
  lemma StopsAtEarlierError(e: Env, svc: Services, opts: Options, note: Note, fieldMap: map<string, string>, order: seq<string>)
    requires order != []
    requires SyncFields(e, svc, opts, note, fieldMap, order[..|order| - 1]).1.Some?
    requires var init := order[..|order| - 1];
      var k := FailedAt(e, svc, opts, note, fieldMap, init);
      && k < |init|
      && SyncFields(e, svc, opts, note, fieldMap, init[..k]).1.None?
      && SyncFieldAt(SyncFields(e, svc, opts, note, fieldMap, init[..k]).0, svc, opts, note, fieldMap, init[k])
         == SyncFields(e, svc, opts, note, fieldMap, init)
    ensures var k := FailedAt(e, svc, opts, note, fieldMap, order);
      && k < |order|
      && SyncFields(e, svc, opts, note, fieldMap, order[..k]).1.None?
      && SyncFieldAt(SyncFields(e, svc, opts, note, fieldMap, order[..k]).0, svc, opts, note, fieldMap, order[k])
         == SyncFields(e, svc, opts, note, fieldMap, order)
  {
    var init := order[..|order| - 1];
    var j := FailedAt(e, svc, opts, note, fieldMap, init);
    EarlierError(e, svc, opts, note, fieldMap, order);
    assert init[..j] == order[..j];
    assert init[j] == order[j];
  }

  /** A loop whose prefix failed is that prefix. */
  lemma EarlierError(e: Env, svc: Services, opts: Options, note: Note, fieldMap: map<string, string>, order: seq<string>)
    requires order != []
    requires SyncFields(e, svc, opts, note, fieldMap, order[..|order| - 1]).1.Some?
    ensures FailedAt(e, svc, opts, note, fieldMap, order) == FailedAt(e, svc, opts, note, fieldMap, order[..|order| - 1])
    ensures SyncFields(e, svc, opts, note, fieldMap, order) == SyncFields(e, svc, opts, note, fieldMap, order[..|order| - 1])
  {
  }

  /** The loop writes only the audio fields of the visited fields, of this
      note, and touches no tag and no other file. */
  lemma {:induction false} SyncFieldsFrame(e: Env, svc: Services, opts: Options, note: Note, fieldMap: map<string, string>, order: seq<string>)
    ensures StoreFrame(e, SyncFields(e, svc, opts, note, fieldMap, order).0, note.noteId, TargetsOf(fieldMap, order))
    ensures Grown(e, SyncFields(e, svc, opts, note, fieldMap, order).0, note.noteId)
    ensures opts.dryRun ==> SyncFields(e, svc, opts, note, fieldMap, order).0.notes == e.notes
    decreases |order|
  {
    if order == [] {
      SameStoreFrame(e, e, note.noteId, {});
    } else {
      var init := order[..|order| - 1];
      var last := order[|order| - 1];
      var target := Lookup(fieldMap, last, "");
      SyncFieldsFrame(e, svc, opts, note, fieldMap, init);
      var (e1, err) := SyncFields(e, svc, opts, note, fieldMap, init);
      var r := SyncFields(e, svc, opts, note, fieldMap, order).0;
      if err.Some? {
        assert r == e1;
        SameStoreFrame(e1, r, note.noteId, {target});
      } else {
        assert r == SyncFieldAt(e1, svc, opts, note, fieldMap, last).0;
        SyncFieldStore(e1, svc, opts, note.noteId, last, target, PhraseAt(note, last));
      }
      FrameStep(e, e1, r, note.noteId, TargetsOf(fieldMap, init), target);
      assert TargetsOf(fieldMap, order) == TargetsOf(fieldMap, init) + {target};
    }
  }

  /** Frames compose: a further write to `target` extends the targets. */
  lemma FrameStep(e: Env, e1: Env, r: Env, noteId: int, targets: set<string>, target: string)
    requires StoreFrame(e, e1, noteId, targets) && Grown(e, e1, noteId)
    requires StoreFrame(e1, r, noteId, {target}) && Grown(e1, r, noteId)
    ensures StoreFrame(e, r, noteId, targets + {target}) && Grown(e, r, noteId)
  {
  }

  /** With no field to handle, the loop changes nothing. */
  lemma {:induction false} SyncFieldsSkip(e: Env, svc: Services, opts: Options, note: Note, fieldMap: map<string, string>, order: seq<string>)
    requires forall i :: 0 <= i < |order| ==> !NeedsAudio(PhraseAt(note, order[i]), opts)
    ensures SyncFields(e, svc, opts, note, fieldMap, order) == (e, None)
    decreases |order|
  {
    if order != [] {
      SyncFieldsSkip(e, svc, opts, note, fieldMap, order[..|order| - 1]);
    }
  }

  /** A loop that succeeded succeeded up to its last field, and then in
      that field. */
  lemma SyncFieldsLast(e: Env, svc: Services, opts: Options, note: Note, fieldMap: map<string, string>, order: seq<string>)
    requires order != [] && SyncFields(e, svc, opts, note, fieldMap, order).1.None?
    ensures SyncFields(e, svc, opts, note, fieldMap, order[..|order| - 1]).1.None?
    ensures SyncFields(e, svc, opts, note, fieldMap, order)
            == SyncFieldAt(SyncFields(e, svc, opts, note, fieldMap, order[..|order| - 1]).0, svc, opts, note, fieldMap, order[|order| - 1])
  {
  }

  /** After a successful loop every handled field's audio field is
      non-empty. */
  lemma {:induction false} SyncFieldsFillsTargets(e: Env, svc: Services, opts: Options, note: Note, fieldMap: map<string, string>, order: seq<string>)
    requires !opts.dryRun
    requires SyncFields(e, svc, opts, note, fieldMap, order).1.None?
    ensures var r := SyncFields(e, svc, opts, note, fieldMap, order).0;
      forall f :: f in order && NeedsAudio(PhraseAt(note, f), opts) ==>
        Stored(r, note.noteId, Lookup(fieldMap, f, "")).Some? && Stored(r, note.noteId, Lookup(fieldMap, f, "")).value != ""
    decreases |order|
  {
    if order != [] {
      var init := order[..|order| - 1];
      SyncFieldsLast(e, svc, opts, note, fieldMap, order);
      SyncFieldsFillsTargets(e, svc, opts, note, fieldMap, init);
      FillsStepAt(SyncFields(e, svc, opts, note, fieldMap, init).0, svc, opts, note, fieldMap, order);
    }
  }

  lemma FillsStepAt(e1: Env, svc: Services, opts: Options, note: Note, fieldMap: map<string, string>, order: seq<string>)
    requires !opts.dryRun && order != []
    requires SyncFieldAt(e1, svc, opts, note, fieldMap, order[|order| - 1]).1.None?
    requires forall f :: f in order[..|order| - 1] && NeedsAudio(PhraseAt(note, f), opts) ==>
               Stored(e1, note.noteId, Lookup(fieldMap, f, "")).Some? && Stored(e1, note.noteId, Lookup(fieldMap, f, "")).value != ""
    ensures var r := SyncFieldAt(e1, svc, opts, note, fieldMap, order[|order| - 1]).0;
      forall f :: f in order && NeedsAudio(PhraseAt(note, f), opts) ==>
        Stored(r, note.noteId, Lookup(fieldMap, f, "")).Some? && Stored(r, note.noteId, Lookup(fieldMap, f, "")).value != ""
  {
    var last := order[|order| - 1];
    SyncFieldWrites(e1, svc, opts, note.noteId, last, Lookup(fieldMap, last, ""), PhraseAt(note, last));
    FillsStep(e1, SyncFieldAt(e1, svc, opts, note, fieldMap, last).0, opts, note, fieldMap, order);
  }

  lemma GrownAt(e: Env, r: Env, noteId: int, k: string)
    requires Grown(e, r, noteId)
    requires Stored(e, noteId, k).Some? && Stored(e, noteId, k).value != ""
    ensures Stored(r, noteId, k).Some? && Stored(r, noteId, k).value != ""
  {
  }

  lemma FillsStep(e1: Env, r: Env, opts: Options, note: Note, fieldMap: map<string, string>, order: seq<string>)
    requires order != []
    requires forall f :: f in order[..|order| - 1] && NeedsAudio(PhraseAt(note, f), opts) ==>
               Stored(e1, note.noteId, Lookup(fieldMap, f, "")).Some? && Stored(e1, note.noteId, Lookup(fieldMap, f, "")).value != ""
    requires Grown(e1, r, note.noteId)
    requires NeedsAudio(PhraseAt(note, order[|order| - 1]), opts) ==>
               Stored(r, note.noteId, Lookup(fieldMap, order[|order| - 1], "")) == Some(SoundRef(FileName(note.noteId, order[|order| - 1])))
    ensures forall f :: f in order && NeedsAudio(PhraseAt(note, f), opts) ==>
              Stored(r, note.noteId, Lookup(fieldMap, f, "")).Some? && Stored(r, note.noteId, Lookup(fieldMap, f, "")).value != ""
  {
    var init, last := order[..|order| - 1], order[|order| - 1];
    assert order == init + [last];
    forall f | f in order && NeedsAudio(PhraseAt(note, f), opts)
      ensures Stored(r, note.noteId, Lookup(fieldMap, f, "")).Some? && Stored(r, note.noteId, Lookup(fieldMap, f, "")).value != ""
    {
      if f != last {
        assert f in init;
        GrownAt(e1, r, note.noteId, Lookup(fieldMap, f, ""));
      }
    }
  }

  /** After a successful loop, with an injective field mapping, each handled
      field's audio field refers to that field's own file. */
  lemma {:induction false} SyncFieldsReferences(e: Env, svc: Services, opts: Options, note: Note, fieldMap: map<string, string>, order: seq<string>)
    requires !opts.dryRun && Injective(fieldMap)
    requires forall i :: 0 <= i < |order| ==> order[i] in fieldMap
    requires SyncFields(e, svc, opts, note, fieldMap, order).1.None?
    ensures var r := SyncFields(e, svc, opts, note, fieldMap, order).0;
      forall f :: f in order && NeedsAudio(PhraseAt(note, f), opts) ==>
        Stored(r, note.noteId, fieldMap[f]) == Some(SoundRef(FileName(note.noteId, f)))
    decreases |order|
  {
    if order != [] {
      SyncFieldsLast(e, svc, opts, note, fieldMap, order);
      SyncFieldsReferences(e, svc, opts, note, fieldMap, order[..|order| - 1]);
      ReferencesLast(e, svc, opts, note, fieldMap, order);
    }
  }

  lemma ReferencesLast(e: Env, svc: Services, opts: Options, note: Note, fieldMap: map<string, string>, order: seq<string>)
    requires !opts.dryRun && Injective(fieldMap) && order != []
    requires forall i :: 0 <= i < |order| ==> order[i] in fieldMap
    requires SyncFields(e, svc, opts, note, fieldMap, order).1.None?
    requires var r := SyncFields(e, svc, opts, note, fieldMap, order[..|order| - 1]).0;
      forall f :: f in order[..|order| - 1] && NeedsAudio(PhraseAt(note, f), opts) ==>
        Stored(r, note.noteId, fieldMap[f]) == Some(SoundRef(FileName(note.noteId, f)))
    ensures var r := SyncFields(e, svc, opts, note, fieldMap, order).0;
      forall f :: f in order && NeedsAudio(PhraseAt(note, f), opts) ==>
        Stored(r, note.noteId, fieldMap[f]) == Some(SoundRef(FileName(note.noteId, f)))
  {
    SyncFieldsLast(e, svc, opts, note, fieldMap, order);
    ReferencesStepAt(SyncFields(e, svc, opts, note, fieldMap, order[..|order| - 1]).0, svc, opts, note, fieldMap, order);
  }

  lemma ReferencesStepAt(e1: Env, svc: Services, opts: Options, note: Note, fieldMap: map<string, string>, order: seq<string>)
    requires !opts.dryRun && Injective(fieldMap) && order != []
    requires forall i :: 0 <= i < |order| ==> order[i] in fieldMap
    requires SyncFieldAt(e1, svc, opts, note, fieldMap, order[|order| - 1]).1.None?
    requires forall f :: f in order[..|order| - 1] && NeedsAudio(PhraseAt(note, f), opts) ==>
               Stored(e1, note.noteId, fieldMap[f]) == Some(SoundRef(FileName(note.noteId, f)))
    ensures var r := SyncFieldAt(e1, svc, opts, note, fieldMap, order[|order| - 1]).0;
      forall f :: f in order && NeedsAudio(PhraseAt(note, f), opts) ==>
        Stored(r, note.noteId, fieldMap[f]) == Some(SoundRef(FileName(note.noteId, f)))
  {
    var last := order[|order| - 1];
    SyncFieldStore(e1, svc, opts, note.noteId, last, fieldMap[last], PhraseAt(note, last));
    ReferencesStep(e1, SyncFieldAt(e1, svc, opts, note, fieldMap, last).0, opts, note, fieldMap, order);
  }

  lemma ReferencesStep(e1: Env, r: Env, opts: Options, note: Note, fieldMap: map<string, string>, order: seq<string>)
    requires Injective(fieldMap) && order != [] && forall i :: 0 <= i < |order| ==> order[i] in fieldMap
    requires forall f :: f in order[..|order| - 1] && NeedsAudio(PhraseAt(note, f), opts) ==>
               Stored(e1, note.noteId, fieldMap[f]) == Some(SoundRef(FileName(note.noteId, f)))
    requires forall k :: k != fieldMap[order[|order| - 1]] ==> Stored(r, note.noteId, k) == Stored(e1, note.noteId, k)
    requires NeedsAudio(PhraseAt(note, order[|order| - 1]), opts) ==>
               Stored(r, note.noteId, fieldMap[order[|order| - 1]]) == Some(SoundRef(FileName(note.noteId, order[|order| - 1])))
    ensures forall f :: f in order && NeedsAudio(PhraseAt(note, f), opts) ==>
              Stored(r, note.noteId, fieldMap[f]) == Some(SoundRef(FileName(note.noteId, f)))
  {
    var init, last := order[..|order| - 1], order[|order| - 1];
    assert order == init + [last];
    forall f | f in order && NeedsAudio(PhraseAt(note, f), opts)
      ensures Stored(r, note.noteId, fieldMap[f]) == Some(SoundRef(FileName(note.noteId, f)))
    {
      if f != last {
        assert f in init && fieldMap[f] != fieldMap[last];
        assert Stored(r, note.noteId, fieldMap[f]) == Stored(e1, note.noteId, fieldMap[f]);
      }
    }
  }

  /** After a successful loop each handled field's file is in the media
      directory and speaks its text, provided no old audio value refers to
      one of the note's new file names. */
  lemma {:induction false} SyncFieldsPlaces(e: Env, svc: Services, opts: Options, note: Note, fieldMap: map<string, string>, order: seq<string>)
    requires forall f, g :: f in order && g in order ==> !MayRemove(opts, note.noteId, g, PhraseAt(note, g), FileName(note.noteId, f))
    requires SyncFields(e, svc, opts, note, fieldMap, order).1.None?
    ensures var r := SyncFields(e, svc, opts, note, fieldMap, order).0;
      forall f :: f in order && NeedsAudio(PhraseAt(note, f), opts) ==>
        MediaFile(r, FileName(note.noteId, f)) == Some(Sanitize(PhraseAt(note, f).value))
    decreases |order|
  {
    if order != [] {
      var init := order[..|order| - 1];
      var last := order[|order| - 1];
      assert order == init + [last];
      SyncFieldsLast(e, svc, opts, note, fieldMap, order);
      SyncFieldsPlaces(e, svc, opts, note, fieldMap, init);
      var e1 := SyncFields(e, svc, opts, note, fieldMap, init).0;
      SyncFieldMedia(e1, svc, opts, note.noteId, last, Lookup(fieldMap, last, ""), PhraseAt(note, last));
      PlacesStep(e1, SyncFields(e, svc, opts, note, fieldMap, order).0, opts, note, init, last);
    }
  }

  lemma PlacesStep(e1: Env, r: Env, opts: Options, note: Note, init: seq<string>, last: string)
    requires forall f :: f in init && NeedsAudio(PhraseAt(note, f), opts) ==>
               MediaFile(e1, FileName(note.noteId, f)) == Some(Sanitize(PhraseAt(note, f).value))
    requires forall f :: f in init ==> !MayRemove(opts, note.noteId, last, PhraseAt(note, last), FileName(note.noteId, f))
    requires forall n :: n != FileName(note.noteId, last) && !MayRemove(opts, note.noteId, last, PhraseAt(note, last), n) ==>
               MediaFile(r, n) == MediaFile(e1, n)
    requires NeedsAudio(PhraseAt(note, last), opts) ==>
               MediaFile(r, FileName(note.noteId, last)) == Some(Sanitize(PhraseAt(note, last).value))
    ensures forall f :: f in init + [last] && NeedsAudio(PhraseAt(note, f), opts) ==>
              MediaFile(r, FileName(note.noteId, f)) == Some(Sanitize(PhraseAt(note, f).value))
  {
    forall f | f in init + [last] && NeedsAudio(PhraseAt(note, f), opts)
      ensures MediaFile(r, FileName(note.noteId, f)) == Some(Sanitize(PhraseAt(note, f).value))
    {
      if f != last {
        assert f in init;
        if FileName(note.noteId, f) == FileName(note.noteId, last) {
          FileNameInjective(note.noteId, f, last);
        }
      }
    }
  }

  /** Without failing services, the loop over an existing note succeeds. */
  lemma {:induction false} SyncFieldsSucceeds(e: Env, svc: Services, opts: Options, note: Note, fieldMap: map<string, string>, order: seq<string>)
    requires svc.faults == map[] && note.noteId in e.notes
    ensures SyncFields(e, svc, opts, note, fieldMap, order).1.None?
    ensures note.noteId in SyncFields(e, svc, opts, note, fieldMap, order).0.notes
    decreases |order|
  {
    if order != [] {
      var init := order[..|order| - 1];
      var last := order[|order| - 1];
      SyncFieldsSucceeds(e, svc, opts, note, fieldMap, init);
      SyncFieldStore(SyncFields(e, svc, opts, note, fieldMap, init).0, svc, opts, note.noteId, last,
                     Lookup(fieldMap, last, ""), PhraseAt(note, last));
    }
  }

  // ---------------------------------------------------------------------
  // The whole call.

  lemma SyncReadsStore(e: Env, svc: Services, noteId: int, fieldMap: map<string, string>)
    requires GetNoteStep(e, svc, noteId, fieldMap).Ok?
    ensures noteId in e.notes && Fault(svc, NotesInfo(noteId)).None?
    ensures GetNoteStep(e, svc, noteId, fieldMap) == Ok(Note(noteId, StoredPhrases(e.notes[noteId], fieldMap)))
  {
    StoreGetNote(e, svc, noteId, fieldMap);
  }

  /** A dry run leaves every note and tag as it was. */
  lemma SyncDryRun(e: Env, svc: Services, noteId: int, fieldMap: map<string, string>, opts: Options, order: seq<string>)
    requires opts.dryRun
    ensures Sync(e, svc, noteId, fieldMap, opts, order).0.notes == e.notes
    ensures Sync(e, svc, noteId, fieldMap, opts, order).0.tags == e.tags
  {
    if GetNoteStep(e, svc, noteId, fieldMap).Ok? {
      SyncFieldsFrame(e, svc, opts, GetNoteStep(e, svc, noteId, fieldMap).value, fieldMap, order);
    }
  }

  /** Only the mapped audio fields of the note itself are written. */
  lemma SyncStoreFrame(e: Env, svc: Services, noteId: int, fieldMap: map<string, string>, opts: Options, order: seq<string>)
    requires Enumerates(order, fieldMap.Keys)
    ensures StoreFrame(e, Sync(e, svc, noteId, fieldMap, opts, order).0, noteId, fieldMap.Values)
  {
    if GetNoteStep(e, svc, noteId, fieldMap).Ok? {
      SyncReadsStore(e, svc, noteId, fieldMap);
      SyncFieldsFrame(e, svc, opts, GetNoteStep(e, svc, noteId, fieldMap).value, fieldMap, order);
    }
  }

  /** A run over a stored note with no failing service succeeds. */
  lemma SyncSucceeds(e: Env, svc: Services, noteId: int, fieldMap: map<string, string>, opts: Options, order: seq<string>)
    requires svc.faults == map[] && noteId in e.notes
    ensures Sync(e, svc, noteId, fieldMap, opts, order).1.None?
  {
    StoreGetNote(e, svc, noteId, fieldMap);
    SyncFieldsSucceeds(e, svc, opts, GetNoteStep(e, svc, noteId, fieldMap).value, fieldMap, order);
  }

  /** After a successful run that is not a dry run, with an injective field
      mapping, every field that needed audio refers to its own new file. */
  lemma SyncWritesReferences(e: Env, svc: Services, noteId: int, fieldMap: map<string, string>, opts: Options, order: seq<string>)
    requires !opts.dryRun && Injective(fieldMap) && Enumerates(order, fieldMap.Keys)
    requires Sync(e, svc, noteId, fieldMap, opts, order).1.None?
    ensures noteId in e.notes
    ensures forall f :: f in fieldMap && NeedsAudio(StoredPhrases(e.notes[noteId], fieldMap)[f], opts) ==>
              Stored(Sync(e, svc, noteId, fieldMap, opts, order).0, noteId, fieldMap[f]) == Some(SoundRef(FileName(noteId, f)))
  {
    SyncReadsStore(e, svc, noteId, fieldMap);
    SyncFieldsReferences(e, svc, opts, Note(noteId, StoredPhrases(e.notes[noteId], fieldMap)), fieldMap, order);
  }

  /** With overwriting on, a field needs audio exactly when its text
      survives sanitising, whatever audio it had. */
  lemma OverwriteNeedsAudio(fields: map<string, string>, fieldMap: map<string, string>, opts: Options, f: string)
    requires opts.overwrite && f in fieldMap
    ensures NeedsAudio(StoredPhrases(fields, fieldMap)[f], opts) <==> Sanitize(Lookup(fields, f, "")) != ""
  {
    assert StoredPhrases(fields, fieldMap)[f].value == Lookup(fields, f, "");
  }

  /** After a successful run that overwrites, every field whose text
      survives sanitising refers to its own new file, whether or not it had
      audio before. */
  lemma SyncOverwrites(e: Env, svc: Services, noteId: int, fieldMap: map<string, string>, opts: Options, order: seq<string>)
    requires opts.overwrite && !opts.dryRun && Injective(fieldMap) && Enumerates(order, fieldMap.Keys)
    requires Sync(e, svc, noteId, fieldMap, opts, order).1.None?
    ensures noteId in e.notes
    ensures forall f :: f in fieldMap && Sanitize(Lookup(e.notes[noteId], f, "")) != "" ==>
              Stored(Sync(e, svc, noteId, fieldMap, opts, order).0, noteId, fieldMap[f]) == Some(SoundRef(FileName(noteId, f)))
  {
    SyncWritesReferences(e, svc, noteId, fieldMap, opts, order);
    forall f | f in fieldMap && Sanitize(Lookup(e.notes[noteId], f, "")) != ""
      ensures Stored(Sync(e, svc, noteId, fieldMap, opts, order).0, noteId, fieldMap[f]) == Some(SoundRef(FileName(noteId, f)))
    {
      OverwriteNeedsAudio(e.notes[noteId], fieldMap, opts, f);
    }
  }

  /** After a successful run every field that needed audio has its file in
      the media directory, speaking the sanitised text, unless an old audio
      value refers to one of the new file names. */
  lemma SyncPlacesFiles(e: Env, svc: Services, noteId: int, fieldMap: map<string, string>, opts: Options, order: seq<string>)
    requires Enumerates(order, fieldMap.Keys)
    requires Sync(e, svc, noteId, fieldMap, opts, order).1.None?
    requires noteId in e.notes ==>
               forall f, g :: f in fieldMap && g in fieldMap ==>
                 !MayRemove(opts, noteId, g, StoredPhrases(e.notes[noteId], fieldMap)[g], FileName(noteId, f))
    ensures noteId in e.notes
    ensures forall f :: f in fieldMap && NeedsAudio(StoredPhrases(e.notes[noteId], fieldMap)[f], opts) ==>
              MediaFile(Sync(e, svc, noteId, fieldMap, opts, order).0, FileName(noteId, f))
                == Some(Sanitize(Lookup(e.notes[noteId], f, "")))
  {
    SyncReadsStore(e, svc, noteId, fieldMap);
    SyncFieldsPlaces(e, svc, opts, Note(noteId, StoredPhrases(e.notes[noteId], fieldMap)), fieldMap, order);
  }

  /** A second run after a successful one, without overwriting, does
      nothing: every field that needed audio has it now, and the others
      still do not need it. This needs the text fields and the audio fields
      to be different fields. */
  lemma SecondRunIsNoOp(e: Env, svc: Services, noteId: int, fieldMap: map<string, string>, opts: Options, order: seq<string>, order2: seq<string>)
    requires !opts.overwrite && !opts.dryRun
    requires forall f :: f in fieldMap ==> f !in fieldMap.Values
    requires Enumerates(order, fieldMap.Keys)
    requires Sync(e, svc, noteId, fieldMap, opts, order).1.None?
    ensures var e2 := Sync(e, svc, noteId, fieldMap, opts, order).0;
      Sync(e2, svc, noteId, fieldMap, opts, order2) == (e2, None)
  {
    SyncReadsStore(e, svc, noteId, fieldMap);
    var note := Note(noteId, StoredPhrases(e.notes[noteId], fieldMap));
    var e2 := SyncFields(e, svc, opts, note, fieldMap, order).0;
    SyncFieldsFrame(e, svc, opts, note, fieldMap, order);
    SyncFieldsFillsTargets(e, svc, opts, note, fieldMap, order);
    StoreGetNote(e2, svc, noteId, fieldMap);
    var note2 := Note(noteId, StoredPhrases(e2.notes[noteId], fieldMap));
    forall f | f in fieldMap
      ensures Stored(e2, noteId, f) == Stored(e, noteId, f)
    {
      TargetsWithin(fieldMap, order);
    }
    forall i | 0 <= i < |order2|
      ensures !NeedsAudio(PhraseAt(note2, order2[i]), opts)
    {
      NothingLeft(e, e2, noteId, fieldMap, opts, order, order2[i]);
    }
    SyncFieldsSkip(e2, svc, opts, note2, fieldMap, order2);
  }

  /** What the first run left behind needs no audio in a second one. */
  lemma NothingLeft(e: Env, e2: Env, noteId: int, fieldMap: map<string, string>, opts: Options, order: seq<string>, f: string)
    requires !opts.overwrite
    requires noteId in e.notes && noteId in e2.notes
    requires forall g :: g in fieldMap ==> g !in fieldMap.Values
    requires forall g :: g in fieldMap ==> g in order
    requires forall g :: g in fieldMap ==> Stored(e2, noteId, g) == Stored(e, noteId, g)
    requires Grown(e, e2, noteId)
    requires forall g :: g in order && NeedsAudio(PhraseAt(Note(noteId, StoredPhrases(e.notes[noteId], fieldMap)), g), opts) ==>
               Stored(e2, noteId, Lookup(fieldMap, g, "")).Some? && Stored(e2, noteId, Lookup(fieldMap, g, "")).value != ""
    ensures !NeedsAudio(PhraseAt(Note(noteId, StoredPhrases(e2.notes[noteId], fieldMap)), f), opts)
  {
    var note := Note(noteId, StoredPhrases(e.notes[noteId], fieldMap));
    if f in fieldMap {
      var t := fieldMap[f];
      var p1 := PhraseAt(note, f);
      var p2 := PhraseAt(Note(noteId, StoredPhrases(e2.notes[noteId], fieldMap)), f);
      assert p1 == Phrase(Lookup(e.notes[noteId], f, ""), Lookup(e.notes[noteId], t, ""));
      assert p2 == Phrase(Lookup(e2.notes[noteId], f, ""), Lookup(e2.notes[noteId], t, ""));
      assert Stored(e2, noteId, f) == Stored(e, noteId, f);
      assert p2.value == p1.value;
      if NeedsAudio(p1, opts) {
        assert Stored(e2, noteId, t).Some? && Stored(e2, noteId, t).value != "";
      } else if p1.audio != "" {
        assert Stored(e2, noteId, t) == Stored(e, noteId, t) || Stored(e2, noteId, t).value != "";
      }
    } else {
      assert Sanitize("") == "";
    }
  }

  lemma PaddedReferenceMayRemove(opts: Options, noteId: int, field: string, value: string, pad: string)
    requires opts.removeOldAudio && !opts.dryRun && opts.overwrite
    requires Sanitize(value) != "" && pad != [] && AllSpace(pad) && ']' !in field
    ensures MayRemove(opts, noteId, field, Phrase(value, pad + SoundRef(FileName(noteId, field))), FileName(noteId, field))
  {
    var name := FileName(noteId, field);
    var ref := SoundRef(name);
    FileNameHasNoBracket(noteId, field);
    assert pad + ref == pad + ref + "";
    TrimSpacePadded(pad, ref, "");
    ParseSoundRefRoundTrip(name);
    assert |pad + ref| != |ref|;
  }

  /** An audio value that is the field's own new reference padded with
      whitespace is not equal to the new value, but trims to a reference to
      the new file: the file just created is deleted and the note is left
      pointing at a missing file. */
  lemma PaddedReferenceDeletesNewFile(e: Env, svc: Services, opts: Options, noteId: int, field: string, target: string, value: string, pad: string)
    requires opts.removeOldAudio && !opts.dryRun && opts.overwrite
    requires svc.faults == map[] && noteId in e.notes
    requires Sanitize(value) != "" && pad != [] && AllSpace(pad) && ']' !in field
    ensures var r := SyncField(e, svc, opts, noteId, field, target, Phrase(value, pad + SoundRef(FileName(noteId, field))));
      && r.1.None?
      && Stored(r.0, noteId, target) == Some(SoundRef(FileName(noteId, field)))
      && MediaFile(r.0, FileName(noteId, field)) == None
  {
    var phrase := Phrase(value, pad + SoundRef(FileName(noteId, field)));
    PaddedReferenceMayRemove(opts, noteId, field, value, pad);
    SyncFieldStore(e, svc, opts, noteId, field, target, phrase);
    SyncFieldMedia(e, svc, opts, noteId, field, target, phrase);
  }

  // ---------------------------------------------------------------------
  // Synchronising never reads tags.

  /** Removing the old file looks only at the media directory. */
  lemma RemoveOldAudioReadsMedia(e: Env, e': Env, svc: Services, oldValue: string, newValue: string)
    requires e'.media == e.media
    ensures RemoveOldAudio(e', svc, oldValue, newValue).media == RemoveOldAudio(e, svc, oldValue, newValue).media
  {
    if oldValue != "" && oldValue != newValue {
      match ParseSoundRef(TrimSpace(oldValue))
      case None =>
      case Some(name) =>
        assert RemoveOldAudio(e', svc, oldValue, newValue).media == RemoveStep(e', svc, name).0.media;
    }
  }

  lemma RemoveOldAudioIgnoresTags(e: Env, svc: Services, tags: map<int, set<string>>, oldValue: string, newValue: string)
    ensures RemoveOldAudio(e.(tags := tags), svc, oldValue, newValue) == RemoveOldAudio(e, svc, oldValue, newValue).(tags := tags)
  {
    var r := RemoveOldAudio(e, svc, oldValue, newValue);
    var r' := RemoveOldAudio(e.(tags := tags), svc, oldValue, newValue);
    assert r'.media == r.media by {
      if oldValue != "" && oldValue != newValue {
        match ParseSoundRef(TrimSpace(oldValue))
        case None =>
        case Some(name) =>
          assert r'.media == RemoveStep(e.(tags := tags), svc, name).0.media;
      }
    }
  }

  lemma PlaceAudioIgnoresTags(e: Env, svc: Services, tags: map<int, set<string>>, text: string, name: string)
    ensures PlaceAudio(e.(tags := tags), svc, text, name) == (PlaceAudio(e, svc, text, name).0.(tags := tags), PlaceAudio(e, svc, text, name).1)
  {
  }

  lemma UpdateIgnoresTags(e: Env, svc: Services, tags: map<int, set<string>>, noteId: int, target: string, newValue: string)
    ensures var u := UpdateStep(e, svc, noteId, target, newValue);
      UpdateStep(e.(tags := tags), svc, noteId, target, newValue) == (u.0.(tags := tags), u.1)
  {
  }

  lemma RecordAudioIgnoresTags(e: Env, svc: Services, tags: map<int, set<string>>, removeOld: bool, noteId: int, target: string, oldValue: string, newValue: string)
    ensures var r := RecordAudio(e, svc, removeOld, noteId, target, oldValue, newValue);
      RecordAudio(e.(tags := tags), svc, removeOld, noteId, target, oldValue, newValue) == (r.0.(tags := tags), r.1)
  {
    UpdateIgnoresTags(e, svc, tags, noteId, target, newValue);
    var (u, err) := UpdateStep(e, svc, noteId, target, newValue);
    if err.None? && removeOld {
      RemoveOldAudioIgnoresTags(u, svc, tags, oldValue, newValue);
    }
  }

  lemma SyncFieldIgnoresTags(e: Env, svc: Services, tags: map<int, set<string>>, opts: Options, note: Note, fieldMap: map<string, string>, field: string)
    ensures var r := SyncFieldAt(e, svc, opts, note, fieldMap, field);
      SyncFieldAt(e.(tags := tags), svc, opts, note, fieldMap, field) == (r.0.(tags := tags), r.1)
  {
    var phrase := PhraseAt(note, field);
    if NeedsAudio(phrase, opts) {
      var filename := FileName(note.noteId, field);
      PlaceAudioIgnoresTags(e, svc, tags, Sanitize(phrase.value), filename);
      var e1 := PlaceAudio(e, svc, Sanitize(phrase.value), filename).0;
      RecordAudioIgnoresTags(e1, svc, tags, opts.removeOldAudio, note.noteId, Lookup(fieldMap, field, ""), phrase.audio, SoundRef(filename));
    }
  }

  lemma {:induction false} SyncFieldsIgnoreTags(e: Env, svc: Services, tags: map<int, set<string>>, opts: Options, note: Note, fieldMap: map<string, string>, order: seq<string>)
    ensures var r := SyncFields(e, svc, opts, note, fieldMap, order);
      SyncFields(e.(tags := tags), svc, opts, note, fieldMap, order) == (r.0.(tags := tags), r.1)
    decreases |order|
  {
    if order != [] {
      SyncFieldsIgnoreTags(e, svc, tags, opts, note, fieldMap, order[..|order| - 1]);
      var e1 := SyncFields(e, svc, opts, note, fieldMap, order[..|order| - 1]).0;
      SyncFieldIgnoresTags(e1, svc, tags, opts, note, fieldMap, order[|order| - 1]);
    }
  }

  /** Tags play no part in synchronising a note, and it leaves them alone. */
  lemma SyncIgnoresTags(e: Env, svc: Services, tags: map<int, set<string>>, noteId: int, fieldMap: map<string, string>, opts: Options, order: seq<string>)
    ensures var r := Sync(e, svc, noteId, fieldMap, opts, order);
      && Sync(e.(tags := tags), svc, noteId, fieldMap, opts, order) == (r.0.(tags := tags), r.1)
      && r.0.tags == e.tags
  {
    assert GetNoteStep(e.(tags := tags), svc, noteId, fieldMap) == GetNoteStep(e, svc, noteId, fieldMap);
    if GetNoteStep(e, svc, noteId, fieldMap).Ok? {
      var note := GetNoteStep(e, svc, noteId, fieldMap).value;
      SyncFieldsIgnoreTags(e, svc, tags, opts, note, fieldMap, order);
      SyncFieldsFrame(e, svc, opts, note, fieldMap, order);
    }
  }

  // ---------------------------------------------------------------------
  // The imperative implementation.

  /** `removeOldAudioFile` on the world; it always returns nil. */
  method RemoveOldAudioFile(w: World, oldValue: string, newValue: string) returns (err: Option<string>)
    modifies w
    ensures w.Snapshot() == RemoveOldAudio(old(w.Snapshot()), w.svc, oldValue, newValue)
    ensures err == None
  {
    err := None;
    if oldValue == "" || oldValue == newValue {
      return;
    }
    var matches := ParseSoundRef(TrimSpace(oldValue));
    if matches.None? {
      return;
    }
    var removeErr := w.Remove(matches.value);
  }

  /** One iteration of the loop in `AddAudioToNote`. */
  method AddAudioToField(w: World, opts: Options, noteId: int, field: string, target: string, phrase: Phrase)
    returns (err: Option<string>)
    modifies w
    ensures (w.Snapshot(), err) == SyncField(old(w.Snapshot()), w.svc, opts, noteId, field, target, phrase)
  {
    err := None;
    var text := Sanitize(phrase.value);
    if text == "" {
      return;
    }
    if phrase.audio != "" && !opts.overwrite {
      return;
    }
    ghost var e0 := w.Snapshot();
    var outputPath := OutputPath(text);
    err := w.Synthesize(text, outputPath);
    if err.Some? {
      return;
    }
    var filename := FileName(noteId, field);
    err := w.Rename(outputPath, filename);
    ghost var e1 := w.Snapshot();
    assert (e1, err) == PlaceAudio(e0, w.svc, text, filename);
    if err.Some? {
      return;
    }
    var newAudioFieldValue := SoundRef(filename);
    if opts.dryRun {
      return;
    }
    err := w.UpdateNoteField(noteId, target, newAudioFieldValue);
    if err.Some? {
      return;
    }
    if opts.removeOldAudio {
      var removeErr := RemoveOldAudioFile(w, phrase.audio, newAudioFieldValue);
    }
    assert w.Snapshot() == RecordAudio(e1, w.svc, opts.removeOldAudio, noteId, target, phrase.audio, newAudioFieldValue).0;
  }

  /** `AddAudioToNote`: `order` is the order in which `range` visited the
      phrases. */
  method AddAudioToNote(w: World, noteId: int, fieldMap: map<string, string>, opts: Options)
    returns (err: Option<string>, order: seq<string>)
    modifies w
    ensures GetNoteStep(old(w.Snapshot()), w.svc, noteId, fieldMap).Ok? ==> Enumerates(order, fieldMap.Keys)
    ensures (w.Snapshot(), err) == Sync(old(w.Snapshot()), w.svc, noteId, fieldMap, opts, order)
  {
    ghost var e0 := w.Snapshot();
    var note, getErr := w.GetNote(noteId, fieldMap);
    if getErr.Some? {
      return getErr, [];
    }
    GetNoteFields(AnkiConnect.SendRequest(NotesInfoReply(e0.notes, noteId)), noteId, fieldMap);
    order := RangeKeys(note.phrases);
    for i := 0 to |order|
      invariant (w.Snapshot(), None) == SyncFields(e0, w.svc, opts, note, fieldMap, order[..i])
    {
      SyncFieldsAppend(e0, w.svc, opts, note, fieldMap, order, i);
      var field := order[i];
      assert PhraseAt(note, field) == note.phrases[field];
      err := AddAudioToField(w, opts, note.noteId, field, Lookup(fieldMap, field, ""), note.phrases[field]);
      if err.Some? {
        SyncFieldsSticky(e0, w.svc, opts, note, fieldMap, order, i + 1);
        return;
      }
    }
    assert order[..|order|] == order;
    err := None;
  }
}
