# anki-voice in Dafny

A model of the decision logic of `anki-voice`, a small Go tool that asks a
language model for vocabulary fields, adds the resulting notes to Anki through
the AnkiConnect HTTP API, synthesises MP3 files for the example sentences and
points the notes' audio fields at them.

The heart of the model is **per-note audio synchronisation**: for every
(source field → audio field) pair of a note, whether to skip it, which file to
place in the media directory, which `[sound:…]` reference to write, and which
old file to delete. The repository holds three versions of this loop, and all
three are modelled side by side:

- `noteaudio.AddAudioToNote` (module `NoteAudio`): sanitised text, honours
  `Overwrite`, `DryRun` and `RemoveOldAudio`, returns errors.
- `updateOneNote` in `main.go` (module `Legacy`): raw text, tags inside the
  loop, store errors end the process, old audio always removed.
- `addAudioToNote` in `cmd/generate-card/main.go` (module `GenerateCard`):
  never looks at existing audio, tags once after the loop.

Around it: the AnkiConnect response checks and the assembly of a `Note`
(`AnkiConnect`), the Gemini post-processing (fence stripping, `ToMap`, the
category check, template choice: `Gemini`), the `voice` command's
limit-bounded query loop (`Voice`), and the vocabulary file used as a work
queue by `generate-card` (`popFirstLine` and its driver loop).

## How the outside world is represented

- `Environment.Env` is everything outside the program: the working directory
  `./output`, the media directory (file name → the text the file speaks), other
  files (the vocabulary file), the note store (note id → field → text), the
  tags, and the next note id the store hands out.
- `Environment.Services` fixes, for one run, which external calls fail and
  with what error text (`faults`, keyed by the call and its arguments), what a
  search query returns, what the model replies and how JSON decodes. Every
  external call is a pure step function of `(Env, Services)` and a method of
  the class `Environment.World`, which holds that state as fields and updates
  them in place.
- The store answers `notesInfo` for an unknown id with an empty `result`,
  so the client reports "note N not found" (`Environment.NotesInfoReply`).
  AnkiConnect may instead answer `[{}]`, for which the Go code returns a
  note whose fields are all empty; every lemma about a missing note rests on
  the empty answer.
- The store's `updateNoteFields` writes the field it is given, creating it
  if the note lacks it (`Environment.UpdateStep`). AnkiConnect may instead
  skip a field name the note does not have; the lemmas that a field refers
  to its new file afterwards (`NoteAudio.SyncWritesReferences`,
  `NoteAudio.SecondRunIsNoOp`, `GenerateCard.CardAudioReplaced`) rest on the
  writing behaviour for audio fields the note lacks.
- Go's `range` over a map visits keys in an unspecified order. The methods pick
  the order nondeterministically (`Maps.RangeKeys`) and return it; the
  specification functions take the order as a parameter, and the lemmas hold
  for every order.
- `log.Fatal` is the outcome `Fatal`; an error returned to the caller is
  `Failed` (or `Some(msg)` where the Go function returns a bare `error`).
- Each imperative Go routine is a method on `World` whose `ensures` equates the
  new state and result with a specification function of the old state; the
  properties are lemmas about those functions.

## Behaviour of the code that is easy to misread

- Sanitising is not idempotent: removing `&nbsp;` can join a new `&nbsp;`
  ("&nb&nbsp;sp;" → "&nbsp;" → ""). Only "no surrounding whitespace" holds
  (`NoteAudio.SanitizeNotIdempotent`).
- An old audio value that is the new reference padded with whitespace is not
  equal to the new value but trims to it, so the file just placed is deleted
  (`NoteAudio.PaddedReferenceDeletesNewFile`). The model keeps the code's
  behaviour.
- The word queue is a single vocabulary file whose first line is popped; a
  word is handled before its line is removed. There is no rate-limit retry
  and no delay between items in this code.
- `generate-card` adds audio to every field with text whether or not it has
  audio, and ignores the error `addAudioToNote` returns.

## Model

| member | source | states |
|---|---|---|
| `AnkiConnect.Text` | ankiconnect/api.go:43-44 | gjson's `String()` is empty exactly for an absent value, `null` and the empty string; a number, a boolean, an array and an object all read as non-empty |
| `AnkiConnect.SendRequest` | ankiconnect/api.go:143-169 | a request succeeds exactly when the reply has status 200 and no non-empty top-level `error` (an object or array `error` counts as non-empty), and then the body is passed on unchanged; a non-200 status gives "anki connect returned N: body", a non-empty `error` gives "anki connect error: …" |
| `AnkiConnect.ParseIntFormatInt` | ankiconnect/api.go:95-97 | gjson's integer parsing of a string reads back every decimal number as printed |
| `AnkiConnect.AsIntReadsIdText` | ankiconnect/api.go:95-97 | a note id in `result` reads as that id whether it arrives as a number or as a numeric string |
| `AnkiConnect.GetNote` | ankiconnect/api.go:29-65 | the loop filling the phrases yields exactly the note of `GetNoteSpec`; every error returns the empty note |
| `AnkiConnect.CollectPhrases` | ankiconnect/api.go:57-62 | the `range` loop builds exactly one phrase per source field, whatever order it visits them in |
| `AnkiConnect.GetNoteFields` | ankiconnect/api.go:52-62 | a fetched note carries the requested id, one phrase per source field of the mapping, each built from the raw text of the source field and of its mapped audio field |
| `AnkiConnect.GetNoteAfterSend` | ankiconnect/api.go:43-50 | after `sendRequest` succeeded, `GetNote` fails exactly when `result.0` is absent, with "note N not found" |
| `AnkiConnect.QueryNotes` | ankiconnect/api.go:68-100 | fails when `result` is absent; otherwise one id per element of `result`, in array order |
| `AnkiConnect.UpdateNamesOneField` | ankiconnect/api.go:103-115 | the update request names one note id and exactly one field with its new value |
| `Environment.StoreGetNote` | ankiconnect/api.go:47-62 | against the store, a stored note yields its own field texts (missing fields read as ""), an unknown id yields "note N not found" |
| `Environment.StoreQuery` | ankiconnect/api.go:88-99 | a query answered by the store yields the store's ids in the store's order |
| `Environment.World.UpdateNoteField` | ankiconnect/api.go:103-123 | writes one field of one note, or fails and changes nothing |
| `Environment.World.AddNoteTag` | ankiconnect/api.go:125-141 | adds the tag to the note's tags, or fails and changes nothing |
| `Gemini.ToMap` | gemini/response.go:24-40 | exactly the 13 keys `full_d` … `s4e`, each bound to the matching response field |
| `Gemini.ToMapInjective` | gemini/client.go:34-50 | no field is lost: two responses with the same map are the same response |
| `Gemini.StripFences` | gemini/response.go:43-44 | text with neither fence reaches the decoder unchanged |
| `Gemini.StripFencesWrapped` | gemini/response.go:43-44 | a reply fenced as "```json" … "```" loses exactly its two fences |
| `Gemini.StripFencesOnce` | gemini/client.go:222-223 | only one fence is removed at each end |
| `Gemini.ParseResponse` | gemini/response.go:42-52 | a decode failure gives the zero response with the error; otherwise the decoded response of the stripped text |
| `Gemini.ParseUnfenced` | gemini/client.go:221-231 | an unfenced reply is decoded as it is |
| `Gemini.GenerateNoteJSON` | gemini/client.go:185-197 | a failed model call gives the zero response with its error; otherwise `parseResponse` of the reply |
| `Gemini.GenerateVerbJSON` | gemini/client.go:173-175 | asks with the verb template |
| `Gemini.GenerateNounJSON` | gemini/client.go:177-179 | asks with the noun template |
| `Gemini.GenerateOtherJSON` | gemini/client.go:181-183 | asks with the general note template |
| `Gemini.DetectCategory` | gemini/client.go:199-218 | succeeds exactly when the trimmed, lower-cased reply is "noun", "verb" or "other", and then returns that label; any other reply gives an empty category and an error |
| `Gemini.DetectCategoryNormalises` | gemini/client.go:212-215 | any spelling of a label in upper or mixed case, padded with any whitespace, is accepted as the lower-case label |
| `Gemini.DetectCategoryRejects` | gemini/client.go:216-217 | a label with extra punctuation ("noun.") is rejected with an empty category |
| `Gemini.DetectCategoryQuotesReply` | gemini/client.go:216-217 | a rejected reply is named `%q`-quoted after "unexpected category from Gemini: ": one line without control characters, from which the trimmed, lower-cased reply reads back unchanged |
| `Gemini.QuoteLineBreak` | gemini/client.go:217 | a line break inside the reply appears in the message as the escape `\n` |
| `Strings.UnescapeEscapeAll` | gemini/client.go:217 | `%q` quoting loses nothing: unescaping the escaped text gives the original string |
| `Strings.EscapeAllPlain` | gemini/client.go:217 | text with no `"`, no backslash and no control character is quoted unchanged |
| `NoteAudio.Sanitize` | noteaudio/noteaudio.go:72-75 | the sanitised text has no surrounding whitespace and is no longer than the input |
| `NoteAudio.SanitizeClean` | noteaudio/noteaudio.go:72-75 | text without `&` and without surrounding whitespace is kept as it is |
| `NoteAudio.SanitizeNotIdempotent` | noteaudio/noteaudio.go:73 | "&nb&nbsp;sp;" sanitises to "&nbsp;", which sanitises to "": sanitising is not idempotent |
| `NoteAudio.ParseSoundRef` | noteaudio/noteaudio.go:20 | a match of `^\[sound:([^\]]+)\]$` is exactly `[sound:name]` with a non-empty name free of `]` |
| `NoteAudio.ParseSoundRefRoundTrip` | noteaudio/noteaudio.go:51 | every reference the loop writes is recognised again with its file name |
| `NoteAudio.FileNameInjective` | noteaudio/noteaudio.go:46 | different fields of one note never share a media file name |
| `NoteAudio.RemoveOldAudio` | noteaudio/noteaudio.go:77-96 | only the media directory can change, and nothing changes when the old value is empty, equals the new one or does not trim to a sound reference |
| `NoteAudio.RemoveOldAudioDeletes` | noteaudio/noteaudio.go:82-93 | the only file that can disappear is the one the trimmed old value refers to, and it does unless its removal fails |
| `NoteAudio.RemoveOldAudioFile` | noteaudio/noteaudio.go:77-96 | always returns nil, with the effect of `RemoveOldAudio` |
| `NoteAudio.PlaceAudio` | noteaudio/noteaudio.go:41-49 | fails only if synthesis or the rename fails; on success the media file `name` speaks the text and the working file is gone; the store is untouched |
| `NoteAudio.RecordAudio` | noteaudio/noteaudio.go:58-66 | fails only if the update fails; on success the audio field holds the new reference; nothing outside the store and media changes |
| `NoteAudio.SyncField` | noteaudio/noteaudio.go:30-67 | a field that needs no audio (blank sanitised text, or audio present without overwrite) is left with no effect at all; an error comes only from synthesis, rename or (outside a dry run) the update |
| `NoteAudio.SyncFieldStore` | noteaudio/noteaudio.go:52-60 | one field writes at most its mapped audio field, with `[sound:<id>-<field>.mp3]`, never the source field, and nothing in a dry run |
| `NoteAudio.SyncFieldMedia` | noteaudio/noteaudio.go:46-66 | one field places `<id>-<field>.mp3` with the sanitised text and deletes at most the file its old audio value refers to |
| `NoteAudio.SyncFieldsStopsAtError` | noteaudio/noteaudio.go:42-60 | a failing loop failed in one field after all earlier fields succeeded, and keeps what those earlier fields committed |
| `NoteAudio.SyncFieldsSticky` | noteaudio/noteaudio.go:42-60 | once a field failed, the remaining fields are never run |
| `NoteAudio.SyncFieldsFrame` | noteaudio/noteaudio.go:30-67 | the loop writes only the audio fields of the visited fields of this note, never tags or other notes, and nothing in a dry run |
| `NoteAudio.SyncFieldsSkip` | noteaudio/noteaudio.go:31-38 | when no field needs audio the loop changes nothing and succeeds |
| `NoteAudio.SyncDryRun` | noteaudio/noteaudio.go:52-55 | a dry run leaves every note and tag as it was |
| `NoteAudio.SyncStoreFrame` | noteaudio/noteaudio.go:58 | a whole call writes only values of the field mapping, in the requested note |
| `NoteAudio.SyncSucceeds` | noteaudio/noteaudio.go:22-70 | with no failing service, a call on a stored note succeeds |
| `NoteAudio.SyncWritesReferences` | noteaudio/noteaudio.go:46-60 | after a successful run (not dry), with an injective mapping, each field that needed audio refers to its own new file |
| `NoteAudio.SyncOverwrites` | noteaudio/noteaudio.go:36-60 | with overwrite on, every field with non-blank sanitised text ends up referring to its own new file whatever audio it had |
| `NoteAudio.SyncPlacesFiles` | noteaudio/noteaudio.go:41-49 | after a successful run each field that needed audio has its file in the media directory speaking its sanitised text, unless an old reference named a new file |
| `NoteAudio.SecondRunIsNoOp` | noteaudio/noteaudio.go:36-38 | without overwrite, a second run after a successful one changes nothing |
| `NoteAudio.PaddedReferenceDeletesNewFile` | noteaudio/noteaudio.go:78-92 | an old value that is the new reference padded with whitespace makes the loop delete the file it just placed while the field points at it |
| `NoteAudio.SyncIgnoresTags` | noteaudio/noteaudio.go:22-70 | synchronising neither reads nor changes tags |
| `NoteAudio.AddAudioToField` | noteaudio/noteaudio.go:30-67 | one iteration on the world has exactly the effect of `SyncField` |
| `NoteAudio.AddAudioToNote` | noteaudio/noteaudio.go:22-70 | the whole call on the world has the effect of `Sync` for the order in which the phrases were visited, which lists every mapped field once |
| `Legacy.Keys` | main.go:162-169 | returns `len(m)` keys, every key of `m` exactly once |
| `Legacy.StoreAudio` | main.go:125-155 | on success the audio field holds the new value, the note's tags are its old tags plus `audio-generated` minus the tag to remove, and the media directory is the old one with the old file dropped; other notes' tags never change; a failing store call ends the process before any file is dropped |
| `Legacy.StoreAudioStore` | main.go:126-130 | the store calls write only the target field of this note: every other note and every other field of the note keep their text |
| `Legacy.TagNote` | main.go:131-141 | only this note's tags change; on success they are the old tags plus `audio-generated`, minus the tag to remove |
| `Legacy.UpdateField` | main.go:98-157 | skips on raw empty text or present audio without overwrite; a dry run makes no store call but still places the file speaking the raw text; otherwise the audio field gets the new reference and the tags change |
| `Legacy.UpdateFieldStore` | main.go:104-157 | one iteration, whatever its path, writes at most the target field of this note; the source field and every other note keep their text |
| `Legacy.FieldsShape` | main.go:17-28 | the ten source fields map to ten different audio fields, none of them a source field |
| `Legacy.NoteIdWins` | main.go:63-71 | a non-zero note id takes precedence: the query is never looked at |
| `Legacy.NothingToDo` | main.go:63-87 | with neither a note id nor a query nothing changes |
| `Legacy.UpdateNoteDryRun` | main.go:116-124 | a dry run makes no update, add-tag or remove-tag call |
| `Legacy.RemovingAudioTag` | main.go:131-141 | the audio tag is added before the tag to remove is removed, so removing `audio-generated` itself leaves the note without it |
| `Legacy.NbspSpokenOnlyHere` | main.go:99-101 | a field holding only "&nbsp;" is spoken by this loop and skipped by `NoteAudio` |
| `Legacy.UpdateFieldAgrees` | main.go:98-157 | on text sanitising leaves unchanged, one iteration has `NoteAudio`'s effect with old-audio removal, apart from the tags |
| `Legacy.UpdateAllSticky` | main.go:79-84 | after the first note that fails, no further note of the query is processed |
| `Legacy.UpdateOneField` | main.go:98-157 | one iteration on the world has exactly the effect of `UpdateField` |
| `Legacy.UpdateOneNote` | main.go:90-160 | `updateOneNote` on the world has the effect of `UpdateNote` for the visit order, which lists every field once |
| `Legacy.UpdateFieldsOf` | main.go:98-157 | the field loop on the world has exactly the effect of `UpdateFields` for the visit order: it stops at the first field whose outcome is not `Done` |
| `Legacy.Run` | main.go:63-88 | `main` on the world has the effect of `Dispatch`: one note, or the query's notes in the order returned |
| `Voice.UpdateNote` | cmd/voice/main.go:76-102 | `noteaudio` with `RemoveOldAudio` on and the caller's dry-run and overwrite flags; tags change only after a successful, non-dry sync, audio tag first |
| `Voice.TagNote` | cmd/voice/main.go:86-99 | only this note's tags change; on success they are the old tags plus the audio tag minus the tag to remove; on failure either nothing changed or only the audio tag was added |
| `Voice.ReachedBounds` | cmd/voice/main.go:63-72 | `limit > 0` processes `min(limit, n)` notes, `limit == 0` all, a negative limit at most one |
| `Voice.TagsOnlyAfterSync` | cmd/voice/main.go:82-86 | a failed sync or a dry run leaves the tags as they were |
| `Voice.TagsEveryNote` | cmd/voice/main.go:86-91 | a note that needed no audio is still tagged |
| `Voice.SecondRunIsNoOp` | cmd/voice/main.go:76-102 | without overwrite a second run changes nothing, not even the tags |
| `Voice.TagNoteIdempotent` | cmd/voice/main.go:86-99 | tagging twice is tagging once |
| `Voice.FieldsInjective` | cmd/voice/main.go:13-24 | the ten source fields map to ten distinct audio fields |
| `Voice.ReachedStep` | cmd/voice/main.go:69-71 | the loop's break test stops exactly at `Reached(limit, n)` ids |
| `Voice.UpdateOneNote` | cmd/voice/main.go:76-102 | `updateOneNote` on the world has the effect of `UpdateNote` |
| `Voice.Run` | cmd/voice/main.go:49-74 | `main` on the world processes the first `Reached(limit, n)` ids of the query in order, or the one note id |
| `Voice.NoteIdWins` | cmd/voice/main.go:49-55 | a non-zero note id takes precedence: the query is never looked at |
| `Voice.NothingToDo` | cmd/voice/main.go:49-73 | with neither a note id nor a query nothing changes |
| `GenerateCard.CardAddAudio` | cmd/generate-card/main.go:208-252 | a failed `GetNote` ends the process with nothing changed; on success the note carries the audio tag |
| `GenerateCard.GenerateNote` | cmd/generate-card/main.go:165-206 | never returns an ordinary error: a failed model call ends the process unchanged, an undecodable reply ends it with "failed to unmarshal response:" and the raw reply, an `AddNote` error other than a duplicate ends it with "failed to add note: "; the result of adding audio is ignored |
| `GenerateCard.SplitFirstLine` | cmd/generate-card/main.go:264 | the first line with its newline, and the rest; together they are the file |
| `GenerateCard.PopFirstLine` | cmd/generate-card/main.go:254-305 | an empty file is reported empty and left alone; a read error changes nothing |
| `GenerateCard.CardFieldsIsSyncFields` | cmd/generate-card/main.go:216-244 | the loop is `NoteAudio`'s with overwrite on, no dry run and no old-audio removal |
| `GenerateCard.AudioFieldsInjective` | cmd/generate-card/main.go:24-30 | the five source fields map to different audio fields |
| `GenerateCard.CardAddAudioIsSync` | cmd/generate-card/main.go:208-252 | adding audio is `NoteAudio` synchronisation followed by tagging |
| `GenerateCard.CardAudioReplaced` | cmd/generate-card/main.go:216-244 | after success every field with non-blank sanitised text refers to its own new file, whether or not it had audio |
| `GenerateCard.CardAddAudioFrame` | cmd/generate-card/main.go:208-252 | adding audio changes no file, no id and no field other than the audio fields |
| `GenerateCard.SkipsDuplicate` | cmd/generate-card/main.go:193-197 | an `AddNote` error containing the duplicate message ends the word with nothing changed and no audio |
| `GenerateCard.AddsGeneratedNote` | cmd/generate-card/main.go:178-205 | a fenced reply becomes a new note holding the 13 generated fields, which adding audio leaves as they were |
| `GenerateCard.GenerateKeepsFiles` | cmd/generate-card/main.go:146-148 | the handler never touches the vocabulary file |
| `GenerateCard.PopSkipsHandlerOnEmptyFile` | cmd/generate-card/main.go:264-271 | an empty file is reported as empty and left alone, whatever the handler |
| `GenerateCard.PopHandlesFirstLine` | cmd/generate-card/main.go:264-276 | for a non-empty file the result depends on the handler only through one call: on the first line without its newline, trimmed, in the state the file was read in |
| `GenerateCard.PopConsumesFirstLine` | cmd/generate-card/main.go:278-304 | on success the file holds exactly what followed the first newline: a queue pop |
| `GenerateCard.PopKeepsLineOnRewriteFailure` | cmd/generate-card/main.go:280-302 | if creating, copying, closing or renaming the temporary file fails, the file is not replaced |
| `GenerateCard.DriveStopsOnEmptyFile` | cmd/generate-card/main.go:153-155 | an empty file stops the loop with no word handled |
| `GenerateCard.DriveBound` | cmd/generate-card/main.go:141-162 | at most `max(limit, 1)` words are handled, and errors always end the process |
| `GenerateCard.AddAudioToCardField` | cmd/generate-card/main.go:216-244 | one iteration on the world has exactly the effect of `CardField` |
| `GenerateCard.AddAudioToCard` | cmd/generate-card/main.go:208-252 | `addAudioToNote` on the world has the effect of `CardAddAudio` |
| `GenerateCard.GenerateNoteFor` | cmd/generate-card/main.go:165-206 | `generateNote` on the world has the effect of `GenerateNote` |
| `GenerateCard.PopFirstLineOf` | cmd/generate-card/main.go:254-305 | `popFirstLine` with `generateNote` on the world has the effect of `PopFirstLine` |
| `GenerateCard.GenerateForVocabFile` | cmd/generate-card/main.go:140-163 | the driver loop on the world ends in the state `DriveLoop` describes |

## Left out

- Speech synthesis (`audio/generate.go`: the HTTP call to the TTS server and the `ffmpeg` run) is one external call that either fails or leaves the output file; its intermediate files are not modelled.
- The media directory lookup (`anki/media.go`) and path joining: the media directory is a map from file name to content, and names are not joined to a directory path.
- `cmd/generate-card/filetime_*.go`: timestamps, not used by the logic modelled.
- `gemini/prompts.go` and `gemini/category.go`: prompt text and labels; they repeat declarations of `gemini/client.go`, whose copy is modelled. Prompts are represented by which template they use.
- The language model's output and JSON encoding and decoding: AnkiConnect replies are decoded `Value`s and the Gemini decoder is a parameter.
- HTTP transport, `godotenv`, flag parsing, logging: a transport error is a `Transport` value or a fault. `log.Fatal` is the outcome `Fatal`.
- `ankiconnect.AddNote`, `ankiconnect.RemoveNoteTag` and `anki.AudioGeneratedTag` are not part of this model's source files; they are store operations, and the tag is assumed to be "audio-generated" as `main.go` spells it.
- Unicode: `strings.TrimSpace` and `strings.ToLower` follow their ASCII behaviour.
- `cmd/generate-card/main.go:127-131` reads flags without `flag.Parse` and line 110 tests the wrong variable; command-line plumbing is not modelled.
- `AnkiConnect.FieldText`: a field name is one key of the lookup path; gjson path syntax inside a name (`.`, `*`, `?`, `|`, `#`, escapes) is not interpreted.
- `AnkiConnect.Text`: an array or object reads as `[]` or `{}` rather than its raw JSON text, which the decoded value does not keep; only its being non-empty is used.
- `AnkiConnect.ParseInt`: 64-bit overflow of gjson's integer parsing is not modelled.
- `Strings.Quote`: only the ASCII part of `%q` is modelled; a non-ASCII character is written as it is, whereas Go escapes one that `unicode.IsPrint` rejects (for example U+0085 or U+2028) as `\u`/`\U`, because the Unicode tables are not modelled.
- Go map iteration order is left open: every lemma holds for any visit order, and nothing depends on which field is processed first.
- Concurrent runs against the same store or media directory are not modelled; the program is single-threaded.
- `Gemini.StripFences`: its own contract covers only text without fences; the fenced cases are `Gemini.StripFencesWrapped` and `Gemini.StripFencesOnce`.
