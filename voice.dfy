/** The `voice` command: `NoteAudio` with old audio removal for one note or
    for the notes of a query, tagging each note whose synchronisation
    succeeded, and stopping after `limit` notes. */
module Voice {
  import opened Wrappers
  import opened Strings
  import opened Maps
  import opened AnkiConnect
  import opened Environment
  import opened NoteAudio
  import Legacy

  /** Source field to audio field. */
  const Fields: map<string, string> := map[
    "base_d" := "base_a", "s1" := "s1a", "s2" := "s2a", "s3" := "s3a", "s4" := "s4a",
    "s5" := "s5a", "s6" := "s6a", "s7" := "s7a", "s8" := "s8a", "s9" := "s9a"]

  /** The command line: `-note`, `-limit`, `-dryrun`, `-query`, `-overwrite`,
      `-removetag`. */
  datatype Flags = Flags(noteId: int, limit: int, dryRun: bool, query: string, overwrite: bool, removeTag: string)

  function VoiceOptions(flags: Flags): Options {
    Options(flags.dryRun, flags.overwrite, true)
  }

  /** `updateOneNote`: synchronise, then, unless a dry run, add the audio
      tag and remove the tag to remove. */
  function UpdateNote(e: Env, svc: Services, noteId: int, flags: Flags, order: seq<string>): (r: (Env, Option<string>))
    ensures var s := Sync(e, svc, noteId, Fields, VoiceOptions(flags), order);
      && r.0 == s.0.(tags := r.0.tags)
      && (r.1.None? ==> s.1.None?)
      && (s.1.Some? || flags.dryRun ==> r == s)
    ensures r.1.None? && !flags.dryRun ==>
              && (flags.removeTag != AnkiAudioTag ==> AnkiAudioTag in TagsOf(r.0, noteId))
              && (flags.removeTag != "" ==> flags.removeTag !in TagsOf(r.0, noteId))
  {
    var (e1, err) := Sync(e, svc, noteId, Fields, VoiceOptions(flags), order);
    if err.Some? || flags.dryRun then (e1, err)
    else TagNote(e1, svc, noteId, flags.removeTag)
  }

  /** Add the audio tag, then remove `removeTag` unless it is empty. */
  function TagNote(e: Env, svc: Services, noteId: int, removeTag: string): (r: (Env, Option<string>))
    ensures r.0 == e.(tags := r.0.tags)
    ensures forall n :: n != noteId ==> TagsOf(r.0, n) == TagsOf(e, n)
    ensures r.1.None? ==>
              TagsOf(r.0, noteId) == TagsOf(e, noteId) + {AnkiAudioTag} - (if removeTag != "" then {removeTag} else {})
    ensures r.1.Some? ==>
              TagsOf(r.0, noteId) == TagsOf(e, noteId) || TagsOf(r.0, noteId) == TagsOf(e, noteId) + {AnkiAudioTag}
  {
    var (e1, tagErr) := AddTagStep(e, svc, noteId, AnkiAudioTag);
    if tagErr.Some? then (e1, tagErr)
    else if removeTag != "" then RemoveTagStep(e1, svc, noteId, removeTag)
    else (e1, None)
  }

  /** How many ids of a query of `n` notes the loop reaches: it stops after
      the id at index `i` once `limit != 0 && i + 1 >= limit`. */
  function Reached(limit: int, n: nat): nat {
    if n == 0 || limit == 0 then n else if limit < 0 then 1 else Min(limit, n)
  }

  function Min(a: int, b: int): int {
    if a <= b then a else b
  }

  /** The notes of a query, in the order returned; the first error ends the
      process. */
  function UpdateAll(e: Env, svc: Services, flags: Flags, ids: seq<int>, visits: seq<seq<string>>): (Env, Outcome)
    decreases |ids|
  {
    if ids == [] then (e, Done)
    else
      var (e1, outcome) := UpdateAll(e, svc, flags, ids[..|ids| - 1], visits);
      if !outcome.Done? then (e1, outcome)
      else
        var (e2, err) := UpdateNote(e1, svc, ids[|ids| - 1], flags, OrderAt(visits, |ids| - 1));
        (e2, if err.Some? then Fatal(err.value) else Done)
  }

  /** `main` after the media directory check. */
  function Dispatch(e: Env, svc: Services, flags: Flags, visits: seq<seq<string>>): (Env, Outcome) {
    if flags.noteId != 0 then
      var (e1, err) := UpdateNote(e, svc, flags.noteId, flags, OrderAt(visits, 0));
      (e1, if err.Some? then Fatal(err.value) else Done)
    else if flags.query != "" then
      match QueryStep(svc, flags.query)
      case Err(m) => (e, Fatal(m))
      case Ok(ids) => UpdateAll(e, svc, flags, ids[..Reached(flags.limit, |ids|)], visits)
    else (e, Done)
  }

  /** A non-zero note id takes precedence: the query is then ignored. */
  lemma NoteIdWins(e: Env, svc: Services, flags: Flags, visits: seq<seq<string>>, query: string)
    requires flags.noteId != 0
    ensures Dispatch(e, svc, flags, visits) == Dispatch(e, svc, flags.(query := query), visits)
  {
  }

  /** With neither a note id nor a query nothing is processed. */
  lemma NothingToDo(e: Env, svc: Services, flags: Flags, visits: seq<seq<string>>)
    requires flags.noteId == 0 && flags.query == ""
    ensures Dispatch(e, svc, flags, visits) == (e, Done)
  {
  }

  // ---------------------------------------------------------------------

  /** The ten source fields go to ten different audio fields, none of which
      is itself a source field. */
  lemma FieldsInjective()
    ensures Injective(Fields)
    ensures forall f :: f in Fields ==> f !in Fields.Values
  {
    assert Fields == Legacy.Fields;
    Legacy.FieldsShape();
  }

  /** The loop stops after `limit` notes when `limit` is positive, never
      when it is zero, and after the first note when it is negative. */
  lemma ReachedBounds(limit: int, n: nat)
    ensures Reached(limit, n) <= n
    ensures limit == 0 ==> Reached(limit, n) == n
    ensures limit > 0 ==> Reached(limit, n) == if n <= limit then n else limit
    ensures limit < 0 ==> Reached(limit, n) == if n == 0 then 0 else 1
  {
  }

  /** Tags change only after a synchronisation that succeeded outside a dry
      run. */
  lemma TagsOnlyAfterSync(e: Env, svc: Services, noteId: int, flags: Flags, order: seq<string>)
    requires Sync(e, svc, noteId, Fields, VoiceOptions(flags), order).1.Some? || flags.dryRun
    ensures UpdateNote(e, svc, noteId, flags, order).0.tags == e.tags
  {
    if GetNoteStep(e, svc, noteId, Fields).Ok? {
      SyncFieldsFrame(e, svc, VoiceOptions(flags), GetNoteStep(e, svc, noteId, Fields).value, Fields, order);
    }
  }

  /** A note whose fields need no audio at all is still tagged. */
  lemma TagsEveryNote(e: Env, svc: Services, noteId: int, flags: Flags, order: seq<string>)
    requires svc.faults == map[] && noteId in e.notes && !flags.dryRun && flags.removeTag != AnkiAudioTag
    ensures UpdateNote(e, svc, noteId, flags, order).1.None?
    ensures AnkiAudioTag in TagsOf(UpdateNote(e, svc, noteId, flags, order).0, noteId)
  {
    SyncSucceeds(e, svc, noteId, Fields, VoiceOptions(flags), order);
  }

  /** A second run after a successful one, without overwriting, changes
      nothing, not even the tags. */
  lemma SecondRunIsNoOp(e: Env, svc: Services, noteId: int, flags: Flags, order: seq<string>, order2: seq<string>)
    requires !flags.overwrite && !flags.dryRun
    requires Enumerates(order, Fields.Keys)
    requires UpdateNote(e, svc, noteId, flags, order).1.None?
    ensures var e2 := UpdateNote(e, svc, noteId, flags, order).0;
      UpdateNote(e2, svc, noteId, flags, order2) == (e2, None)
  {
    var opts := VoiceOptions(flags);
    var e1 := Sync(e, svc, noteId, Fields, opts, order).0;
    var e2 := UpdateNote(e, svc, noteId, flags, order).0;
    assert Sync(e2, svc, noteId, Fields, opts, order2) == (e2, None) by {
      FieldsInjective();
      NoteAudio.SecondRunIsNoOp(e, svc, noteId, Fields, opts, order, order2);
      assert e2 == e1.(tags := e2.tags);
      SyncIgnoresTags(e1, svc, e2.tags, noteId, Fields, opts, order2);
    }
    TagNoteIdempotent(e1, svc, noteId, flags.removeTag);
  }

  /** Tagging twice is tagging once. */
  lemma TagNoteIdempotent(e: Env, svc: Services, noteId: int, removeTag: string)
    requires TagNote(e, svc, noteId, removeTag).1.None?
    ensures var e2 := TagNote(e, svc, noteId, removeTag).0;
      TagNote(e2, svc, noteId, removeTag) == (e2, None)
  {
    var e2 := TagNote(e, svc, noteId, removeTag).0;
    assert noteId in e2.tags;
    if removeTag != "" {
      var e3 := AddTagStep(e2, svc, noteId, AnkiAudioTag).0;
      assert TagsOf(e3, noteId) == TagsOf(e2, noteId) + {AnkiAudioTag};
      assert TagsOf(e3, noteId) - {removeTag} == TagsOf(e2, noteId);
      assert e3.tags[noteId := TagsOf(e2, noteId)] == e2.tags;
    } else {
      assert TagsOf(e2, noteId) + {AnkiAudioTag} == TagsOf(e2, noteId);
      assert e2.tags[noteId := TagsOf(e2, noteId)] == e2.tags;
    }
  }

  // ---------------------------------------------------------------------

  /** `updateOneNote` on the world. */
  method UpdateOneNote(w: World, noteId: int, flags: Flags) returns (err: Option<string>, order: seq<string>)
    modifies w
    ensures GetNoteStep(old(w.Snapshot()), w.svc, noteId, Fields).Ok? ==> Enumerates(order, Fields.Keys)
    ensures (w.Snapshot(), err) == UpdateNote(old(w.Snapshot()), w.svc, noteId, flags, order)
  {
    err, order := AddAudioToNote(w, noteId, Fields, VoiceOptions(flags));
    if err.Some? {
      return;
    }
    if !flags.dryRun {
      err := w.AddNoteTag(noteId, AnkiAudioTag);
      if err.Some? {
        return;
      }
      if flags.removeTag != "" {
        err := w.RemoveNoteTag(noteId, flags.removeTag);
        if err.Some? {
          return;
        }
      }
    }
  }

  /** `main`: `visits` holds the visit order of each note processed and
      `reached` how many ids of the query were handled. */
  method Run(w: World, flags: Flags) returns (outcome: Outcome, visits: seq<seq<string>>)
    modifies w
    ensures (w.Snapshot(), outcome) == Dispatch(old(w.Snapshot()), w.svc, flags, visits)
  {
    ghost var e0 := w.Snapshot();
    if flags.noteId != 0 {
      var err, order := UpdateOneNote(w, flags.noteId, flags);
      outcome := if err.Some? then Fatal(err.value) else Done;
      return outcome, [order];
    }
    if flags.query == "" {
      return Done, [];
    }
    var ids, err := w.QueryNotes(flags.query);
    if err.Some? {
      return Fatal(err.value), [];
    }
    visits := [];
    var index := 0;
    while index < |ids|
      invariant index <= |ids| && |visits| == index
      invariant index == 0 || flags.limit == 0 || index < flags.limit
      invariant (w.Snapshot(), Done) == UpdateAll(e0, w.svc, flags, ids[..index], visits)
    {
      ReachedStep(flags.limit, |ids|, index);
      var order;
      err, order := UpdateOneNote(w, ids[index], flags);
      UpdateAllNext(e0, w.svc, flags, ids, visits, order, index);
      visits := visits + [order];
      if err.Some? {
        UpdateAllStops(e0, w.svc, flags, ids, visits, index + 1);
        return Fatal(err.value), visits;
      }
      if flags.limit != 0 && index + 1 >= flags.limit {
        UpdateAllStops(e0, w.svc, flags, ids, visits, index + 1);
        return Done, visits;
      }
      index := index + 1;
    }
    ReachedStep(flags.limit, |ids|, index);
    assert ids[..index] == ids[..Reached(flags.limit, |ids|)];
    outcome := Done;
  }

  /** One more note of the query, given the visit order of its fields. */
  lemma UpdateAllNext(e: Env, svc: Services, flags: Flags, ids: seq<int>, visits: seq<seq<string>>, order: seq<string>, i: nat)
    requires i < |ids| && |visits| == i
    requires UpdateAll(e, svc, flags, ids[..i], visits).1.Done?
    ensures var e1 := UpdateAll(e, svc, flags, ids[..i], visits).0;
      var r := UpdateNote(e1, svc, ids[i], flags, order);
      UpdateAll(e, svc, flags, ids[..i + 1], visits + [order]) == (r.0, if r.1.Some? then Fatal(r.1.value) else Done)
  {
    assert ids[..i + 1][..i] == ids[..i];
    UpdateAllVisits(e, svc, flags, ids[..i], visits, [order]);
    assert OrderAt(visits + [order], i) == order;
  }

  /** Where the loop leaves off, `k` ids in, is where the ids it reaches end,
      either because the `k`-th note failed or because the limit was hit. */
  lemma UpdateAllStops(e: Env, svc: Services, flags: Flags, ids: seq<int>, visits: seq<seq<string>>, k: nat)
    requires k <= Reached(flags.limit, |ids|) <= |ids|
    requires !UpdateAll(e, svc, flags, ids[..k], visits).1.Done? || k == Reached(flags.limit, |ids|)
    ensures UpdateAll(e, svc, flags, ids[..Reached(flags.limit, |ids|)], visits) == UpdateAll(e, svc, flags, ids[..k], visits)
  {
    var reached := ids[..Reached(flags.limit, |ids|)];
    assert reached[..k] == ids[..k];
    if k < |reached| {
      UpdateAllSticky(e, svc, flags, reached, visits, k);
    }
  }

  /** The loop's exit test against `Reached`: while the loop runs it has
      not reached the stopping point, it breaks exactly there, and running
      off the end means every id was reached. */
  lemma ReachedStep(limit: int, n: nat, index: nat)
    requires index <= n
    requires index == 0 || limit == 0 || index < limit
    ensures index < n ==> index < Reached(limit, n)
    ensures index < n && limit != 0 && index + 1 >= limit ==> Reached(limit, n) == index + 1
    ensures index == n ==> Reached(limit, n) == n
  {
  }

  lemma {:induction false} UpdateAllSticky(e: Env, svc: Services, flags: Flags, ids: seq<int>, visits: seq<seq<string>>, k: nat)
    requires k <= |ids|
    requires !UpdateAll(e, svc, flags, ids[..k], visits).1.Done?
    ensures UpdateAll(e, svc, flags, ids, visits) == UpdateAll(e, svc, flags, ids[..k], visits)
    decreases |ids| - k
  {
    if k == |ids| {
      assert ids[..k] == ids;
    } else {
      var init := ids[..|ids| - 1];
      assert init[..k] == ids[..k];
      UpdateAllSticky(e, svc, flags, init, visits, k);
    }
  }

  /** The visit orders of notes beyond the processed ones do not matter. */
  lemma {:induction false} UpdateAllVisits(e: Env, svc: Services, flags: Flags, ids: seq<int>, visits: seq<seq<string>>, more: seq<seq<string>>)
    requires |ids| <= |visits|
    ensures UpdateAll(e, svc, flags, ids, visits + more) == UpdateAll(e, svc, flags, ids, visits)
    decreases |ids|
  {
    if ids != [] {
      UpdateAllVisits(e, svc, flags, ids[..|ids| - 1], visits, more);
      assert OrderAt(visits + more, |ids| - 1) == OrderAt(visits, |ids| - 1);
    }
  }
}
