/** The text-generation client. The model itself is a black box (`Model`)
    and so is JSON decoding (`Decoder`); what is modelled is the
    post-processing of what they return. */
module Gemini {
  import opened Wrappers
  import opened Strings

  /** The fields the model is asked to fill in for one word. */
  datatype Response = Response(
    fullD: string, baseD: string, baseE: string, articleD: string, pluralD: string,
    s1: string, s1e: string, s2: string, s2e: string,
    s3: string, s3e: string, s4: string, s4e: string)

  /** The zero value of `GeminiResponse`. */
  const Zero := Response("", "", "", "", "", "", "", "", "", "", "", "", "")

  /** The note fields a response fills in. */
  const NoteFieldNames: set<string> :=
    {"full_d", "base_d", "base_e", "artikel_d", "plural_d",
     "s1", "s1e", "s2", "s2e", "s3", "s3e", "s4", "s4e"}

  /** `ToMap`: the note fields, each bound to the matching response field. */
  function ToMap(r: Response): (m: map<string, string>)
    ensures m.Keys == NoteFieldNames
    ensures m["full_d"] == r.fullD && m["base_d"] == r.baseD && m["base_e"] == r.baseE
    ensures m["artikel_d"] == r.articleD && m["plural_d"] == r.pluralD
    ensures m["s1"] == r.s1 && m["s1e"] == r.s1e && m["s2"] == r.s2 && m["s2e"] == r.s2e
    ensures m["s3"] == r.s3 && m["s3e"] == r.s3e && m["s4"] == r.s4 && m["s4e"] == r.s4e
  {
    map[
      "full_d" := r.fullD, "base_d" := r.baseD, "base_e" := r.baseE,
      "artikel_d" := r.articleD, "plural_d" := r.pluralD,
      "s1" := r.s1, "s1e" := r.s1e, "s2" := r.s2, "s2e" := r.s2e,
      "s3" := r.s3, "s3e" := r.s3e, "s4" := r.s4, "s4e" := r.s4e]
  }

  /** No field is lost: the map determines the response. */
  lemma ToMapInjective(a: Response, b: Response)
    requires ToMap(a) == ToMap(b)
    ensures a == b
  {
    assert ToMap(a)["full_d"] == ToMap(b)["full_d"];
  }

  const JsonFence := "```json"
  const Fence := "```"

  /** The fence stripping before decoding: one leading "```json" and one
      trailing "```", each only if present. */
  function StripFences(text: string): (r: string)
    ensures !HasPrefix(text, JsonFence) && !HasSuffix(text, Fence) ==> r == text
  {
    TrimSuffix(TrimPrefix(text, JsonFence), Fence)
  }

  /** A fenced block loses exactly its fences. */
  lemma StripFencesWrapped(body: string)
    ensures StripFences(JsonFence + body + Fence) == body
  {
    var t := JsonFence + body + Fence;
    assert t[..|JsonFence|] == JsonFence;
    assert t[|JsonFence|..] == body + Fence;
    assert (body + Fence)[|body|..] == Fence;
  }

  /** Only one fence is removed at each end. */
  lemma StripFencesOnce(body: string)
    ensures StripFences(JsonFence + JsonFence + body + Fence + Fence) == JsonFence + body + Fence
  {
    assert JsonFence + JsonFence + body + Fence + Fence == JsonFence + (JsonFence + body + Fence) + Fence;
    StripFencesWrapped(JsonFence + body + Fence);
  }

  /** `json.Unmarshal` into a response. */
  type Decoder = string -> Result<Response>

  /** `parseResponse`: a decoding failure yields the zero response with the
      error. */
  function ParseResponse(text: string, decode: Decoder): (r: (Response, Option<string>))
    ensures r.1.Some? <==> decode(StripFences(text)).Err?
    ensures r.1.Some? ==> r.0 == Zero && r.1.value == decode(StripFences(text)).msg
    ensures r.1.None? ==> decode(StripFences(text)) == Ok(r.0)
  {
    match decode(StripFences(text))
    case Err(e) => (Zero, Some(e))
    case Ok(resp) => (resp, None)
  }

  /** A reply without fences reaches the decoder as it is. */
  lemma ParseUnfenced(text: string, decode: Decoder)
    requires !HasPrefix(text, JsonFence) && !HasSuffix(text, Fence)
    ensures ParseResponse(text, decode) ==
              match decode(text) case Err(e) => (Zero, Some(e)) case Ok(resp) => (resp, None)
  {
  }

  /** The instruction templates; a prompt is a template applied to a word. */
  datatype Template = NotePrompt | NounPrompt | VerbPrompt | DetectCategoryPrompt | CardPrompt

  datatype Prompt = Prompt(template: Template, word: string)

  /** One `GenerateContent` call followed by `result.Text()`. */
  type Model = Prompt -> Result<string>

  /** `generateNoteJSON`: a failed call yields the zero response. */
  function GenerateNoteJSON(model: Model, decode: Decoder, word: string, template: Template): (r: (Response, Option<string>))
    ensures model(Prompt(template, word)).Err? ==> r == (Zero, Some(model(Prompt(template, word)).msg))
    ensures model(Prompt(template, word)).Ok? ==> r == ParseResponse(model(Prompt(template, word)).value, decode)
  {
    match model(Prompt(template, word))
    case Err(e) => (Zero, Some(e))
    case Ok(text) => ParseResponse(text, decode)
  }

  /** `GenerateVerbJSON` asks with the verb template. */
  function GenerateVerbJSON(model: Model, decode: Decoder, word: string): (r: (Response, Option<string>))
    ensures model(Prompt(VerbPrompt, word)).Err? ==> r == (Zero, Some(model(Prompt(VerbPrompt, word)).msg))
    ensures model(Prompt(VerbPrompt, word)).Ok? ==> r == ParseResponse(model(Prompt(VerbPrompt, word)).value, decode)
  {
    GenerateNoteJSON(model, decode, word, VerbPrompt)
  }

  /** `GenerateNounJSON` asks with the noun template. */
  function GenerateNounJSON(model: Model, decode: Decoder, word: string): (r: (Response, Option<string>))
    ensures model(Prompt(NounPrompt, word)).Err? ==> r == (Zero, Some(model(Prompt(NounPrompt, word)).msg))
    ensures model(Prompt(NounPrompt, word)).Ok? ==> r == ParseResponse(model(Prompt(NounPrompt, word)).value, decode)
  {
    GenerateNoteJSON(model, decode, word, NounPrompt)
  }

  /** `GenerateOtherJSON` asks with the general note template. */
  function GenerateOtherJSON(model: Model, decode: Decoder, word: string): (r: (Response, Option<string>))
    ensures model(Prompt(NotePrompt, word)).Err? ==> r == (Zero, Some(model(Prompt(NotePrompt, word)).msg))
    ensures model(Prompt(NotePrompt, word)).Ok? ==> r == ParseResponse(model(Prompt(NotePrompt, word)).value, decode)
  {
    GenerateNoteJSON(model, decode, word, NotePrompt)
  }

  const CategoryNoun := "noun"
  const CategoryVerb := "verb"
  const CategoryOther := "other"

  predicate IsCategory(c: string) {
    c == CategoryNoun || c == CategoryVerb || c == CategoryOther
  }

  const UnexpectedCategory := "unexpected category from Gemini: "

  /** `DetectCategory`: the reply, trimmed and lower-cased, must be one of
      the three labels; anything else is an error with an empty category. */
  function DetectCategory(model: Model, word: string): (r: (string, Option<string>))
    ensures r.1.None? <==>
              model(Prompt(DetectCategoryPrompt, word)).Ok?
              && IsCategory(ToLower(TrimSpace(model(Prompt(DetectCategoryPrompt, word)).value)))
    ensures r.1.None? ==> r.0 == ToLower(TrimSpace(model(Prompt(DetectCategoryPrompt, word)).value))
    ensures r.1.None? ==> IsCategory(r.0)
    ensures r.1.Some? ==> r.0 == ""
  {
    match model(Prompt(DetectCategoryPrompt, word))
    case Err(e) => ("", Some(e))
    case Ok(text) =>
      var category := ToLower(TrimSpace(text));
      if IsCategory(category) then (category, None)
      else ("", Some(UnexpectedCategory + Quote(category)))
  }

  /** Surrounding whitespace and upper case in the reply are tolerated: a
      reply that is any spelling of a label, padded with whitespace, gives
      that label. */
  lemma DetectCategoryNormalises(model: Model, word: string, pre: string, c: string, post: string)
    requires AllSpace(pre) && AllSpace(post) && Trimmed(c) && c != [] && IsCategory(ToLower(c))
    requires model(Prompt(DetectCategoryPrompt, word)) == Ok(pre + c + post)
    ensures DetectCategory(model, word) == (ToLower(c), None)
  {
    TrimSpacePadded(pre, c, post);
  }

  /** "Noun" is such a spelling. */
  lemma LowerNoun()
    ensures ToLower("Noun") == CategoryNoun
  {
    var r := ToLower("Noun");
    assert r[0] == ToLowerChar('N') == 'n';
    assert r == [r[0], r[1], r[2], r[3]];
  }

  lemma NounDotTrimmed()
    ensures TrimSpace("noun.") == "noun."
  {
    var reply := "noun.";
    assert !IsSpace(reply[0]) && !IsSpace(reply[4]);
    TrimSpaceKeepsTrimmed(reply);
  }

  lemma NounDotNotCategory()
    ensures !IsCategory(ToLower("noun."))
  {
    var category := ToLower("noun.");
    assert |category| == 5;
    assert category[4] == ToLowerChar('.') == '.';
    assert category != CategoryOther by {
      assert CategoryOther[4] == 'r';
    }
  }

  /** A reply that is no label once trimmed and lower-cased is rejected,
      with an empty category. */
  lemma DetectCategoryRejectsOther(model: Model, word: string, reply: string)
    requires model(Prompt(DetectCategoryPrompt, word)) == Ok(reply)
    requires !IsCategory(ToLower(TrimSpace(reply)))
    ensures DetectCategory(model, word).1.Some? && DetectCategory(model, word).0 == ""
  {
  }

  /** Even a label with punctuation is rejected. */
  lemma DetectCategoryRejects(model: Model, word: string)
    requires model(Prompt(DetectCategoryPrompt, word)) == Ok("noun.")
    ensures DetectCategory(model, word).1.Some? && DetectCategory(model, word).0 == ""
  {
    NounDotTrimmed();
    NounDotNotCategory();
    DetectCategoryRejectsOther(model, word, "noun.");
  }

  /** The layout of the message for a rejected category. */
  lemma UnexpectedCategoryMessage(category: string)
    ensures var m := UnexpectedCategory + Quote(category);
            var k := |UnexpectedCategory|;
            |m| >= k + 2 && m[..k] == UnexpectedCategory
            && m[k] == '"' && m[|m| - 1] == '"'
            && (forall i :: k <= i < |m| ==> !IsControl(m[i]))
            && UnescapeAll(m[k + 1..|m| - 1]) == Some(category)
  {
    var q := Quote(category);
    var m := UnexpectedCategory + q;
    var k := |UnexpectedCategory|;
    assert m[k + 1..|m| - 1] == q[1..|q| - 1];
    assert forall i :: k <= i < |m| ==> m[i] == q[i - k];
    QuoteReadsBack(category);
  }

  /** The error for a rejected reply names it `%q`-quoted: one line without
      control characters, from which the trimmed, lower-cased reply reads
      back unchanged. */
  lemma DetectCategoryQuotesReply(model: Model, word: string, reply: string)
    requires model(Prompt(DetectCategoryPrompt, word)) == Ok(reply)
    requires !IsCategory(ToLower(TrimSpace(reply)))
    ensures var m := DetectCategory(model, word).1.value;
            var k := |UnexpectedCategory|;
            |m| >= k + 2 && m[..k] == UnexpectedCategory
            && m[k] == '"' && m[|m| - 1] == '"'
            && (forall i :: k <= i < |m| ==> !IsControl(m[i]))
            && UnescapeAll(m[k + 1..|m| - 1]) == Some(ToLower(TrimSpace(reply)))
  {
    UnexpectedCategoryMessage(ToLower(TrimSpace(reply)));
  }

  /** A reply with a line break is reported with the escape `\n`, not with
      the line break itself. */
  lemma QuoteLineBreak()
    ensures Quote("a\nb") == "\"a\\nb\""
  {
    var s := "a\nb";
    assert EscapeAll(s[2..]) == "b";
    assert EscapeAll(s[1..]) == "\\n" + "b";
  }
}
