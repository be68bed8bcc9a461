// The client side of the three relay calls: what each makes of the relay's
// reply. The reply itself (fetch, `response.json()`, `JSON.parse`) is an
// input; the prompts sent are not modelled.

module GeminiService {

  import opened Types
  import JsText

  const RELAY_ERROR: string := "خطا در ارتباط با واسط امن."
  const ANALYSIS_ERROR: string := "خطا در تحلیل متن توسط هوش مصنوعی."
  const TTS_ERROR: string := "خطا در تولید صوت."

  /**
   * How a `fetch` to the relay settled: rejected with a message, or a response
   * with its `ok` flag and what `response.json()` settled with.
   */
  datatype Fetched<T> = FetchFailed(message: string) | Response(ok: bool, json: Result<T>)

  // ------------------------------------------------------------ image to text

  /**
   * `extractTextFromImage`: the reply's `text` field (`None` when absent). A
   * rejected fetch or body keeps its own message; a non-ok response has the
   * relay error.
   */
  function ExtractTextFromImage(reply: Fetched<Option<string>>): (r: Result<Option<string>>)
    ensures reply.FetchFailed? ==> r == Err(reply.message)
    ensures reply.Response? && !reply.ok ==> r == Err(RELAY_ERROR)
    ensures r.Ok? <==> reply.Response? && reply.ok && reply.json.Ok?
    ensures r.Ok? ==> r.value == reply.json.value
  {
    match reply
    case FetchFailed(m) => Err(m)
    case Response(ok, json) =>
      if !ok then Err(RELAY_ERROR)
      else match json
        case Err(m) => Err(m)
        case Ok(text) => Ok(text)
  }

  // ------------------------------------------------------------ analysis

  /** A value stored under a key of the parsed reply, as far as `x || []` can tell them apart. */
  datatype JsonValue =
    | JNull                          // null
    | JFalsy                         // false, 0, ""
    | JWordList(words: seq<WordData>) // an array of word records (truthy, even when empty)

  /** What `JSON.parse` made of the trimmed reply text. */
  datatype ParsedJson = ParseFailed | ParsedNull | ParsedObject(fields: map<string, JsonValue>)

  /** The three keys the analyser is asked for, in the order the result object lists them. */
  const ANALYSER_KEYS: seq<string> := [LEVEL_SPECIALIST, LEVEL_INTERMEDIATE, LEVEL_ADVANCED]

  /** `parsedData[key] || []`. */
  function LevelOrEmpty(fields: map<string, JsonValue>, key: string): seq<WordData>
  {
    if key in fields && fields[key].JWordList? then fields[key].words else []
  }

  /**
   * The `fullData` object: exactly the three analyser keys in order, each
   * holding the parsed list when there is one and an empty list otherwise;
   * every other key of the parsed reply is dropped.
   */
  function Normalise(fields: map<string, JsonValue>): (v: Vocabulary)
    ensures Keys(v) == ANALYSER_KEYS
    ensures forall k :: k in ANALYSER_KEYS && k in fields && fields[k].JWordList? ==>
      Lookup(v, k) == Some(fields[k].words)
    ensures forall k :: k in ANALYSER_KEYS && !(k in fields && fields[k].JWordList?) ==>
      Lookup(v, k) == Some([])
    ensures forall k :: k !in ANALYSER_KEYS ==> Lookup(v, k) == None
  {
    var v := Vocabulary([
      LevelList(LEVEL_SPECIALIST, LevelOrEmpty(fields, LEVEL_SPECIALIST)),
      LevelList(LEVEL_INTERMEDIATE, LevelOrEmpty(fields, LEVEL_INTERMEDIATE)),
      LevelList(LEVEL_ADVANCED, LevelOrEmpty(fields, LEVEL_ADVANCED))]);
    assert Keys(v) == ANALYSER_KEYS;
    LookupNormalised(fields, v);
    v
  }

  lemma LookupNormalised(fields: map<string, JsonValue>, v: Vocabulary)
    requires v.levels == [
      LevelList(LEVEL_SPECIALIST, LevelOrEmpty(fields, LEVEL_SPECIALIST)),
      LevelList(LEVEL_INTERMEDIATE, LevelOrEmpty(fields, LEVEL_INTERMEDIATE)),
      LevelList(LEVEL_ADVANCED, LevelOrEmpty(fields, LEVEL_ADVANCED))]
    ensures forall k :: Lookup(v, k) == if k in ANALYSER_KEYS then Some(LevelOrEmpty(fields, k)) else None
  {
    forall k ensures Lookup(v, k) == if k in ANALYSER_KEYS then Some(LevelOrEmpty(fields, k)) else None {
      var ls := v.levels;
      assert |LEVEL_SPECIALIST| == 7 && |LEVEL_INTERMEDIATE| == 5 && |LEVEL_ADVANCED| == 7;
      assert LEVEL_SPECIALIST[0] != LEVEL_ADVANCED[0];
      assert ls[1..][1..][1..] == [];
      if k == LEVEL_SPECIALIST {
      } else if k == LEVEL_INTERMEDIATE {
        assert LookupFrom(ls, k) == LookupFrom(ls[1..], k);
      } else if k == LEVEL_ADVANCED {
        assert LookupFrom(ls, k) == LookupFrom(ls[1..], k) == LookupFrom(ls[1..][1..], k);
      } else {
        assert LookupFrom(ls, k) == LookupFrom(ls[1..][1..][1..], k) == None;
      }
    }
  }

  /** The level the selector calls beginner is never a key of the analyser's result. */
  lemma NormaliseHasNoBeginner(fields: map<string, JsonValue>)
    ensures Lookup(Normalise(fields), LEVEL_BEGINNER) == None
    ensures LEVEL_BEGINNER !in Keys(Normalise(fields))
  {
    assert LEVEL_BEGINNER != LEVEL_SPECIALIST;
    assert LEVEL_BEGINNER !in ANALYSER_KEYS;
  }

  /**
   * `analyzeText`, given how the relay answered and what `JSON.parse` makes of
   * a text: the normalised object of the parsed reply. Any failure on the way
   * (rejected fetch, non-ok response, unreadable body or missing `text`, parse
   * error, a `null` result) becomes the one generic analysis error.
   */
  function AnalyzeText(reply: Fetched<Option<string>>, parse: string -> ParsedJson): (r: Result<Vocabulary>)
    ensures r.Err? ==> r.message == ANALYSIS_ERROR
    ensures r.Ok? <==> reply.Response? && reply.ok && reply.json.Ok? && reply.json.value.Some?
                       && parse(JsText.Trim(reply.json.value.value)).ParsedObject?
    ensures r.Ok? ==> Keys(r.value) == ANALYSER_KEYS
  {
    if reply.FetchFailed? || !reply.ok || reply.json.Err? || reply.json.value.None? then Err(ANALYSIS_ERROR)
    else match parse(JsText.Trim(reply.json.value.value))
      case ParsedObject(fields) => Ok(Normalise(fields))
      case _ => Err(ANALYSIS_ERROR)
  }

  /** A successful analysis holds exactly the parsed word lists under the analyser's keys. */
  lemma AnalysisCopiesLists(reply: Fetched<Option<string>>, parse: string -> ParsedJson, key: string)
    requires AnalyzeText(reply, parse).Ok?
    ensures var fields := parse(JsText.Trim(reply.json.value.value)).fields;
      Lookup(AnalyzeText(reply, parse).value, key)
        == if key in ANALYSER_KEYS then Some(LevelOrEmpty(fields, key)) else None
  {
    var fields := parse(JsText.Trim(reply.json.value.value)).fields;
    LookupNormalised(fields, Normalise(fields));
  }

  // ------------------------------------------------------------ text to speech

  datatype InlineData = InlineData(data: string, mimeType: string)
  datatype Part = Part(inlineData: Option<InlineData>)
  datatype Content = Content(parts: Option<seq<Part>>)
  datatype Candidate = Candidate(content: Option<Content>)
  /** The speech reply's body: only the path to the audio matters. */
  datatype SpeechBody = SpeechBody(candidates: Option<seq<Candidate>>)

  /** The speech reply as `getAudio` resolves it. */
  datatype AudioClip = AudioClip(audioData: string, mimeType: string)

  /** `candidates?.[0]?.content?.parts?.[0]?.inlineData`. */
  function FirstInlineData(body: SpeechBody): (r: Option<InlineData>)
    ensures r.Some? <==>
      && body.candidates.Some? && |body.candidates.value| > 0
      && body.candidates.value[0].content.Some?
      && body.candidates.value[0].content.value.parts.Some?
      && |body.candidates.value[0].content.value.parts.value| > 0
      && body.candidates.value[0].content.value.parts.value[0].inlineData.Some?
    ensures r.Some? ==> r == body.candidates.value[0].content.value.parts.value[0].inlineData
  {
    match body.candidates
    case None => None
    case Some(cs) =>
      if cs == [] then None
      else match cs[0].content
        case None => None
        case Some(content) =>
          match content.parts
          case None => None
          case Some(ps) => if ps == [] then None else ps[0].inlineData
  }

  /**
   * `getTextToSpeech`: the data and MIME type of the first part of the first
   * candidate; every failure, including a reply without that part, becomes the
   * one generic speech error.
   */
  function GetTextToSpeech(reply: Fetched<SpeechBody>): (r: Result<AudioClip>)
    ensures r.Err? ==> r.message == TTS_ERROR
    ensures r.Ok? <==> reply.Response? && reply.ok && reply.json.Ok? && FirstInlineData(reply.json.value).Some?
  {
    if reply.FetchFailed? || !reply.ok || reply.json.Err? then Err(TTS_ERROR)
    else match FirstInlineData(reply.json.value)
      case None => Err(TTS_ERROR)
      case Some(d) => Ok(AudioClip(d.data, d.mimeType))
  }

  /** The clip is the inline data of the first part of the first candidate, whatever follows it. */
  lemma SpeechFromFirstPart(d: InlineData, parts: seq<Part>, rest: seq<Candidate>)
    ensures var body := SpeechBody(Some([Candidate(Some(Content(Some([Part(Some(d))] + parts))))] + rest));
      GetTextToSpeech(Response(true, Ok(body))) == Ok(AudioClip(d.data, d.mimeType))
  {
  }

  /** No candidates, or a first part without inline data, is the speech error. */
  lemma SpeechWithoutAudio(parts: seq<Part>, rest: seq<Candidate>)
    ensures GetTextToSpeech(Response(true, Ok(SpeechBody(Some([]))))) == Err(TTS_ERROR)
    ensures GetTextToSpeech(Response(true, Ok(SpeechBody(None)))) == Err(TTS_ERROR)
    ensures var body := SpeechBody(Some([Candidate(Some(Content(Some([Part(None)] + parts))))] + rest));
      GetTextToSpeech(Response(true, Ok(body))) == Err(TTS_ERROR)
  {
  }
}
