// The top-level screen state of the app and the handlers that move it
// between level selection, input, loading, results and quiz.

module App {

  import opened Types
  import opened JsText
  import GeminiService
  import PdfService

  const NO_TEXT_FOUND: string := "متنی برای تحلیل یافت نشد."
  const ANALYSING: string := "هوش مصنوعی در حال تحلیل متن و استخراج واژگان است..."
  const UNKNOWN_ERROR: string := "خطای ناشناخته\U{200C}ای رخ داد."
  const PREPARING_TEXT: string := "در حال آماده\U{200C}سازی متن..."
  const CONVERTING_IMAGE: string := "در حال تبدیل تصویر به متن..."
  const IMAGE_READ_ERROR: string := "خطا در خواندن فایل تصویر."
  const EXTRACTING_PDF: string := "در حال استخراج متن از PDF..."

  /**
   * How the text promise handed to `startProcessing` settled: with a text
   * (`None` for null or undefined), or rejected with an Error's message
   * (`None` when the thrown value is not an Error).
   */
  datatype Settled = Resolved(text: Option<string>) | Rejected(error: Option<string>)

  /** `error instanceof Error ? error.message : "..."`. */
  function ErrorText(error: Option<string>): (m: string)
    ensures error.Some? ==> m == error.value
    ensures error.None? ==> m == UNKNOWN_ERROR
  {
    if error.Some? then error.value else UNKNOWN_ERROR
  }

  /** `!extractedText || extractedText.trim().length === 0`: nothing to analyse. */
  predicate NoText(text: Option<string>)
  {
    text.None? || IsBlank(text.value)
  }

  /** There is nothing to analyse exactly when no text came back or every character of it is whitespace. */
  lemma NoTextIffWhitespace(text: Option<string>)
    ensures NoText(text) <==> text.None? || forall i :: 0 <= i < |text.value| ==> IsJsWhitespace(text.value[i])
  {
    if text.Some? {
      BlankIffAllWhitespace(text.value);
    }
  }

  /** A service outcome as the promise it settles: a text, or a rejection with its message. */
  function AsSettled(r: Result<Option<string>>): Settled
  {
    match r
    case Ok(t) => Resolved(t)
    case Err(m) => Rejected(Some(m))
  }

  /** `vocabularyData ? Object.values(vocabularyData).flat() : []`. */
  function AllWordsOf(v: Option<Vocabulary>): (r: seq<WordData>)
    ensures v.None? ==> r == []
    ensures v.Some? ==> |r| == TotalWords(v.value.levels)
    ensures v.Some? ==> forall w :: w in r <==> exists i :: 0 <= i < |v.value.levels| && w in v.value.levels[i].words
    ensures v.Some? ==> multiset(r) == LevelsMultiset(v.value.levels)
  {
    if v.None? then [] else AllWords(v.value.levels)
  }

  class App {
    var view: AppView
    var selectedLevel: Option<string>
    var vocabularyData: Option<Vocabulary>
    var loadingText: string
    var errorMessage: string
    var selectedWord: Option<WordData>

    /**
     * The results and quiz screens always have a vocabulary, and every
     * vocabulary held came from the analyser, so it has the analyser's keys.
     * Every screen but level selection is reached through `handleLevelSelect`,
     * so a level is chosen on all of them.
     */
    ghost predicate Valid()
      reads this
    {
      && ((view == Results || view == Quiz) ==> vocabularyData.Some?)
      && (vocabularyData.Some? ==> Keys(vocabularyData.value) == GeminiService.ANALYSER_KEYS)
      && (view != LevelSelect ==> selectedLevel.Some?)
      && (selectedLevel.Some? ==> IsLevel(selectedLevel.value))
    }

    /** The state `handleReset` leaves, which is also the initial one. */
    predicate IsReset()
      reads this
    {
      && view == LevelSelect && selectedLevel.None? && vocabularyData.None?
      && loadingText == "" && errorMessage == "" && selectedWord.None?
    }

    /** The results screen is on show: `view === RESULTS && vocabularyData && selectedLevel` (a level is truthy when non-empty). */
    predicate ShowsResults()
      reads this
    {
      view == Results && vocabularyData.Some? && selectedLevel.Some? && selectedLevel.value != ""
    }

    function AllWords(): seq<WordData>
      reads this
    {
      AllWordsOf(vocabularyData)
    }

    constructor()
      ensures Valid() && IsReset()
    {
      view := LevelSelect;
      selectedLevel := None;
      vocabularyData := None;
      loadingText := "";
      errorMessage := "";
      selectedWord := None;
    }

    /** `handleError`: show the message and go back to input; it is called from the input and loading screens. */
    method HandleError(message: string)
      requires Valid() && (view == Input || view == Loading)
      modifies this
      ensures Valid()
      ensures errorMessage == message && view == Input
      ensures selectedLevel == old(selectedLevel) && vocabularyData == old(vocabularyData)
      ensures loadingText == old(loadingText) && selectedWord == old(selectedWord)
    {
      errorMessage := message;
      view := Input;
    }

    /** `handleLevelSelect`. */
    method HandleLevelSelect(level: string)
      requires Valid() && IsLevel(level)
      modifies this
      ensures Valid()
      ensures selectedLevel == Some(level) && view == Input
      ensures vocabularyData == old(vocabularyData) && loadingText == old(loadingText)
      ensures errorMessage == old(errorMessage) && selectedWord == old(selectedWord)
    {
      selectedLevel := Some(level);
      view := Input;
    }

    /** `handleReset`: back to level selection with everything cleared. */
    method HandleReset()
      modifies this
      ensures Valid() && IsReset()
    {
      view := LevelSelect;
      selectedLevel := None;
      vocabularyData := None;
      loadingText := "";
      errorMessage := "";
      selectedWord := None;
    }

    /**
     * The part of `startProcessing` after its awaits: a resolved text goes to
     * `AnalyseText`; a rejection is reported and then everything is reset.
     */
    method FinishProcessing(text: Settled, reply: GeminiService.Fetched<Option<string>>,
                            parse: string -> GeminiService.ParsedJson)
      requires Valid() && view == Loading
      modifies this
      ensures Valid()
      ensures view != Loading
      ensures text.Resolved? && NoText(text.text) ==>
        && view == Input && errorMessage == NO_TEXT_FOUND
        && vocabularyData == old(vocabularyData) && selectedLevel == old(selectedLevel)
        && loadingText == old(loadingText) && selectedWord == old(selectedWord)
      ensures text.Resolved? && !NoText(text.text) && GeminiService.AnalyzeText(reply, parse).Ok? ==>
        && ShowsResults() && vocabularyData == Some(GeminiService.AnalyzeText(reply, parse).value)
        && selectedLevel == old(selectedLevel) && loadingText == ANALYSING
        && errorMessage == old(errorMessage) && selectedWord == old(selectedWord)
      ensures text.Rejected? || (!NoText(text.text) && GeminiService.AnalyzeText(reply, parse).Err?) ==>
        IsReset()
    {
      match text {
        case Rejected(e) =>
          HandleError(ErrorText(e));
          HandleReset();
        case Resolved(t) =>
          AnalyseText(t, GeminiService.AnalyzeText(reply, parse));
      }
    }

    /**
     * A resolved text: none, or only whitespace, is an error that keeps the
     * vocabulary; otherwise the analysis (`analyzeText` of the text) is shown.
     */
    method AnalyseText(text: Option<string>, analysis: Result<Vocabulary>)
      requires Valid() && view == Loading
      requires analysis.Ok? ==> Keys(analysis.value) == GeminiService.ANALYSER_KEYS
      modifies this
      ensures Valid()
      ensures view != Loading
      ensures NoText(text) ==>
        && view == Input && errorMessage == NO_TEXT_FOUND
        && vocabularyData == old(vocabularyData) && selectedLevel == old(selectedLevel)
        && loadingText == old(loadingText) && selectedWord == old(selectedWord)
      ensures !NoText(text) && analysis.Ok? ==>
        && ShowsResults() && vocabularyData == Some(analysis.value)
        && selectedLevel == old(selectedLevel) && loadingText == ANALYSING
        && errorMessage == old(errorMessage) && selectedWord == old(selectedWord)
      ensures !NoText(text) && analysis.Err? ==> IsReset()
    {
      if text.None? || IsBlank(text.value) {
        HandleError(NO_TEXT_FOUND);
        return;
      }
      loadingText := ANALYSING;
      ShowAnalysis(analysis);
    }

    /** `analyzeText` settled: its result is shown, or its error reported and everything reset. */
    method ShowAnalysis(analysis: Result<Vocabulary>)
      requires Valid() && view == Loading
      requires analysis.Ok? ==> Keys(analysis.value) == GeminiService.ANALYSER_KEYS
      modifies this
      ensures Valid()
      ensures analysis.Ok? ==>
        && ShowsResults() && vocabularyData == Some(analysis.value)
        && selectedLevel == old(selectedLevel) && loadingText == old(loadingText)
        && errorMessage == old(errorMessage) && selectedWord == old(selectedWord)
      ensures analysis.Err? ==> IsReset()
    {
      match analysis {
        case Ok(v) =>
          vocabularyData := Some(v);
          view := Results;
        case Err(m) =>
          HandleError(m);
          HandleReset();
      }
    }

    /**
     * `startProcessing`: the loading screen, then the outcome. Its callers
     * are the input screen's handlers, so it starts on the input screen.
     */
    method StartProcessing(text: Settled, reply: GeminiService.Fetched<Option<string>>,
                           parse: string -> GeminiService.ParsedJson)
      requires Valid() && view == Input
      modifies this
      ensures Valid() && view != Loading
      ensures text.Resolved? && NoText(text.text) ==>
        && view == Input && errorMessage == NO_TEXT_FOUND
        && vocabularyData == old(vocabularyData) && selectedLevel == old(selectedLevel)
        && loadingText == old(loadingText) && selectedWord == old(selectedWord)
      ensures text.Resolved? && !NoText(text.text) && GeminiService.AnalyzeText(reply, parse).Ok? ==>
        && ShowsResults() && vocabularyData == Some(GeminiService.AnalyzeText(reply, parse).value)
        && selectedLevel == old(selectedLevel) && loadingText == ANALYSING
        && errorMessage == old(errorMessage) && selectedWord == old(selectedWord)
      ensures text.Rejected? || (!NoText(text.text) && GeminiService.AnalyzeText(reply, parse).Err?) ==>
        IsReset()
    {
      view := Loading;
      FinishProcessing(text, reply, parse);
    }

    /** `handleProcessText`, the input screen's text button. */
    method HandleProcessText(text: string, reply: GeminiService.Fetched<Option<string>>,
                             parse: string -> GeminiService.ParsedJson)
      requires Valid() && view == Input
      modifies this
      ensures Valid() && view != Loading
      ensures IsBlank(text) ==>
        view == Input && errorMessage == NO_TEXT_FOUND && loadingText == PREPARING_TEXT
        && vocabularyData == old(vocabularyData) && selectedLevel == old(selectedLevel)
      ensures !IsBlank(text) && GeminiService.AnalyzeText(reply, parse).Ok? ==>
        && ShowsResults() && vocabularyData == Some(GeminiService.AnalyzeText(reply, parse).value)
        && selectedLevel == old(selectedLevel) && loadingText == ANALYSING
      ensures !IsBlank(text) && GeminiService.AnalyzeText(reply, parse).Err? ==> IsReset()
    {
      loadingText := PREPARING_TEXT;
      StartProcessing(Resolved(Some(text)), reply, parse);
    }

    /**
     * `handleProcessImage`: `fileRead` says whether the reader could read the
     * image; `imageReply` is the relay's answer to the image-to-text call.
     * A read failure is reported without the loading screen.
     */
    method HandleProcessImage(fileRead: bool, imageReply: GeminiService.Fetched<Option<string>>,
                              reply: GeminiService.Fetched<Option<string>>, parse: string -> GeminiService.ParsedJson)
      requires Valid() && view == Input
      modifies this
      ensures Valid() && view != Loading
      ensures !fileRead ==>
        view == Input && errorMessage == IMAGE_READ_ERROR && loadingText == CONVERTING_IMAGE
        && vocabularyData == old(vocabularyData) && selectedLevel == old(selectedLevel)
      ensures fileRead && GeminiService.ExtractTextFromImage(imageReply).Err? ==> IsReset()
      ensures fileRead && GeminiService.ExtractTextFromImage(imageReply).Ok?
              && NoText(GeminiService.ExtractTextFromImage(imageReply).value) ==>
        view == Input && errorMessage == NO_TEXT_FOUND && loadingText == CONVERTING_IMAGE
        && vocabularyData == old(vocabularyData) && selectedLevel == old(selectedLevel)
      ensures fileRead && GeminiService.ExtractTextFromImage(imageReply).Ok?
              && !NoText(GeminiService.ExtractTextFromImage(imageReply).value)
              && GeminiService.AnalyzeText(reply, parse).Ok? ==>
        && ShowsResults() && vocabularyData == Some(GeminiService.AnalyzeText(reply, parse).value)
        && selectedLevel == old(selectedLevel) && loadingText == ANALYSING
      ensures fileRead && GeminiService.ExtractTextFromImage(imageReply).Ok?
              && !NoText(GeminiService.ExtractTextFromImage(imageReply).value)
              && GeminiService.AnalyzeText(reply, parse).Err? ==>
        IsReset()
    {
      loadingText := CONVERTING_IMAGE;
      if !fileRead {
        HandleError(IMAGE_READ_ERROR);
      } else {
        StartProcessing(AsSettled(GeminiService.ExtractTextFromImage(imageReply)), reply, parse);
      }
    }

    /** `handleProcessPdf`: the pages' text, or the extractor's error, goes to `startProcessing`. */
    method HandleProcessPdf(file: PdfService.FileRead, startPage: int, endPage: int,
                            reply: GeminiService.Fetched<Option<string>>, parse: string -> GeminiService.ParsedJson)
      requires Valid() && view == Input
      modifies this
      ensures Valid() && view != Loading
      ensures PdfService.Extraction(file, startPage, endPage).Err? ==> IsReset()
      ensures PdfService.Extraction(file, startPage, endPage).Ok?
              && IsBlank(PdfService.Extraction(file, startPage, endPage).value) ==>
        view == Input && errorMessage == NO_TEXT_FOUND && loadingText == EXTRACTING_PDF
        && vocabularyData == old(vocabularyData) && selectedLevel == old(selectedLevel)
      ensures PdfService.Extraction(file, startPage, endPage).Ok?
              && !IsBlank(PdfService.Extraction(file, startPage, endPage).value)
              && GeminiService.AnalyzeText(reply, parse).Ok? ==>
        && ShowsResults() && vocabularyData == Some(GeminiService.AnalyzeText(reply, parse).value)
        && selectedLevel == old(selectedLevel) && loadingText == ANALYSING
      ensures PdfService.Extraction(file, startPage, endPage).Ok?
              && !IsBlank(PdfService.Extraction(file, startPage, endPage).value)
              && GeminiService.AnalyzeText(reply, parse).Err? ==>
        IsReset()
    {
      loadingText := EXTRACTING_PDF;
      var extracted;
      ghost var visited;
      extracted, visited := PdfService.ExtractTextFromPdf(file, startPage, endPage);
      var settled := match extracted {
        case Ok(s) => Resolved(Some(s))
        case Err(m) => Rejected(Some(m))
      };
      StartProcessing(settled, reply, parse);
    }

    /** `handleStartQuiz`, from the results screen's quiz button. */
    method HandleStartQuiz()
      requires Valid() && ShowsResults()
      modifies this
      ensures Valid()
      ensures view == Quiz && AllWords() == old(AllWords())
      ensures vocabularyData == old(vocabularyData) && selectedLevel == old(selectedLevel)
      ensures loadingText == old(loadingText) && errorMessage == old(errorMessage) && selectedWord == old(selectedWord)
    {
      view := Quiz;
    }

    /** `handleQuizEnd`, from the quiz's back button. */
    method HandleQuizEnd()
      requires Valid() && view == Quiz
      modifies this
      ensures Valid()
      ensures view == Results && vocabularyData == old(vocabularyData) && selectedLevel == old(selectedLevel)
      ensures loadingText == old(loadingText) && errorMessage == old(errorMessage) && selectedWord == old(selectedWord)
    {
      view := Results;
    }

    /** `setSelectedWord`: a word button opens the word dialog, closing it clears the word. */
    method SelectWord(word: Option<WordData>)
      requires Valid()
      modifies this
      ensures Valid() && selectedWord == word
      ensures view == old(view) && vocabularyData == old(vocabularyData) && selectedLevel == old(selectedLevel)
      ensures loadingText == old(loadingText) && errorMessage == old(errorMessage)
    {
      selectedWord := word;
    }
  }

  /** A key is found exactly when it is one of the object's keys. */
  lemma LookupFindsKeys(v: Vocabulary, key: string)
    ensures Lookup(v, key).Some? <==> key in Keys(v)
  {
    if key in Keys(v) {
      var i :| 0 <= i < |Keys(v)| && Keys(v)[i] == key;
      assert v.levels[i].key == key;
    }
  }

  /**
   * Whatever the app has analysed, the level the selector calls beginner has
   * no list in it: choosing that level always leads to an empty tab.
   */
  lemma BeginnerLevelNeverFound(app: App)
    requires app.Valid() && app.vocabularyData.Some?
    ensures Lookup(app.vocabularyData.value, LEVEL_BEGINNER).None?
    ensures Lookup(app.vocabularyData.value, LEVEL_SPECIALIST).Some?
  {
    var v := app.vocabularyData.value;
    LookupFindsKeys(v, LEVEL_BEGINNER);
    LookupFindsKeys(v, LEVEL_SPECIALIST);
    assert Keys(v)[0] == LEVEL_SPECIALIST;
    assert LEVEL_BEGINNER != LEVEL_SPECIALIST && LEVEL_BEGINNER != LEVEL_INTERMEDIATE;
    assert |LEVEL_BEGINNER| == 7 && |LEVEL_ADVANCED| == 7 && LEVEL_BEGINNER[0] != LEVEL_ADVANCED[0];
  }
}
