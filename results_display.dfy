// The results screen: level tabs with their word counts, the active tab and
// its fallback to the first level with words, the word buttons' labels and
// the gate in front of the quiz button.

module ResultsDisplay {

  import opened Types
  import opened JsText
  import GeminiService

  /** The quiz button needs at least this many words over all levels. */
  const QUIZ_MIN_WORDS: nat := 4

  /**
   * `Object.keys(v).find(l => v[l].length > 0)`, the search started at key
   * index `from`: the first key, in key order, whose list is non-empty.
   */
  function FirstNonEmpty(v: Vocabulary, from: nat): (r: Option<string>)
    decreases |v.levels| - from
    ensures r.None? <==> forall i :: from <= i < |v.levels| ==> Lookup(v, v.levels[i].key).value == []
    ensures r.Some? ==> exists i :: (from <= i < |v.levels| && v.levels[i].key == r.value
      && Lookup(v, r.value).value != []
      && forall j :: from <= j < i ==> Lookup(v, v.levels[j].key).value == [])
  {
    if from >= |v.levels| then None
    else
      assert Lookup(v, v.levels[from].key).Some?;
      if Lookup(v, v.levels[from].key).value != [] then Some(v.levels[from].key)
      else FirstNonEmpty(v, from + 1)
  }

  /**
   * The tab the screen settles on: `initialLevel`, unless its list exists and
   * is empty and some level has words, in which case the first such level.
   */
  function InitialTab(v: Vocabulary, initialLevel: string): (r: string)
    ensures Lookup(v, initialLevel) != Some([]) ==> r == initialLevel
    ensures r != initialLevel ==> r != "" && Lookup(v, r).Some? && Lookup(v, r).value != []
  {
    if Lookup(v, initialLevel) == Some([]) && Adopts(FirstNonEmpty(v, 0)) then FirstNonEmpty(v, 0).value
    else initialLevel
  }

  /** `if (firstTabWithContent)`: a found key is taken only when it is truthy, that is non-empty. */
  predicate Adopts(first: Option<string>)
  {
    first.Some? && first.value != ""
  }

  /** What the tab panel shows for a level. */
  datatype LevelContent = EmptyMessage | WordButtons(labels: seq<string>, words: seq<WordData>)

  /** `renderLevelContent(level)`: `v[level] || []`, the empty message for no words, else one button per word. */
  function RenderLevel(v: Vocabulary, level: string): (c: LevelContent)
    ensures c.EmptyMessage? <==> Lookup(v, level).None? || Lookup(v, level).value == []
    ensures c.WordButtons? ==> (c.words == Lookup(v, level).value && |c.labels| == |c.words|
      && forall i :: 0 <= i < |c.words| ==> c.labels[i] == WordLabel(c.words[i].word))
  {
    var words := if Lookup(v, level).Some? then Lookup(v, level).value else [];
    if words == [] then EmptyMessage
    else WordButtons(seq(|words|, i requires 0 <= i < |words| => WordLabel(words[i].word)), words)
  }

  /** `s.split('(')[0]`: everything before the first '('. */
  function BeforeParen(s: string): (r: string)
    ensures |r| <= |s| && r == s[..|r|]
    ensures '(' !in r
    ensures |r| < |s| ==> s[|r|] == '('
  {
    if s == [] || s[0] == '(' then "" else [s[0]] + BeforeParen(s[1..])
  }

  /**
   * `word.split('(')[0].trim()`: the label of a word button, the text before
   * the first '(' with the whitespace around it cut off.
   */
  function WordLabel(word: string): (r: string)
    ensures '(' !in r
    ensures '(' !in word ==> r == Trim(word)
    ensures TrimmedSlice(word, |BeforeParen(word)|, r)
  {
    var p := BeforeParen(word);
    assert '(' !in word ==> p == word;
    LabelIsTrimmedPrefix(word);
    Trim(p)
  }

  /** The trimmed text before the first '(' is a slice of the word with only whitespace cut off. */
  lemma LabelIsTrimmedPrefix(word: string)
    ensures TrimmedSlice(word, |BeforeParen(word)|, Trim(BeforeParen(word)))
  {
    TrimPrefix(word, |BeforeParen(word)|);
  }

  /** `allWords.length >= 4`: the quiz button is shown exactly when the levels hold four words or more between them. */
  function ShowsQuizButton(v: Vocabulary): (shown: bool)
    ensures shown <==> TotalWords(v.levels) >= QUIZ_MIN_WORDS
  {
    |AllWords(v.levels)| >= QUIZ_MIN_WORDS
  }

  /** `{level} ({v[level].length})`: the tabs, in key order, each with its key's list length. */
  function TabLabels(v: Vocabulary): (r: seq<(string, nat)>)
    ensures |r| == |v.levels|
    ensures forall i :: 0 <= i < |r| ==> r[i].0 == v.levels[i].key
    ensures DistinctKeys(v) ==> forall i :: 0 <= i < |r| ==> r[i].1 == |v.levels[i].words|
  {
    LookupEveryEntry(v);
    seq(|v.levels|, i requires 0 <= i < |v.levels| => (v.levels[i].key, |Lookup(v, v.levels[i].key).value|))
  }

  lemma LookupEveryEntry(v: Vocabulary)
    ensures DistinctKeys(v) ==> forall i :: 0 <= i < |v.levels| ==> Lookup(v, v.levels[i].key) == Some(v.levels[i].words)
  {
    if DistinctKeys(v) {
      forall i | 0 <= i < |v.levels| ensures Lookup(v, v.levels[i].key) == Some(v.levels[i].words) {
        LookupEntry(v.levels, i);
      }
    }
  }

  /** The state of the results screen. */
  class ResultsView {
    const vocabularyData: Vocabulary
    const initialLevel: string
    var activeTab: string

    /** `useState(initialLevel)`. */
    constructor(vocabularyData: Vocabulary, initialLevel: string)
      ensures this.vocabularyData == vocabularyData && this.initialLevel == initialLevel
      ensures activeTab == initialLevel
    {
      this.vocabularyData := vocabularyData;
      this.initialLevel := initialLevel;
      activeTab := initialLevel;
    }

    /** The effect: when the initial level's list exists and is empty, move to the first level with words, if any. */
    method ApplyFallback()
      modifies this
      ensures Lookup(vocabularyData, initialLevel) == Some([]) && Adopts(FirstNonEmpty(vocabularyData, 0)) ==>
        activeTab == FirstNonEmpty(vocabularyData, 0).value
      ensures !(Lookup(vocabularyData, initialLevel) == Some([]) && Adopts(FirstNonEmpty(vocabularyData, 0))) ==>
        activeTab == old(activeTab)
    {
      if Lookup(vocabularyData, initialLevel) == Some([]) {
        var first := FirstNonEmpty(vocabularyData, 0);
        if first.Some? && first.value != "" {
          activeTab := first.value;
        }
      }
    }

    /** A click on a tab. */
    method SelectTab(level: string)
      requires level in Keys(vocabularyData)
      modifies this
      ensures activeTab == level
    {
      activeTab := level;
    }

    /** The tab panel. */
    function Content(): LevelContent
      reads this
    {
      RenderLevel(vocabularyData, activeTab)
    }
  }

  /** Mounting the screen and running its effect leaves the tab `InitialTab` picks. */
  method MountResults(v: Vocabulary, initialLevel: string) returns (view: ResultsView)
    ensures fresh(view) && view.vocabularyData == v && view.initialLevel == initialLevel
    ensures view.activeTab == InitialTab(v, initialLevel)
  {
    view := new ResultsView(v, initialLevel);
    view.ApplyFallback();
  }

  /**
   * The fallback lands on a level with words whenever one exists under a
   * non-empty key and the initial level is an empty list; an initial level
   * absent from the object is kept as it is, and so is an empty one when the
   * first level with words has the empty key.
   */
  lemma InitialTabHasWords(v: Vocabulary, initialLevel: string)
    requires DistinctKeys(v)
    ensures Lookup(v, initialLevel).None? ==> InitialTab(v, initialLevel) == initialLevel
    ensures FirstNonEmpty(v, 0) == Some("") ==> InitialTab(v, initialLevel) == initialLevel
    ensures Lookup(v, initialLevel) == Some([]) && (exists i :: 0 <= i < |v.levels| && v.levels[i].words != [])
            && (forall i :: 0 <= i < |v.levels| ==> v.levels[i].key != "") ==>
      RenderLevel(v, InitialTab(v, initialLevel)).WordButtons?
  {
    if Lookup(v, initialLevel) == Some([]) && (exists i :: 0 <= i < |v.levels| && v.levels[i].words != [])
       && (forall i :: 0 <= i < |v.levels| ==> v.levels[i].key != "") {
      FallbackHasWords(v, initialLevel);
    }
  }

  lemma FallbackHasWords(v: Vocabulary, initialLevel: string)
    requires DistinctKeys(v) && Lookup(v, initialLevel) == Some([])
    requires exists i :: 0 <= i < |v.levels| && v.levels[i].words != []
    requires forall i :: 0 <= i < |v.levels| ==> v.levels[i].key != ""
    ensures RenderLevel(v, InitialTab(v, initialLevel)).WordButtons?
  {
    var i :| 0 <= i < |v.levels| && v.levels[i].words != [];
    LookupEntry(v.levels, i);
    var first := FirstNonEmpty(v, 0);
    assert first.Some? by {
      assert Lookup(v, v.levels[i].key).value != [];
    }
    var f :| 0 <= f < |v.levels| && v.levels[f].key == first.value && Lookup(v, first.value).value != [];
    assert Adopts(first);
    assert InitialTab(v, initialLevel) == first.value;
  }

  /**
   * For an analyser result, choosing the selector's beginner level keeps that
   * tab: the level is not a key, so there is no fallback, and the panel shows
   * the empty message.
   */
  lemma BeginnerTabStaysEmpty(fields: map<string, GeminiService.JsonValue>)
    ensures var v := GeminiService.Normalise(fields);
      && InitialTab(v, LEVEL_BEGINNER) == LEVEL_BEGINNER
      && RenderLevel(v, InitialTab(v, LEVEL_BEGINNER)) == EmptyMessage
  {
    GeminiService.NormaliseHasNoBeginner(fields);
  }
}
