// Shared data model of the vocabulary app: the word records produced by the
// analyser, the leveled vocabulary, the view enumeration and quiz questions.

module Types {

  datatype Option<+T> = None | Some(value: T)

  datatype Result<+T> = Ok(value: T) | Err(message: string)

  /** One vocabulary entry as the analyser returns it. */
  datatype WordData = WordData(
    word: string,
    pronunciation: string,
    literalMeaning: string,
    definition: string,
    example: string,
    exampleTranslation: string)

  /** One key of the vocabulary object and the word list stored under it. */
  datatype LevelList = LevelList(key: string, words: seq<WordData>)

  /**
   * The vocabulary object. A JavaScript object keeps its keys in insertion
   * order, and both the tab bar and the flattening of all words follow that
   * order, so the object is an ordered list of (key, words) pairs.
   */
  datatype Vocabulary = Vocabulary(levels: seq<LevelList>)

  /** The level keys offered by the level selector (and declared in the Level type). */
  const LEVEL_BEGINNER: string := "مقدماتی"
  const LEVEL_INTERMEDIATE: string := "متوسط"
  const LEVEL_ADVANCED: string := "پیشرفته"

  /** The `Level` type: one of the selector's three levels. */
  predicate IsLevel(s: string)
  {
    s == LEVEL_BEGINNER || s == LEVEL_INTERMEDIATE || s == LEVEL_ADVANCED
  }

  /** The first key the analyser asks for and stores; it is not one of the selector's levels. */
  const LEVEL_SPECIALIST: string := "اختصاصی"

  datatype AppView = LevelSelect | Input | Loading | Results | Quiz

  datatype QuizOption = QuizOption(text: string, correct: bool)

  datatype QuizQuestion = QuizQuestion(word: string, options: seq<QuizOption>, definition: string)

  /** `vocabularyData[key]`: the list stored under the first matching key, or undefined. */
  function Lookup(v: Vocabulary, key: string): (r: Option<seq<WordData>>)
    ensures r.None? <==> forall i :: 0 <= i < |v.levels| ==> v.levels[i].key != key
    ensures r.Some? ==> exists i :: 0 <= i < |v.levels| && v.levels[i] == LevelList(key, r.value)
  {
    LookupFrom(v.levels, key)
  }

  function LookupFrom(levels: seq<LevelList>, key: string): (r: Option<seq<WordData>>)
    ensures r.None? <==> forall i :: 0 <= i < |levels| ==> levels[i].key != key
    ensures r.Some? ==> exists i :: 0 <= i < |levels| && levels[i] == LevelList(key, r.value)
  {
    if levels == [] then None
    else if levels[0].key == key then Some(levels[0].words)
    else
      var r := LookupFrom(levels[1..], key);
      assert forall i :: 1 <= i < |levels| ==> levels[i] == levels[1..][i - 1];
      r
  }

  /** An object's keys are distinct. */
  predicate DistinctKeys(v: Vocabulary)
  {
    forall i, j :: 0 <= i < j < |v.levels| ==> v.levels[i].key != v.levels[j].key
  }

  /** With distinct keys, looking up the key of an entry finds that entry's list. */
  lemma {:induction false} LookupEntry(levels: seq<LevelList>, i: nat)
    requires i < |levels|
    requires forall a, b :: 0 <= a < b < |levels| ==> levels[a].key != levels[b].key
    ensures LookupFrom(levels, levels[i].key) == Some(levels[i].words)
  {
    if i > 0 {
      assert levels[0].key != levels[i].key;
      assert levels[1..][i - 1] == levels[i];
      LookupEntry(levels[1..], i - 1);
    }
  }

  /** `Object.keys(vocabularyData)`, in insertion order. */
  function Keys(v: Vocabulary): (r: seq<string>)
    ensures |r| == |v.levels| && forall i :: 0 <= i < |r| ==> r[i] == v.levels[i].key
  {
    seq(|v.levels|, i requires 0 <= i < |v.levels| => v.levels[i].key)
  }

  /** `Object.values(vocabularyData).flat()`: every level's words, in key order. */
  function AllWords(levels: seq<LevelList>): (r: seq<WordData>)
    ensures |r| == TotalWords(levels)
    ensures forall i, j :: 0 <= i < |levels| && 0 <= j < |levels[i].words| ==> levels[i].words[j] in r
    ensures forall w :: w in r ==> exists i :: 0 <= i < |levels| && w in levels[i].words
    ensures |levels| == 1 ==> r == levels[0].words
    ensures multiset(r) == LevelsMultiset(levels)
  {
    if levels == [] then []
    else
      var rest := AllWords(levels[1..]);
      assert forall i :: 1 <= i < |levels| ==> levels[i] == levels[1..][i - 1];
      levels[0].words + rest
  }

  /** Flattening keeps the key order: the words of earlier levels come first. */
  lemma {:induction false} AllWordsConcat(a: seq<LevelList>, b: seq<LevelList>)
    ensures AllWords(a + b) == AllWords(a) + AllWords(b)
  {
    if a == [] {
      assert a + b == b;
    } else {
      assert (a + b)[0] == a[0] && (a + b)[1..] == a[1..] + b;
      AllWordsConcat(a[1..], b);
    }
  }

  /** Every level's words, counted with their multiplicity. */
  ghost function LevelsMultiset(levels: seq<LevelList>): multiset<WordData>
  {
    if levels == [] then multiset{} else multiset(levels[0].words) + LevelsMultiset(levels[1..])
  }

  function TotalWords(levels: seq<LevelList>): nat
  {
    if levels == [] then 0 else |levels[0].words| + TotalWords(levels[1..])
  }
}
