// The quiz screen: question generation from the word list (the random
// comparators of the source become explicit choice sequences) and the
// session that scores answers, advances and restarts.

module Quiz {

  import opened Types

  // ------------------------------------------------------------ shuffling

  /**
   * An arrangement of `xs` chosen by `picks`: the first element is the one at
   * `picks[0]` (taken modulo the number left), then the rest is arranged by
   * the remaining picks; missing picks choose the first element. Every
   * permutation is reachable (`ShuffleReachesEvery`), and nothing more is
   * assumed about a sort with a random comparator.
   */
  function Shuffle<T>(xs: seq<T>, picks: seq<nat>): (r: seq<T>)
    ensures |r| == |xs|
    decreases |xs|
  {
    if xs == [] then []
    else
      var k := Head(picks) % |xs|;
      [xs[k]] + Shuffle(xs[..k] + xs[k + 1..], Tail(picks))
  }

  /** Whatever the picks, the arrangement is a permutation: the same elements, each as often. */
  lemma {:induction false} ShufflePermutes<T>(xs: seq<T>, picks: seq<nat>)
    ensures multiset(Shuffle(xs, picks)) == multiset(xs)
    decreases |xs|
  {
    if xs != [] {
      var k := Head(picks) % |xs|;
      var rest := xs[..k] + xs[k + 1..];
      ShufflePermutes(rest, Tail(picks));
      assert xs == xs[..k] + [xs[k]] + xs[k + 1..];
      assert Shuffle(xs, picks) == [xs[k]] + Shuffle(rest, Tail(picks));
    }
  }

  function Head(picks: seq<nat>): nat
  {
    if picks == [] then 0 else picks[0]
  }

  function Tail(picks: seq<nat>): seq<nat>
  {
    if picks == [] then [] else picks[1..]
  }

  /** Every rearrangement of `xs` is `Shuffle(xs, picks)` for some choice of picks. */
  lemma ShuffleReachesEvery<T>(xs: seq<T>, r: seq<T>)
    requires multiset(r) == multiset(xs)
    ensures exists picks :: Shuffle(xs, picks) == r
  {
    var picks := PicksFor(xs, r);
  }

  /** The picks that produce a given rearrangement: at each step, the position of the element wanted next. */
  lemma {:induction false} PicksFor<T>(xs: seq<T>, r: seq<T>) returns (picks: seq<nat>)
    requires multiset(r) == multiset(xs)
    ensures Shuffle(xs, picks) == r
    decreases |xs|
  {
    if xs == [] {
      assert |r| == |multiset(r)| == 0;
      picks := [];
    } else {
      assert |r| == |multiset(r)| == |multiset(xs)| == |xs|;
      var k := IndexOf(xs, r[0]);
      RemoveMatching(xs, r, k);
      var tail := PicksFor(xs[..k] + xs[k + 1..], r[1..]);
      ShuffleFirst(xs, k, tail);
      picks := [k] + tail;
      assert r == [r[0]] + r[1..];
    }
  }

  /** A position at which an element of `xs` occurs. */
  lemma IndexOf<T>(xs: seq<T>, x: T) returns (k: nat)
    requires x in multiset(xs)
    ensures k < |xs| && xs[k] == x
  {
    k :| 0 <= k < |xs| && xs[k] == x;
  }

  /** Leading with pick `k` puts `xs[k]` first and arranges the rest by the remaining picks. */
  lemma ShuffleFirst<T>(xs: seq<T>, k: nat, tail: seq<nat>)
    requires k < |xs|
    ensures Shuffle(xs, [k] + tail) == [xs[k]] + Shuffle(xs[..k] + xs[k + 1..], tail)
  {
    var picks := [k] + tail;
    assert picks[0] == k && picks[1..] == tail;
    ModSmall(k, |xs|);
  }

  lemma ModSmall(k: nat, n: nat)
    requires k < n
    ensures k % n == k
  {
  }

  /** Taking the same element off both of two rearrangements leaves rearrangements. */
  lemma RemoveMatching<T>(xs: seq<T>, r: seq<T>, k: nat)
    requires multiset(r) == multiset(xs) && k < |xs| && r != [] && xs[k] == r[0]
    ensures multiset(r[1..]) == multiset(xs[..k] + xs[k + 1..])
  {
    assert r == [r[0]] + r[1..];
    assert xs == xs[..k] + [xs[k]] + xs[k + 1..];
    assert multiset(r[1..]) == multiset(r) - multiset{r[0]};
    assert multiset(xs[..k] + xs[k + 1..]) == multiset(xs) - multiset{xs[k]};
  }

  /** How many elements satisfy `p`. */
  function CountWhere<T>(s: seq<T>, p: T -> bool): nat
  {
    if s == [] then 0 else (if p(s[0]) then 1 else 0) + CountWhere(s[1..], p)
  }

  lemma {:induction false} CountConcat<T>(a: seq<T>, b: seq<T>, p: T -> bool)
    ensures CountWhere(a + b, p) == CountWhere(a, p) + CountWhere(b, p)
  {
    if a != [] {
      assert (a + b)[0] == a[0] && (a + b)[1..] == a[1..] + b;
      CountConcat(a[1..], b, p);
    } else {
      assert a + b == b;
    }
  }

  /** Rearranging keeps the number of elements with any property. */
  lemma {:induction false} ShuffleCount<T>(xs: seq<T>, picks: seq<nat>, p: T -> bool)
    ensures CountWhere(Shuffle(xs, picks), p) == CountWhere(xs, p)
    decreases |xs|
  {
    if xs != [] {
      var k := Head(picks) % |xs|;
      var rest := xs[..k] + xs[k + 1..];
      var s := Shuffle(xs, picks);
      ShuffleCount(rest, Tail(picks), p);
      CountRemove(xs, k, p);
      assert s[0] == xs[k] && s[1..] == Shuffle(rest, Tail(picks));
    }
  }

  /** Removing one element removes its contribution to the count. */
  lemma CountRemove<T>(xs: seq<T>, k: nat, p: T -> bool)
    requires k < |xs|
    ensures CountWhere(xs, p) == (if p(xs[k]) then 1 else 0) + CountWhere(xs[..k] + xs[k + 1..], p)
  {
    CountConcat(xs[..k], xs[k + 1..], p);
    CountConcat(xs[..k], [xs[k]] + xs[k + 1..], p);
    CountConcat([xs[k]], xs[k + 1..], p);
    assert xs == xs[..k] + ([xs[k]] + xs[k + 1..]);
  }

  /** A count of one means exactly one position satisfies `p`. */
  lemma {:induction false} ExactlyOneAt<T>(s: seq<T>, p: T -> bool)
    requires CountWhere(s, p) == 1
    ensures exists i :: 0 <= i < |s| && p(s[i]) && forall j :: 0 <= j < |s| && p(s[j]) ==> j == i
  {
    if p(s[0]) {
      NoneWhenZero(s[1..], p);
      assert forall j :: 1 <= j < |s| ==> s[j] == s[1..][j - 1];
    } else {
      ExactlyOneAt(s[1..], p);
      var i :| 0 <= i < |s[1..]| && p(s[1..][i]) && forall j :: 0 <= j < |s[1..]| && p(s[1..][j]) ==> j == i;
      assert forall j :: 1 <= j < |s| ==> s[j] == s[1..][j - 1];
      assert p(s[i + 1]);
    }
  }

  lemma {:induction false} NoneWhenZero<T>(s: seq<T>, p: T -> bool)
    requires CountWhere(s, p) == 0
    ensures forall j :: 0 <= j < |s| ==> !p(s[j])
  {
    if s != [] {
      NoneWhenZero(s[1..], p);
      assert forall j :: 1 <= j < |s| ==> s[j] == s[1..][j - 1];
    }
  }

  /** `xs.map(f)`. */
  function MapSeq<T, U>(xs: seq<T>, f: T -> U): (r: seq<U>)
    ensures |r| == |xs| && forall i :: 0 <= i < |xs| ==> r[i] == f(xs[i])
  {
    seq(|xs|, i requires 0 <= i < |xs| => f(xs[i]))
  }

  lemma MapConcat<T, U>(a: seq<T>, b: seq<T>, f: T -> U)
    ensures MapSeq(a + b, f) == MapSeq(a, f) + MapSeq(b, f)
  {
  }

  /** Rearranging and then mapping is mapping and then rearranging with the same picks. */
  lemma {:induction false} ShuffleMap<T, U>(xs: seq<T>, picks: seq<nat>, f: T -> U)
    ensures MapSeq(Shuffle(xs, picks), f) == Shuffle(MapSeq(xs, f), picks)
    decreases |xs|
  {
    if xs != [] {
      var k := Head(picks) % |xs|;
      var rest := xs[..k] + xs[k + 1..];
      var ys := MapSeq(xs, f);
      var shuffledRest := Shuffle(rest, Tail(picks));
      assert Shuffle(xs, picks) == [xs[k]] + shuffledRest;
      assert Shuffle(ys, picks) == [ys[k]] + Shuffle(ys[..k] + ys[k + 1..], Tail(picks));
      MapConcat(xs[..k], xs[k + 1..], f);
      assert MapSeq(xs[..k], f) == ys[..k] && MapSeq(xs[k + 1..], f) == ys[k + 1..];
      ShuffleMap(rest, Tail(picks), f);
      MapConcat([xs[k]], shuffledRest, f);
    }
  }

  // ------------------------------------------------------------ questions

  function Min(a: int, b: int): int
  {
    if a <= b then a else b
  }

  /** `words.filter(w => w.word !== word)`. */
  function DifferentWord(words: seq<WordData>, word: string): (r: seq<WordData>)
    ensures forall d :: d in r <==> d in words && d.word != word
    ensures |r| <= |words|
  {
    if words == [] then []
    else (if words[0].word != word then [words[0]] else []) + DifferentWord(words[1..], word)
  }

  /**
   * The filter keeps each entry with a different word as often as it occurs
   * and drops the others, so its length is the number of such entries.
   */
  lemma {:induction false} DifferentWordCounts(words: seq<WordData>, word: string)
    ensures var r := DifferentWord(words, word);
      && (forall d :: multiset(r)[d] == if d.word != word then multiset(words)[d] else 0)
      && |r| == CountWhere(words, (w: WordData) => w.word != word)
  {
    if words != [] {
      assert words == [words[0]] + words[1..];
      DifferentWordCounts(words[1..], word);
    }
  }

  /** The distractor entries: the other words rearranged, then `.slice(0, 3)`. */
  function Distractors(words: seq<WordData>, word: string, picks: seq<nat>): seq<WordData>
  {
    var others := DifferentWord(words, word);
    Shuffle(others, picks)[..Min(3, |others|)]
  }

  /** The options before the final rearrangement: the correct definition, then one wrong option per distractor. */
  function OptionPool(entry: WordData, distractors: seq<WordData>): seq<QuizOption>
  {
    [QuizOption(entry.definition, true)] + MapSeq(distractors, WrongOption)
  }

  function WrongOption(d: WordData): QuizOption
  {
    QuizOption(d.definition, false)
  }

  /** The question `generateQuiz` builds for one entry. */
  function MakeQuestion(words: seq<WordData>, entry: WordData, dPicks: seq<nat>, oPicks: seq<nat>): (q: QuizQuestion)
    ensures q.word == entry.word && q.definition == entry.definition
    ensures |q.options| == 1 + Min(3, |DifferentWord(words, entry.word)|)
  {
    var pool := OptionPool(entry, Distractors(words, entry.word, dPicks));
    QuizQuestion(entry.word, Shuffle(pool, oPicks), entry.definition)
  }

  function PicksAt(picks: seq<seq<nat>>, i: nat): seq<nat>
  {
    if i < |picks| then picks[i] else []
  }

  /**
   * `generateQuiz`: the words rearranged by `order`, one question per word;
   * `dPicks[i]` and `oPicks[i]` rearrange the distractors and options of the
   * i-th question.
   */
  function GenerateQuiz(words: seq<WordData>, order: seq<nat>, dPicks: seq<seq<nat>>, oPicks: seq<seq<nat>>)
    : (r: seq<QuizQuestion>)
    ensures |r| == |words|
  {
    var shuffled := Shuffle(words, order);
    seq(|shuffled|, i requires 0 <= i < |shuffled| =>
      MakeQuestion(words, shuffled[i], PicksAt(dPicks, i), PicksAt(oPicks, i)))
  }

  predicate IsCorrect(o: QuizOption)
  {
    o.correct
  }

  /**
   * What a question built from `entry` looks like: its word and definition,
   * exactly one correct option carrying the definition, one more option per
   * available distractor up to three, and every wrong option the definition of
   * an entry with a different word.
   */
  ghost predicate WellFormed(words: seq<WordData>, entry: WordData, q: QuizQuestion)
  {
    && q.word == entry.word
    && q.definition == entry.definition
    && |q.options| == 1 + Min(3, |DifferentWord(words, entry.word)|)
    && (exists i :: 0 <= i < |q.options| && q.options[i].correct
          && forall j :: 0 <= j < |q.options| && q.options[j].correct ==> j == i)
    && (forall i :: 0 <= i < |q.options| && q.options[i].correct ==> q.options[i].text == entry.definition)
    && (forall i :: 0 <= i < |q.options| && !q.options[i].correct ==>
          exists w :: w in words && w.word != entry.word && q.options[i].text == w.definition)
  }

  /** The question asks about some entry of the list and is well formed for it. */
  ghost predicate AskedFrom(words: seq<WordData>, q: QuizQuestion)
  {
    exists e :: e in words && WellFormed(words, e, q)
  }

  /** Every question is well formed for some entry of the list. */
  ghost predicate AllWellFormed(words: seq<WordData>, questions: seq<QuizQuestion>)
  {
    forall i :: 0 <= i < |questions| ==> AskedFrom(words, questions[i])
  }

  /** In a list of well-formed questions, a correct option's text is its question's definition. */
  lemma CorrectOptionText(words: seq<WordData>, questions: seq<QuizQuestion>, i: nat, o: QuizOption)
    requires AllWellFormed(words, questions) && i < |questions| && o in questions[i].options
    ensures o.correct ==> o.text == questions[i].definition
  {
    var e :| e in words && WellFormed(words, e, questions[i]);
    var k :| 0 <= k < |questions[i].options| && questions[i].options[k] == o;
  }

  /** The chosen distractors are up to three distinct entries, all with a word different from the question's. */
  lemma DistractorsChosen(words: seq<WordData>, word: string, picks: seq<nat>)
    ensures var ds := Distractors(words, word, picks);
      && |ds| == Min(3, |DifferentWord(words, word)|)
      && multiset(ds) <= multiset(DifferentWord(words, word))
      && forall d :: d in ds ==> d in words && d.word != word
  {
    var others := DifferentWord(words, word);
    var s := Shuffle(others, picks);
    var m := Min(3, |others|);
    ShufflePermutes(others, picks);
    assert s == s[..m] + s[m..];
    assert multiset(s[..m]) <= multiset(s);
    forall d | d in s[..m] ensures d in words && d.word != word {
      assert d in multiset(s);
    }
  }

  /** Exactly one option of a rearranged pool is correct: the pool has one correct option and wrong ones. */
  lemma OneCorrectOption(entry: WordData, ds: seq<WordData>, oPicks: seq<nat>)
    ensures var opts := Shuffle(OptionPool(entry, ds), oPicks);
      exists i :: 0 <= i < |opts| && opts[i].correct && forall j :: 0 <= j < |opts| && opts[j].correct ==> j == i
  {
    var pool := OptionPool(entry, ds);
    var first := [QuizOption(entry.definition, true)];
    var wrong := MapSeq(ds, WrongOption);
    NoneWhenZeroFalse(wrong);
    assert first[1..] == [];
    assert CountWhere(first, IsCorrect) == 1;
    CountConcat(first, wrong, IsCorrect);
    assert CountWhere(pool, IsCorrect) == 1;
    ShuffleCount(pool, oPicks, IsCorrect);
    ExactlyOneAt(Shuffle(pool, oPicks), IsCorrect);
  }

  /** A pool option is the correct definition, or a wrong option with a distractor's definition. */
  lemma PoolOption(words: seq<WordData>, entry: WordData, ds: seq<WordData>, o: QuizOption)
    requires forall d :: d in ds ==> d in words && d.word != entry.word
    requires o in OptionPool(entry, ds)
    ensures o.correct ==> o.text == entry.definition
    ensures !o.correct ==> exists w :: w in words && w.word != entry.word && o.text == w.definition
  {
    var pool := OptionPool(entry, ds);
    var j :| 0 <= j < |pool| && pool[j] == o;
    if j > 0 {
      assert pool[j] == WrongOption(ds[j - 1]);
      assert ds[j - 1] in ds;
    }
  }

  /** A correct option carries the entry's definition; a wrong one the definition of a distractor. */
  lemma OptionTexts(words: seq<WordData>, entry: WordData, ds: seq<WordData>, oPicks: seq<nat>)
    requires forall d :: d in ds ==> d in words && d.word != entry.word
    ensures var opts := Shuffle(OptionPool(entry, ds), oPicks);
      && (forall i :: 0 <= i < |opts| && opts[i].correct ==> opts[i].text == entry.definition)
      && (forall i :: 0 <= i < |opts| && !opts[i].correct ==>
            exists w :: w in words && w.word != entry.word && opts[i].text == w.definition)
  {
    var pool := OptionPool(entry, ds);
    var opts := Shuffle(pool, oPicks);
    ShufflePermutes(pool, oPicks);
    forall i | 0 <= i < |opts|
      ensures opts[i].correct ==> opts[i].text == entry.definition
      ensures !opts[i].correct ==> exists w :: w in words && w.word != entry.word && opts[i].text == w.definition
    {
      assert opts[i] in multiset(pool);
      PoolOption(words, entry, ds, opts[i]);
    }
  }

  /**
   * Every question `MakeQuestion` builds is well formed for its entry, and its
   * options are a rearrangement of the correct option and one wrong option per
   * chosen distractor.
   */
  lemma MakeQuestionWellFormed(words: seq<WordData>, entry: WordData, dPicks: seq<nat>, oPicks: seq<nat>)
    ensures WellFormed(words, entry, MakeQuestion(words, entry, dPicks, oPicks))
    ensures multiset(MakeQuestion(words, entry, dPicks, oPicks).options)
         == multiset(OptionPool(entry, Distractors(words, entry.word, dPicks)))
  {
    var ds := Distractors(words, entry.word, dPicks);
    DistractorsChosen(words, entry.word, dPicks);
    ShufflePermutes(OptionPool(entry, ds), oPicks);
    OneCorrectOption(entry, ds, oPicks);
    OptionTexts(words, entry, ds, oPicks);
  }

  lemma NoneWhenZeroFalse(wrong: seq<QuizOption>)
    requires forall i :: 0 <= i < |wrong| ==> !wrong[i].correct
    ensures CountWhere(wrong, IsCorrect) == 0
    decreases |wrong|
  {
    if wrong != [] {
      NoneWhenZeroFalse(wrong[1..]);
    }
  }

  /** Cue of a question and of an entry: the word asked and the definition expected. */
  function QuestionCue(q: QuizQuestion): (string, string)
  {
    (q.word, q.definition)
  }

  function EntryCue(w: WordData): (string, string)
  {
    (w.word, w.definition)
  }

  /**
   * `generateQuiz` asks about every entry exactly once: the (word, definition)
   * pairs of the questions are a rearrangement of those of the entries, and
   * each question is well formed for the entry it comes from.
   */
  lemma GenerateQuizCovers(words: seq<WordData>, order: seq<nat>, dPicks: seq<seq<nat>>, oPicks: seq<seq<nat>>)
    ensures var qs := GenerateQuiz(words, order, dPicks, oPicks);
      && |qs| == |words|
      && multiset(MapSeq(qs, QuestionCue)) == multiset(MapSeq(words, EntryCue))
      && AllWellFormed(words, qs)
  {
    QuizCues(words, order, dPicks, oPicks);
    QuizWellFormed(words, order, dPicks, oPicks);
  }

  lemma QuizCues(words: seq<WordData>, order: seq<nat>, dPicks: seq<seq<nat>>, oPicks: seq<seq<nat>>)
    ensures multiset(MapSeq(GenerateQuiz(words, order, dPicks, oPicks), QuestionCue)) == multiset(MapSeq(words, EntryCue))
  {
    var qs := GenerateQuiz(words, order, dPicks, oPicks);
    var shuffled := Shuffle(words, order);
    assert MapSeq(qs, QuestionCue) == MapSeq(shuffled, EntryCue);
    ShuffleMap(words, order, EntryCue);
    ShufflePermutes(MapSeq(words, EntryCue), order);
  }

  lemma QuizWellFormed(words: seq<WordData>, order: seq<nat>, dPicks: seq<seq<nat>>, oPicks: seq<seq<nat>>)
    ensures AllWellFormed(words, GenerateQuiz(words, order, dPicks, oPicks))
  {
    var qs := GenerateQuiz(words, order, dPicks, oPicks);
    forall i | 0 <= i < |qs| ensures AskedFrom(words, qs[i]) {
      QuestionAt(words, order, dPicks, oPicks, i);
    }
  }

  /** The question at position `i` is built from the entry the shuffle put there. */
  lemma QuestionAt(words: seq<WordData>, order: seq<nat>, dPicks: seq<seq<nat>>, oPicks: seq<seq<nat>>, i: nat)
    requires i < |words|
    ensures AskedFrom(words, GenerateQuiz(words, order, dPicks, oPicks)[i])
  {
    var shuffled := Shuffle(words, order);
    var e := shuffled[i];
    MakeQuestionWellFormed(words, e, PicksAt(dPicks, i), PicksAt(oPicks, i));
    ShufflePermutes(words, order);
    assert e in multiset(shuffled);
    assert e in words && WellFormed(words, e, GenerateQuiz(words, order, dPicks, oPicks)[i]);
  }

  // ------------------------------------------------------------ scoring

  /** How many answers were right. */
  function CountTrue(answers: seq<bool>): nat
  {
    if answers == [] then 0
    else CountTrue(answers[..|answers| - 1]) + (if answers[|answers| - 1] then 1 else 0)
  }

  /** The questions answered wrongly, in answer order: the i-th answer is about the i-th question. */
  function Missed(questions: seq<QuizQuestion>, answers: seq<bool>): seq<QuizQuestion>
    requires |answers| <= |questions|
  {
    if answers == [] then []
    else
      var last := |answers| - 1;
      Missed(questions, answers[..last]) + (if answers[last] then [] else [questions[last]])
  }

  /** One more answer adds to the score or to the missed list, about the next question. */
  lemma RecordAnswer(questions: seq<QuizQuestion>, answers: seq<bool>, correct: bool)
    requires |answers| < |questions|
    ensures CountTrue(answers + [correct]) == CountTrue(answers) + (if correct then 1 else 0)
    ensures Missed(questions, answers + [correct])
         == Missed(questions, answers) + (if correct then [] else [questions[|answers|]])
  {
    assert (answers + [correct])[..|answers|] == answers;
  }

  /** Every answer is counted exactly once, either in the score or in the missed list. */
  lemma {:induction false} AnswerTally(questions: seq<QuizQuestion>, answers: seq<bool>)
    requires |answers| <= |questions|
    ensures CountTrue(answers) + |Missed(questions, answers)| == |answers|
  {
    if answers != [] {
      AnswerTally(questions, answers[..|answers| - 1]);
    }
  }

  /** `Math.round((score / total) * 100)` for total > 0, else 0: the nearest whole percent, halves rounded up. */
  function Percentage(score: nat, total: nat): (r: nat)
    ensures total == 0 ==> r == 0
    ensures total > 0 ==> 2 * total * r <= 200 * score + total < 2 * total * (r + 1)
  {
    if total == 0 then 0 else (200 * score + total) / (2 * total)
  }

  /** A score out of a total stays within 0..100 percent, and a full score is 100. */
  lemma PercentageBounds(score: nat, total: nat)
    requires score <= total
    ensures Percentage(score, total) <= 100
    ensures total > 0 && score == total ==> Percentage(score, total) == 100
  {
    if total > 0 {
      var r := Percentage(score, total);
      MulMono(2 * total, 101, r);
      MulMono(2 * total, r + 1, 100);
    }
  }

  lemma MulMono(t: nat, a: nat, b: nat)
    ensures a <= b ==> t * a <= t * b
  {
  }

  // ------------------------------------------------------------ session

  /**
   * The consistency of a quiz state: the questions are well formed, the index
   * is on a question, one answer is recorded per question passed plus the one
   * selected, and the score and missed list are exactly those answers' tally.
   */
  ghost predicate SessionState(words: seq<WordData>, questions: seq<QuizQuestion>, index: nat, score: nat,
                               incorrect: seq<QuizQuestion>, selected: Option<string>, finished: bool,
                               answers: seq<bool>)
  {
    && AllWellFormed(words, questions)
    && (|questions| == 0 ==> index == 0 && selected.None? && !finished)
    && (|questions| > 0 ==> index < |questions|)
    && |answers| == index + (if selected.Some? then 1 else 0)
    && |answers| <= |questions|
    && score == CountTrue(answers)
    && incorrect == Missed(questions, answers)
    && (finished ==> selected.Some? && index == |questions| - 1)
  }

  /** Selecting an option of the current question records one more answer and keeps the state consistent. */
  lemma SelectStep(words: seq<WordData>, questions: seq<QuizQuestion>, index: nat, score: nat,
                   incorrect: seq<QuizQuestion>, answers: seq<bool>, text: string, correct: bool)
    requires SessionState(words, questions, index, score, incorrect, None, false, answers)
    requires |questions| > 0 && QuizOption(text, correct) in questions[index].options
    ensures correct ==> text == questions[index].definition
    ensures SessionState(words, questions, index, score + (if correct then 1 else 0),
                         incorrect + (if correct then [] else [questions[index]]), Some(text), false,
                         answers + [correct])
  {
    CorrectOptionText(words, questions, index, QuizOption(text, correct));
    RecordAnswer(questions, answers, correct);
  }


  /** The state of a quiz over a fixed word list. */
  class QuizSession {
    const words: seq<WordData>
    var questions: seq<QuizQuestion>
    var currentQuestionIndex: nat
    var score: nat
    var incorrectAnswers: seq<QuizQuestion>
    var selectedAnswer: Option<string>
    var isFinished: bool
    /** Whether each answer given so far was right; the i-th is about question i. */
    ghost var answers: seq<bool>

    ghost predicate Valid()
      reads this
    {
      SessionState(words, questions, currentQuestionIndex, score, incorrectAnswers, selectedAnswer, isFinished, answers)
    }

    /** The options can be clicked: `disabled={!!selectedAnswer}` is false. */
    predicate OptionsEnabled()
      reads this
    {
      selectedAnswer.None? || selectedAnswer.value == ""
    }

    /** Mounting the quiz: empty state, then the effect generates the questions. */
    constructor(words: seq<WordData>, order: seq<nat>, dPicks: seq<seq<nat>>, oPicks: seq<seq<nat>>)
      ensures Valid()
      ensures this.words == words && questions == GenerateQuiz(words, order, dPicks, oPicks)
      ensures currentQuestionIndex == 0 && score == 0 && incorrectAnswers == []
      ensures selectedAnswer.None? && !isFinished
    {
      this.words := words;
      questions := GenerateQuiz(words, order, dPicks, oPicks);
      currentQuestionIndex := 0;
      score := 0;
      incorrectAnswers := [];
      selectedAnswer := None;
      isFinished := false;
      answers := [];
      new;
      GenerateQuizCovers(words, order, dPicks, oPicks);
    }

    /**
     * `handleAnswerSelect` for an option of the current question: records the
     * selection, then either scores it or appends the question to the missed
     * list. The advance its timer schedules is `Advance`.
     */
    method SelectAnswer(optionText: string, isCorrect: bool)
      requires Valid() && |questions| > 0 && !isFinished && selectedAnswer.None?
      requires QuizOption(optionText, isCorrect) in questions[currentQuestionIndex].options
      modifies this
      ensures questions == old(questions) && currentQuestionIndex == old(currentQuestionIndex) && !isFinished
      ensures Valid()
      ensures selectedAnswer == Some(optionText)
      ensures optionText != "" ==> !OptionsEnabled()
      ensures isCorrect ==> score == old(score) + 1 && incorrectAnswers == old(incorrectAnswers)
      ensures !isCorrect ==>
        score == old(score) && incorrectAnswers == old(incorrectAnswers) + [questions[currentQuestionIndex]]
      ensures isCorrect ==> optionText == questions[currentQuestionIndex].definition
      ensures answers == old(answers) + [isCorrect]
    {
      SelectStep(words, questions, currentQuestionIndex, score, incorrectAnswers, answers, optionText, isCorrect);
      selectedAnswer := Some(optionText);
      if isCorrect {
        score := score + 1;
      } else {
        incorrectAnswers := incorrectAnswers + [questions[currentQuestionIndex]];
      }
      answers := answers + [isCorrect];
    }

    /** The timer after an answer: the next question, or the end of the quiz on the last one. */
    method Advance()
      requires Valid() && selectedAnswer.Some? && !isFinished
      modifies this
      ensures Valid()
      ensures old(currentQuestionIndex) < |questions| - 1 ==>
        currentQuestionIndex == old(currentQuestionIndex) + 1 && selectedAnswer.None? && !isFinished
      ensures old(currentQuestionIndex) >= |questions| - 1 ==>
        currentQuestionIndex == old(currentQuestionIndex) && selectedAnswer == old(selectedAnswer) && isFinished
      ensures questions == old(questions) && score == old(score) && incorrectAnswers == old(incorrectAnswers)
      ensures answers == old(answers)
    {
      if currentQuestionIndex < |questions| - 1 {
        currentQuestionIndex := currentQuestionIndex + 1;
        selectedAnswer := None;
      } else {
        isFinished := true;
      }
    }

    /** `restartQuiz`: everything back to the start, with freshly generated questions. */
    method Restart(order: seq<nat>, dPicks: seq<seq<nat>>, oPicks: seq<seq<nat>>)
      modifies this
      ensures Valid()
      ensures questions == GenerateQuiz(words, order, dPicks, oPicks)
      ensures currentQuestionIndex == 0 && score == 0 && incorrectAnswers == []
      ensures selectedAnswer.None? && !isFinished && answers == []
    {
      isFinished := false;
      score := 0;
      currentQuestionIndex := 0;
      incorrectAnswers := [];
      selectedAnswer := None;
      answers := [];
      questions := GenerateQuiz(words, order, dPicks, oPicks);
      GenerateQuizCovers(words, order, dPicks, oPicks);
    }

    /** The results screen's percentage. */
    function ResultPercentage(): (r: nat)
      reads this
      requires Valid()
      ensures r <= 100
    {
      AnswerTally(questions, answers);
      PercentageBounds(score, |questions|);
      Percentage(score, |questions|)
    }
  }

  /**
   * The tally of a session: score plus missed answers is the number of answers
   * given, the score never exceeds the number of questions, and once the quiz
   * is finished every question has been answered.
   */
  lemma SessionTally(s: QuizSession)
    requires s.Valid()
    ensures s.score + |s.incorrectAnswers| == |s.answers|
    ensures s.score <= |s.questions|
    ensures s.isFinished ==> s.score + |s.incorrectAnswers| == |s.questions|
  {
    AnswerTally(s.questions, s.answers);
  }
}
