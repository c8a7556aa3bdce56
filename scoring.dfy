/**
 * The scoring engine: from a list of questions and a map of answers to
 * per-category percentages, an overall weighted score, a proficiency level,
 * strengths and weaknesses, and one detail record per answered question.
 */
module Scoring {
  import opened Wrappers
  import opened Text
  import opened Rounding
  import opened Catalog

  /** One answer option of a question. */
  datatype Choice = Choice(value: string, text: string)

  /**
   * A stored question. `weights` maps option values to points in stored
   * order (a document's key order); an empty list stands for a missing map
   * (and for an explicit null, which the model does not tell apart).
   */
  datatype Question = Question(id: string, category: string, text: string,
                               options: seq<Choice>, weights: seq<(string, int)>)

  datatype QuestionDetail = QuestionDetail(
    questionId: string, questionText: string,
    userAnswerValue: string, userAnswerText: string,
    correctAnswerValue: string, correctAnswerText: string,
    userScore: int, maxScore: int,
    explanation: string, difficulty: string, learningTip: string)

  datatype CategoryScore = CategoryScore(key: string, score: int, weightTenths: nat, name: string)

  datatype NamedScore = NamedScore(name: string, score: int)

  /** A copy of a tier with its two numbers turned into strings. */
  datatype LevelView = LevelView(level: string, description: string, nextLevel: string,
                                 minYears: string, nextLevelScore: string, minScore: string)

  datatype Scores = Scores(overall: int, level: LevelView, categories: seq<CategoryScore>,
                           strengths: seq<NamedScore>, weaknesses: seq<NamedScore>,
                           details: seq<QuestionDetail>)

  /** The KeyError raised for a question whose category is not configured. */
  datatype ScoreError = UnknownCategory(category: string)

  const DEFAULT_MAX_SCORE := 5
  const STRENGTH_THRESHOLD := 70
  const WEAKNESS_THRESHOLD := 60

  // ---------------------------------------------------------------------
  // One question
  // ---------------------------------------------------------------------

  /**
   * Index of the entry `max(weights.items(), key=value)` returns: the
   * largest value, and the first such entry, since `max` only replaces its
   * candidate on a strictly larger value.
   */
  function BestIndex(ws: seq<(string, int)>): (i: nat)
    requires |ws| > 0
    ensures i < |ws|
  {
    if |ws| == 1 then 0
    else
      var b := BestIndex(ws[..|ws| - 1]);
      if ws[|ws| - 1].1 > ws[b].1 then |ws| - 1 else b
  }

  /** The chosen entry holds the largest value, and no earlier entry reaches it. */
  lemma {:induction false} BestIndexIsFirstMax(ws: seq<(string, int)>)
    requires |ws| > 0
    ensures forall j :: 0 <= j < |ws| ==> ws[j].1 <= ws[BestIndex(ws)].1
    ensures forall j :: 0 <= j < BestIndex(ws) ==> ws[j].1 < ws[BestIndex(ws)].1
  {
    if |ws| > 1 {
      var init := ws[..|ws| - 1];
      BestIndexIsFirstMax(init);
      assert forall j :: 0 <= j < |init| ==> init[j] == ws[j];
    }
  }

  function MaxScore(q: Question): int {
    if |q.weights| > 0 then q.weights[BestIndex(q.weights)].1 else DEFAULT_MAX_SCORE
  }

  function CorrectValue(q: Question): string {
    if |q.weights| > 0 then q.weights[BestIndex(q.weights)].0 else ""
  }

  /** `weights.get(v, 0)`: the value of the first entry with key `v`. */
  function WeightOf(ws: seq<(string, int)>, v: string): int {
    if ws == [] then 0 else if ws[0].0 == v then ws[0].1 else WeightOf(ws[1..], v)
  }

  /** A missing key weighs 0; a present key weighs the value of its first entry. */
  lemma {:induction false} WeightOfIsLookup(ws: seq<(string, int)>, v: string)
    ensures (forall i :: 0 <= i < |ws| ==> ws[i].0 != v) ==> WeightOf(ws, v) == 0
    ensures forall i :: (0 <= i < |ws| && ws[i].0 == v && (forall j :: 0 <= j < i ==> ws[j].0 != v)
                         ==> WeightOf(ws, v) == ws[i].1)
    ensures WeightOf(ws, v) == 0 || exists i :: 0 <= i < |ws| && ws[i] == (v, WeightOf(ws, v))
  {
    if ws != [] {
      WeightOfIsLookup(ws[1..], v);
      assert forall i :: 0 <= i < |ws[1..]| ==> ws[1..][i] == ws[i + 1];
    }
  }

  /** A dictionary's keys are distinct. */
  predicate DistinctKeys(ws: seq<(string, int)>) {
    forall i, j :: 0 <= i < j < |ws| ==> ws[i].0 != ws[j].0
  }

  /** An answer counts only when it is present and non-empty. */
  predicate Answered(q: Question, answers: map<string, string>) {
    q.id in answers && answers[q.id] != ""
  }

  function Earned(q: Question, answers: map<string, string>): int
    requires Answered(q, answers)
  {
    WeightOf(q.weights, answers[q.id])
  }

  /**
   * The maximum is the largest weight and the correct answer is the first key
   * holding it; without weights the maximum is 5 and there is no correct answer.
   */
  lemma MaxScoreIsLargestWeight(q: Question)
    ensures |q.weights| == 0 ==> MaxScore(q) == 5 && CorrectValue(q) == ""
    ensures |q.weights| > 0 ==>
      (forall j :: 0 <= j < |q.weights| ==> q.weights[j].1 <= MaxScore(q))
      && (exists i :: 0 <= i < |q.weights| && q.weights[i] == (CorrectValue(q), MaxScore(q))
            && forall j :: 0 <= j < i ==> q.weights[j].1 < MaxScore(q))
  {
    if |q.weights| > 0 {
      BestIndexIsFirstMax(q.weights);
      var i := BestIndex(q.weights);
      assert q.weights[i] == (CorrectValue(q), MaxScore(q));
    }
  }

  /** Choosing the correct answer earns the maximum (keys of a dictionary are distinct). */
  lemma CorrectAnswerEarnsMax(q: Question)
    requires |q.weights| > 0 && DistinctKeys(q.weights)
    ensures WeightOf(q.weights, CorrectValue(q)) == MaxScore(q)
  {
    var i := BestIndex(q.weights);
    WeightOfIsLookup(q.weights, CorrectValue(q));
    assert q.weights[i].0 == CorrectValue(q);
  }

  /** With non-negative weights an answer earns between 0 and the maximum. */
  lemma EarnedWithinMax(q: Question, answers: map<string, string>)
    requires Answered(q, answers)
    requires forall j :: 0 <= j < |q.weights| ==> q.weights[j].1 >= 0
    ensures 0 <= Earned(q, answers) <= MaxScore(q)
  {
    WeightOfIsLookup(q.weights, answers[q.id]);
    if |q.weights| > 0 {
      MaxScoreIsLargestWeight(q);
    }
  }

  // ---------------------------------------------------------------------
  // Finding the option texts
  // ---------------------------------------------------------------------

  /**
   * The texts the option scan ends with, starting from (u, c): each option
   * whose value equals the answer (resp. the correct value) overwrites the
   * text, and the scan stops once both texts are non-empty.
   */
  function ScanTexts(options: seq<Choice>, answer: string, correct: string,
                     u: string, c: string): (string, string)
  {
    if options == [] then (u, c)
    else
      var u' := if options[0].value == answer then options[0].text else u;
      var c' := if options[0].value == correct then options[0].text else c;
      if u' != "" && c' != "" then (u', c') else ScanTexts(options[1..], answer, correct, u', c')
  }

  /** Text of the option with value `v`, or "" when there is none. */
  function TextOf(options: seq<Choice>, v: string): string {
    if options == [] then ""
    else if options[0].value == v then options[0].text
    else TextOf(options[1..], v)
  }

  predicate DistinctValues(options: seq<Choice>) {
    forall i, j :: 0 <= i < j < |options| ==> options[i].value != options[j].value
  }

  lemma {:induction false} TextOfAbsent(options: seq<Choice>, v: string)
    requires forall i :: 0 <= i < |options| ==> options[i].value != v
    ensures TextOf(options, v) == ""
  {
    if options != [] {
      assert forall i :: 0 <= i < |options[1..]| ==> options[1..][i] == options[i + 1];
      TextOfAbsent(options[1..], v);
    }
  }

  /** Without option 0, the remaining options of a distinct list do not hold its value. */
  lemma RestLacksHead(options: seq<Choice>)
    requires options != [] && DistinctValues(options)
    ensures DistinctValues(options[1..])
    ensures forall i :: 0 <= i < |options[1..]| ==> options[1..][i].value != options[0].value
  {
    assert forall i :: 0 <= i < |options[1..]| ==> options[1..][i] == options[i + 1];
  }

  /**
   * When option values are distinct (as a question's are meant to be), the
   * scan finds exactly the text of the chosen option and of the correct one.
   */
  lemma {:induction false} ScanFindsTexts(options: seq<Choice>, answer: string, correct: string,
                                          u: string, c: string)
    requires DistinctValues(options)
    requires u != "" ==> forall i :: 0 <= i < |options| ==> options[i].value != answer
    requires c != "" ==> forall i :: 0 <= i < |options| ==> options[i].value != correct
    ensures ScanTexts(options, answer, correct, u, c)
      == (if u != "" then u else TextOf(options, answer), if c != "" then c else TextOf(options, correct))
  {
    if options != [] {
      var rest := options[1..];
      RestLacksHead(options);
      assert forall i :: 0 <= i < |rest| ==> rest[i] == options[i + 1];
      var u' := if options[0].value == answer then options[0].text else u;
      var c' := if options[0].value == correct then options[0].text else c;
      if options[0].value == answer {
        TextOfAbsent(rest, answer);
      }
      if options[0].value == correct {
        TextOfAbsent(rest, correct);
      }
      if !(u' != "" && c' != "") {
        ScanFindsTexts(rest, answer, correct, u', c');
      }
    }
  }

  /** The linear scan over the options that finds the two texts in one pass. */
  method FindAnswerTexts(options: seq<Choice>, answer: string, correct: string)
    returns (userText: string, correctText: string)
    ensures (userText, correctText) == ScanTexts(options, answer, correct, "", "")
  {
    userText, correctText := "", "";
    var i := 0;
    while i < |options|
      invariant 0 <= i <= |options|
      invariant ScanTexts(options, answer, correct, "", "")
        == ScanTexts(options[i..], answer, correct, userText, correctText)
      invariant userText == "" || correctText == ""
    {
      var opt := options[i];
      if opt.value == answer {
        userText := opt.text;
      }
      if opt.value == correct {
        correctText := opt.text;
      }
      if userText != "" && correctText != "" {
        return;
      }
      i := i + 1;
    }
  }

  // ---------------------------------------------------------------------
  // Detail records
  // ---------------------------------------------------------------------

  /** Position of the category with this key in CATEGORIES. */
  function CategoryIndex(key: string): (i: nat)
    requires IsCategory(key)
    ensures i < |CATEGORIES| && CATEGORIES[i].key == key
  {
    IndexOfKey(CATEGORIES, key)
  }

  function IndexOfKey(cs: seq<Category>, key: string): (i: nat)
    requires exists i :: 0 <= i < |cs| && cs[i].key == key
    ensures i < |cs| && cs[i].key == key
  {
    if cs[0].key == key then 0 else 1 + IndexOfKey(cs[1..], key)
  }

  function MakeDetail(q: Question, answer: string, userText: string, correctText: string): QuestionDetail
    requires IsCategory(q.category)
  {
    var score := WeightOf(q.weights, answer);
    var maxScore := MaxScore(q);
    QuestionDetail(
      q.id, q.text, answer, userText, CorrectValue(q), correctText, score, maxScore,
      "Пользователь выбрал '" + userText + "' (балл: " + IntToDecimal(score) + "/" + IntToDecimal(maxScore) + ")",
      "medium",
      "Для улучшения в категории '" + CATEGORIES[CategoryIndex(q.category)].name + "' изучите: " + q.text)
  }

  /** The detail record for an answered question. */
  function DetailFor(q: Question, answers: map<string, string>): QuestionDetail
    requires IsCategory(q.category) && Answered(q, answers)
  {
    var texts := ScanTexts(q.options, answers[q.id], CorrectValue(q), "", "");
    MakeDetail(q, answers[q.id], texts.0, texts.1)
  }

  // ---------------------------------------------------------------------
  // Accumulation over the question list
  // ---------------------------------------------------------------------

  predicate AllKnown(qs: seq<Question>) {
    forall i :: 0 <= i < |qs| ==> IsCategory(qs[i].category)
  }

  /** Index of the first question whose category is not configured. */
  function FirstUnknown(qs: seq<Question>): (i: nat)
    requires !AllKnown(qs)
    ensures i < |qs| && !IsCategory(qs[i].category) && AllKnown(qs[..i])
  {
    if !IsCategory(qs[0].category) then 0
    else
      var i := 1 + FirstUnknown(qs[1..]);
      assert forall j :: 1 <= j < i ==> qs[j] == qs[1..][j - 1];
      i
  }

  /** Points available in a category: every question adds its maximum, answered or not. */
  function MaxPossible(qs: seq<Question>, cat: string): int {
    if qs == [] then 0
    else MaxPossible(qs[..|qs| - 1], cat) + (if qs[|qs| - 1].category == cat then MaxScore(qs[|qs| - 1]) else 0)
  }

  /** Points earned in a category by the answered questions. */
  function Achieved(qs: seq<Question>, answers: map<string, string>, cat: string): int {
    if qs == [] then 0
    else
      var q := qs[|qs| - 1];
      Achieved(qs[..|qs| - 1], answers, cat) + (if q.category == cat && Answered(q, answers) then Earned(q, answers) else 0)
  }

  /** One detail record per answered question, in question-list order. */
  function Details(qs: seq<Question>, answers: map<string, string>): seq<QuestionDetail>
    requires AllKnown(qs)
  {
    if qs == [] then []
    else
      var q := qs[|qs| - 1];
      Details(qs[..|qs| - 1], answers) + (if Answered(q, answers) then [DetailFor(q, answers)] else [])
  }

  function CategoryKeySet(): set<string> {
    set i | 0 <= i < |CATEGORIES| :: CATEGORIES[i].key
  }

  lemma CategoryKeySetIsCategories(key: string)
    ensures key in CategoryKeySet() <==> IsCategory(key)
  {
  }

  /** `{key: 0 for key in CATEGORIES}`. */
  function Zeros(): map<string, int> {
    map k | k in CategoryKeySet() :: 0
  }

  /** The `category_scores` dictionary after the questions `qs`, built as the loop builds it. */
  function AchievedMap(qs: seq<Question>, answers: map<string, string>): map<string, int> {
    if qs == [] then Zeros()
    else
      var m := AchievedMap(qs[..|qs| - 1], answers);
      var q := qs[|qs| - 1];
      if q.category in m && Answered(q, answers) then m[q.category := m[q.category] + Earned(q, answers)] else m
  }

  /** The `category_max_scores` dictionary after the questions `qs`, built as the loop builds it. */
  function MaxPossibleMap(qs: seq<Question>): map<string, int> {
    if qs == [] then Zeros()
    else
      var m := MaxPossibleMap(qs[..|qs| - 1]);
      var q := qs[|qs| - 1];
      if q.category in m then m[q.category := m[q.category] + MaxScore(q)] else m
  }

  /** The keys of both dictionaries are exactly the configured categories. */
  lemma {:induction false} MapDomain(qs: seq<Question>, answers: map<string, string>, k: string)
    ensures k in AchievedMap(qs, answers) <==> IsCategory(k)
    ensures k in MaxPossibleMap(qs) <==> IsCategory(k)
  {
    if qs == [] {
      CategoryKeySetIsCategories(k);
    } else {
      MapDomain(qs[..|qs| - 1], answers, k);
    }
  }

  /** A configured category's entry is the sum over the answered questions of that category. */
  lemma {:induction false} AchievedMapPerCategory(qs: seq<Question>, answers: map<string, string>, k: string)
    requires IsCategory(k)
    ensures k in AchievedMap(qs, answers) && AchievedMap(qs, answers)[k] == Achieved(qs, answers, k)
  {
    MapDomain(qs, answers, k);
    if qs != [] {
      AchievedMapPerCategory(qs[..|qs| - 1], answers, k);
      MapDomain(qs[..|qs| - 1], answers, qs[|qs| - 1].category);
    }
  }

  /** A configured category's entry is the sum of the maxima of the questions of that category. */
  lemma {:induction false} MaxPossibleMapPerCategory(qs: seq<Question>, k: string)
    requires IsCategory(k)
    ensures k in MaxPossibleMap(qs) && MaxPossibleMap(qs)[k] == MaxPossible(qs, k)
  {
    MapDomain(qs, map[], k);
    if qs != [] {
      MaxPossibleMapPerCategory(qs[..|qs| - 1], k);
      MapDomain(qs[..|qs| - 1], map[], qs[|qs| - 1].category);
    }
  }

  /** Every configured category has an entry. */
  predicate Covers(m: map<string, int>) {
    forall i :: 0 <= i < |CATEGORIES| ==> CATEGORIES[i].key in m
  }

  lemma MapsCover(qs: seq<Question>, answers: map<string, string>)
    ensures Covers(AchievedMap(qs, answers)) && Covers(MaxPossibleMap(qs))
  {
    forall i | 0 <= i < |CATEGORIES|
      ensures CATEGORIES[i].key in AchievedMap(qs, answers) && CATEGORIES[i].key in MaxPossibleMap(qs)
    {
      MapDomain(qs, answers, CATEGORIES[i].key);
    }
  }

  // ---------------------------------------------------------------------
  // Percentages, weighted mean, strengths and weaknesses
  // ---------------------------------------------------------------------

  /** round(achieved / maximum * 100) when the maximum is positive, else 0. */
  function CategoryPercent(achieved: int, maximum: int): int {
    if maximum > 0 then RoundHalfEven(achieved * 100, maximum) else 0
  }

  function CategoryScores(achieved: map<string, int>, maxima: map<string, int>): (cs: seq<CategoryScore>)
    requires Covers(achieved) && Covers(maxima)
    ensures |cs| == |CATEGORIES|
  {
    seq(|CATEGORIES|, i requires 0 <= i < |CATEGORIES| =>
      var c := CATEGORIES[i];
      CategoryScore(c.key, CategoryPercent(achieved[c.key], maxima[c.key]), c.weightTenths, c.name))
  }

  /** Σ score × weight, weights in tenths. */
  function WeightedSum(cs: seq<CategoryScore>): int {
    if cs == [] then 0 else WeightedSum(cs[..|cs| - 1]) + cs[|cs| - 1].score * cs[|cs| - 1].weightTenths
  }

  /** round(weighted_sum / total_weight) over all configured categories. */
  function OverallScore(cs: seq<CategoryScore>): int {
    CategoriesWellFormed();
    RoundHalfEven(WeightedSum(cs), SumWeights(CATEGORIES))
  }

  function Named(c: CategoryScore): NamedScore {
    NamedScore(c.name, c.score)
  }

  /** A strength scores 70 or more; a weakness (`strong` false) scores under 60. */
  predicate Qualifies(c: CategoryScore, strong: bool) {
    if strong then c.score >= STRENGTH_THRESHOLD else c.score < WEAKNESS_THRESHOLD
  }

  /** The list comprehension over the category records, keeping those that qualify. */
  function Pick(cs: seq<CategoryScore>, strong: bool): seq<NamedScore> {
    if cs == [] then []
    else (if Qualifies(cs[0], strong) then [Named(cs[0])] else []) + Pick(cs[1..], strong)
  }

  function Strengths(cs: seq<CategoryScore>): seq<NamedScore> {
    Pick(cs, true)
  }

  function Weaknesses(cs: seq<CategoryScore>): seq<NamedScore> {
    Pick(cs, false)
  }

  function LevelViewOf(t: Tier): LevelView {
    LevelView(t.level, t.description, t.nextLevel, t.minYears,
              IntToDecimal(t.nextLevelScore), IntToDecimal(t.minScore))
  }

  function Finish(achieved: map<string, int>, maxima: map<string, int>, details: seq<QuestionDetail>): Scores
    requires Covers(achieved) && Covers(maxima)
  {
    var cs := CategoryScores(achieved, maxima);
    var overall := OverallScore(cs);
    Scores(overall, LevelViewOf(GetLevel(overall)), cs, Strengths(cs), Weaknesses(cs), details)
  }

  /** What `calculate_scores(questions, answers)` returns or raises. */
  function Score(qs: seq<Question>, answers: map<string, string>): Result<Scores, ScoreError> {
    if !AllKnown(qs) then Failure(UnknownCategory(qs[FirstUnknown(qs)].category))
    else
      MapsCover(qs, answers);
      Success(Finish(AchievedMap(qs, answers), MaxPossibleMap(qs), Details(qs, answers)))
  }

  // ---------------------------------------------------------------------
  // The engine
  // ---------------------------------------------------------------------

  /** One more question adds its maximum to its own category and nothing elsewhere. */
  lemma AppendMaxima(done: seq<Question>, q: Question)
    requires q.category in MaxPossibleMap(done)
    ensures MaxPossibleMap(done + [q])
      == MaxPossibleMap(done)[q.category := MaxPossibleMap(done)[q.category] + MaxScore(q)]
  {
    assert (done + [q])[..|done|] == done;
  }

  /** One more question adds its points to its own category, and only when it was answered. */
  lemma AppendAchieved(done: seq<Question>, q: Question, answers: map<string, string>)
    requires q.category in AchievedMap(done, answers)
    ensures AchievedMap(done + [q], answers)
      == if Answered(q, answers)
         then AchievedMap(done, answers)[q.category := AchievedMap(done, answers)[q.category] + Earned(q, answers)]
         else AchievedMap(done, answers)
  {
    assert (done + [q])[..|done|] == done;
  }

  /** One more question of a known category appends its detail record when it was answered. */
  lemma AppendDetails(done: seq<Question>, q: Question, answers: map<string, string>)
    requires AllKnown(done) && IsCategory(q.category)
    ensures AllKnown(done + [q])
    ensures Details(done + [q], answers)
      == Details(done, answers) + (if Answered(q, answers) then [DetailFor(q, answers)] else [])
  {
    assert (done + [q])[..|done|] == done;
  }

  /**
   * The first half of one iteration of the loop of calculate_scores: question
   * `q` adds its maximum to its category and, when answered, its points.
   */
  method AddScores(done: seq<Question>, q: Question, answers: map<string, string>,
                   achieved: map<string, int>, maxima: map<string, int>)
    returns (achieved': map<string, int>, maxima': map<string, int>)
    requires IsCategory(q.category)
    requires achieved == AchievedMap(done, answers) && maxima == MaxPossibleMap(done)
    ensures achieved' == AchievedMap(done + [q], answers) && maxima' == MaxPossibleMap(done + [q])
  {
    MapDomain(done, answers, q.category);
    AppendMaxima(done, q);
    AppendAchieved(done, q, answers);
    maxima' := maxima[q.category := maxima[q.category] + MaxScore(q)];
    achieved' := achieved;
    if q.id in answers && answers[q.id] != "" {
      var score := WeightOf(q.weights, answers[q.id]);
      achieved' := achieved[q.category := achieved[q.category] + score];
    }
  }

  /**
   * The second half of one iteration: an answered question gets its detail
   * record, with the option texts found by one scan over the options.
   */
  method AddDetail(done: seq<Question>, q: Question, answers: map<string, string>, details: seq<QuestionDetail>)
    returns (details': seq<QuestionDetail>)
    requires AllKnown(done) && IsCategory(q.category)
    requires details == Details(done, answers)
    ensures AllKnown(done + [q])
    ensures details' == Details(done + [q], answers)
  {
    AppendDetails(done, q, answers);
    details' := details;
    if q.id in answers && answers[q.id] != "" {
      var answer := answers[q.id];
      var userText, correctText := FindAnswerTexts(q.options, answer, CorrectValue(q));
      details' := details + [MakeDetail(q, answer, userText, correctText)];
    }
  }

  /** What the loop of calculate_scores has accumulated. */
  datatype Totals = Totals(achieved: map<string, int>, maxima: map<string, int>, details: seq<QuestionDetail>)

  /**
   * The loop of calculate_scores: one pass over the questions, stopping with
   * a KeyError at the first question whose category is not configured.
   */
  method Accumulate(questions: seq<Question>, answers: map<string, string>)
    returns (r: Result<Totals, ScoreError>)
    ensures r.Failure? <==> !AllKnown(questions)
    ensures r.Failure? ==> r.error == UnknownCategory(questions[FirstUnknown(questions)].category)
    ensures r.Success? ==>
      && AllKnown(questions)
      && r.value == Totals(AchievedMap(questions, answers), MaxPossibleMap(questions), Details(questions, answers))
  {
    var achieved, maxima, details := Zeros(), Zeros(), [];
    var i := 0;
    assert questions[..0] == [];
    while i < |questions|
      invariant 0 <= i <= |questions|
      invariant AllKnown(questions[..i])
      invariant achieved == AchievedMap(questions[..i], answers) && maxima == MaxPossibleMap(questions[..i])
      invariant details == Details(questions[..i], answers)
    {
      var q := questions[i];
      MapDomain(questions[..i], answers, q.category);
      if q.category !in maxima {
        UnknownAt(questions, i);
        return Failure(UnknownCategory(q.category));
      }
      assert questions[..i + 1] == questions[..i] + [q];
      achieved, maxima := AddScores(questions[..i], q, answers, achieved, maxima);
      details := AddDetail(questions[..i], q, answers, details);
      i := i + 1;
    }
    assert questions[..i] == questions;
    r := Success(Totals(achieved, maxima, details));
  }

  /** calculate_scores(questions, answers). */
  method CalculateScores(questions: seq<Question>, answers: map<string, string>)
    returns (r: Result<Scores, ScoreError>)
    ensures r == Score(questions, answers)
  {
    var totals := Accumulate(questions, answers);
    if totals.Failure? {
      return Failure(totals.error);
    }
    var t := totals.value;
    MapsCover(questions, answers);
    r := Success(Finish(t.achieved, t.maxima, t.details));
  }

  /** The first question with an unknown category is the one the loop stops at. */
  lemma {:induction false} UnknownAt(qs: seq<Question>, i: nat)
    requires i < |qs| && AllKnown(qs[..i]) && !IsCategory(qs[i].category)
    ensures !AllKnown(qs) && FirstUnknown(qs) == i
  {
    if i > 0 {
      assert qs[..i][0] == qs[0];
      assert qs[1..][..i - 1] == qs[..i][1..];
      UnknownAt(qs[1..], i - 1);
    }
  }
}
