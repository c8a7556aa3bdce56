/**
 * What calculate_scores promises about its result: every percentage and
 * the overall score stay between 0 and 100, a category nobody was asked
 * about scores 0, all-correct answers score 100 and all-wrong ones 0, the
 * strengths and weaknesses are the categories over and under their
 * thresholds, and there is one detail record per answered question.
 */
module ScoringFacts {
  import opened Wrappers
  import opened Rounding
  import opened Catalog
  import opened Scoring
  import opened Text

  // ---------------------------------------------------------------------
  // Per-category view of a successful result
  // ---------------------------------------------------------------------

  /**
   * Category `i` of the result is the percentage of the points earned in
   * that category out of the points available in it.
   */
  lemma ScoreCategory(qs: seq<Question>, answers: map<string, string>, i: nat)
    requires Score(qs, answers).Success? && i < |CATEGORIES|
    ensures |Score(qs, answers).value.categories| == |CATEGORIES|
    ensures Score(qs, answers).value.categories[i]
      == CategoryScore(CATEGORIES[i].key,
                       CategoryPercent(Achieved(qs, answers, CATEGORIES[i].key), MaxPossible(qs, CATEGORIES[i].key)),
                       CATEGORIES[i].weightTenths, CATEGORIES[i].name)
  {
    var key := CATEGORIES[i].key;
    assert IsCategory(key);
    AchievedMapPerCategory(qs, answers, key);
    MaxPossibleMapPerCategory(qs, key);
  }

  /** Every weight of every question is non-negative. */
  predicate NonNegativeWeights(qs: seq<Question>) {
    forall i, j :: 0 <= i < |qs| && 0 <= j < |qs[i].weights| ==> qs[i].weights[j].1 >= 0
  }

  /** With non-negative weights a category earns between 0 and its available points. */
  lemma {:induction false} AchievedWithinMax(qs: seq<Question>, answers: map<string, string>, k: string)
    requires NonNegativeWeights(qs)
    ensures 0 <= Achieved(qs, answers, k) <= MaxPossible(qs, k)
  {
    if qs != [] {
      var init := qs[..|qs| - 1];
      var q := qs[|qs| - 1];
      assert forall i :: 0 <= i < |init| ==> init[i] == qs[i];
      AchievedWithinMax(init, answers, k);
      if q.category == k {
        MaxScoreIsLargestWeight(q);
        if Answered(q, answers) {
          EarnedWithinMax(q, answers);
        }
      }
    }
  }

  /** A percentage of points earned out of points available lies between 0 and 100. */
  lemma CategoryPercentInRange(achieved: int, maximum: int)
    requires 0 <= achieved <= maximum
    ensures 0 <= CategoryPercent(achieved, maximum) <= 100
  {
    if maximum > 0 {
      RoundPercentInRange(achieved, maximum);
    }
  }

  // ---------------------------------------------------------------------
  // The overall score
  // ---------------------------------------------------------------------

  function TotalWeight(cs: seq<CategoryScore>): int {
    if cs == [] then 0 else TotalWeight(cs[..|cs| - 1]) + cs[|cs| - 1].weightTenths
  }

  /** The weighted sum of percentages between 0 and 100 lies between 0 and 100 times the total weight. */
  lemma {:induction false} WeightedSumBounds(cs: seq<CategoryScore>)
    requires forall i :: 0 <= i < |cs| ==> 0 <= cs[i].score <= 100
    ensures 0 <= WeightedSum(cs) <= 100 * TotalWeight(cs)
  {
    if cs != [] {
      var init := cs[..|cs| - 1];
      assert forall i :: 0 <= i < |init| ==> init[i] == cs[i];
      WeightedSumBounds(init);
      var c := cs[|cs| - 1];
      assert 0 <= c.score * c.weightTenths <= 100 * c.weightTenths;
    }
  }

  /** Category scores carrying the catalogue's weights in its order carry its total weight. */
  lemma {:induction false} CatalogueWeights(cs: seq<CategoryScore>, cats: seq<Category>)
    requires |cs| == |cats|
    requires forall i :: 0 <= i < |cs| ==> cs[i].weightTenths == cats[i].weightTenths
    ensures TotalWeight(cs) == SumWeights(cats)
  {
    if cs != [] {
      var n := |cs| - 1;
      assert forall i :: 0 <= i < n ==> cs[..n][i] == cs[i] && cats[..n][i] == cats[i];
      CatalogueWeights(cs[..n], cats[..n]);
    }
  }

  /** Rounding a value between 0 and 100·d over d gives a value between 0 and 100. */
  lemma RoundWithinPercent(n: int, d: int)
    requires d > 0 && 0 <= n <= 100 * d
    ensures 0 <= RoundHalfEven(n, d) <= 100
  {
    RoundExact(0, d);
    RoundExact(100, d);
    RoundMonotone(0 * d, n, d);
    RoundMonotone(n, 100 * d, d);
  }

  /** The weighted overall score of percentages between 0 and 100 lies between 0 and 100. */
  lemma OverallInRange(achieved: map<string, int>, maxima: map<string, int>)
    requires Covers(achieved) && Covers(maxima)
    requires forall i :: 0 <= i < |CategoryScores(achieved, maxima)| ==>
      0 <= CategoryScores(achieved, maxima)[i].score <= 100
    ensures 0 <= OverallScore(CategoryScores(achieved, maxima)) <= 100
  {
    var cs := CategoryScores(achieved, maxima);
    CategoriesWellFormed();
    WeightedSumBounds(cs);
    CatalogueWeights(cs, CATEGORIES);
    RoundWithinPercent(WeightedSum(cs), SumWeights(CATEGORIES));
  }

  /** With non-negative weights every percentage and the overall score lie between 0 and 100. */
  lemma ScoresInRange(qs: seq<Question>, answers: map<string, string>)
    requires Score(qs, answers).Success? && NonNegativeWeights(qs)
    ensures forall c :: c in Score(qs, answers).value.categories ==> 0 <= c.score <= 100
    ensures 0 <= Score(qs, answers).value.overall <= 100
  {
    var s := Score(qs, answers).value;
    forall i | 0 <= i < |s.categories|
      ensures 0 <= s.categories[i].score <= 100
    {
      ScoreCategory(qs, answers, i);
      AchievedWithinMax(qs, answers, CATEGORIES[i].key);
      CategoryPercentInRange(Achieved(qs, answers, CATEGORIES[i].key), MaxPossible(qs, CATEGORIES[i].key));
    }
    MapsCover(qs, answers);
    OverallInRange(AchievedMap(qs, answers), MaxPossibleMap(qs));
  }

  /**
   * The level is a copy of get_level's tier for the overall score, the tier
   * whose threshold the score reaches, with its two scores turned into
   * decimal text that reads back as the tier's numbers.
   */
  lemma ScoreLevel(qs: seq<Question>, answers: map<string, string>)
    requires Score(qs, answers).Success?
    ensures var s := Score(qs, answers).value;
            var t := GetLevel(s.overall);
            && t in LEVELS
            && s.level.level == t.level == LevelNameByThreshold(s.overall)
            && s.level.description == t.description
            && s.level.nextLevel == t.nextLevel
            && s.level.minYears == t.minYears
            && IsDigits(s.level.minScore) && DecimalValue(s.level.minScore) == t.minScore
            && IsDigits(s.level.nextLevelScore) && DecimalValue(s.level.nextLevelScore) == t.nextLevelScore
  {
    var s := Score(qs, answers).value;
    GetLevelMatchesThresholds(s.overall);
    TierScoresNatural(LevelIndex(s.overall));
    DecimalRoundTrip(GetLevel(s.overall).minScore);
    DecimalRoundTrip(GetLevel(s.overall).nextLevelScore);
  }

  lemma TierScoresNatural(i: nat)
    requires i < |LEVELS|
    ensures LEVELS[i].minScore >= 0 && LEVELS[i].nextLevelScore >= 0
  {
  }

  // ---------------------------------------------------------------------
  // Categories nobody was asked about, all-correct and all-wrong answers
  // ---------------------------------------------------------------------

  /** A category without questions has no points available and none earned, so it scores 0. */
  lemma {:induction false} UnaskedCategory(qs: seq<Question>, answers: map<string, string>, k: string)
    requires forall i :: 0 <= i < |qs| ==> qs[i].category != k
    ensures MaxPossible(qs, k) == 0 && Achieved(qs, answers, k) == 0
    ensures CategoryPercent(Achieved(qs, answers, k), MaxPossible(qs, k)) == 0
  {
    if qs != [] {
      var init := qs[..|qs| - 1];
      assert forall i :: 0 <= i < |init| ==> init[i] == qs[i];
      UnaskedCategory(init, answers, k);
    }
  }

  /**
   * Every question has a weight map with distinct keys and a non-empty best
   * key, and the answer given is that key.
   */
  predicate AllCorrect(qs: seq<Question>, answers: map<string, string>) {
    forall i :: 0 <= i < |qs| ==>
      && |qs[i].weights| > 0 && DistinctKeys(qs[i].weights) && CorrectValue(qs[i]) != ""
      && qs[i].id in answers && answers[qs[i].id] == CorrectValue(qs[i])
  }

  /** Answering every question correctly earns every available point. */
  lemma {:induction false} AllCorrectEarnsAll(qs: seq<Question>, answers: map<string, string>, k: string)
    requires AllCorrect(qs, answers)
    ensures Achieved(qs, answers, k) == MaxPossible(qs, k)
  {
    if qs != [] {
      var init := qs[..|qs| - 1];
      assert forall i :: 0 <= i < |init| ==> init[i] == qs[i];
      AllCorrectEarnsAll(init, answers, k);
      CorrectAnswerEarnsMax(qs[|qs| - 1]);
    }
  }

  /** Answering every question correctly scores 100 in every category that was asked about. */
  lemma AllCorrectScoresHundred(qs: seq<Question>, answers: map<string, string>, i: nat)
    requires Score(qs, answers).Success? && AllCorrect(qs, answers) && i < |CATEGORIES|
    requires MaxPossible(qs, CATEGORIES[i].key) > 0
    ensures Score(qs, answers).value.categories[i].score == 100
  {
    ScoreCategory(qs, answers, i);
    var m := MaxPossible(qs, CATEGORIES[i].key);
    AllCorrectEarnsAll(qs, answers, CATEGORIES[i].key);
    assert m * 100 == 100 * m;
    RoundExact(100, m);
  }

  /** Every answered question earns nothing. */
  predicate AllWrong(qs: seq<Question>, answers: map<string, string>) {
    forall i :: 0 <= i < |qs| ==> Answered(qs[i], answers) ==> Earned(qs[i], answers) == 0
  }

  lemma {:induction false} AllWrongEarnsNothing(qs: seq<Question>, answers: map<string, string>, k: string)
    requires AllWrong(qs, answers)
    ensures Achieved(qs, answers, k) == 0
  {
    if qs != [] {
      var init := qs[..|qs| - 1];
      assert forall i :: 0 <= i < |init| ==> init[i] == qs[i];
      AllWrongEarnsNothing(init, answers, k);
    }
  }

  /** When nothing is earned every category and the overall score are 0. */
  lemma AllWrongScoresZero(qs: seq<Question>, answers: map<string, string>)
    requires Score(qs, answers).Success? && AllWrong(qs, answers)
    ensures forall c :: c in Score(qs, answers).value.categories ==> c.score == 0
    ensures Score(qs, answers).value.overall == 0
  {
    var s := Score(qs, answers).value;
    forall i | 0 <= i < |s.categories|
      ensures s.categories[i].score == 0
    {
      ScoreCategory(qs, answers, i);
      AllWrongEarnsNothing(qs, answers, CATEGORIES[i].key);
      var m := MaxPossible(qs, CATEGORIES[i].key);
      if m > 0 {
        RoundExact(0, m);
      }
    }
    ZeroWeightedSum(s.categories);
    CategoriesWellFormed();
    RoundExact(0, SumWeights(CATEGORIES));
  }

  lemma {:induction false} ZeroWeightedSum(cs: seq<CategoryScore>)
    requires forall i :: 0 <= i < |cs| ==> cs[i].score == 0
    ensures WeightedSum(cs) == 0
  {
    if cs != [] {
      var init := cs[..|cs| - 1];
      assert forall i :: 0 <= i < |init| ==> init[i] == cs[i];
      ZeroWeightedSum(init);
    }
  }

  // ---------------------------------------------------------------------
  // Strengths and weaknesses
  // ---------------------------------------------------------------------

  /** The positions, counted from `base`, of the records a comprehension keeps. */
  function PickedIndices(cs: seq<CategoryScore>, strong: bool, base: nat): seq<nat> {
    if cs == [] then []
    else (if Qualifies(cs[0], strong) then [base] else []) + PickedIndices(cs[1..], strong, base + 1)
  }

  /** The picked positions lie in range and strictly increase. */
  lemma {:induction false} PickedIncreasing(cs: seq<CategoryScore>, strong: bool, base: nat)
    ensures forall k :: 0 <= k < |PickedIndices(cs, strong, base)| ==>
              base <= PickedIndices(cs, strong, base)[k] < base + |cs|
    ensures forall k, l :: 0 <= k < l < |PickedIndices(cs, strong, base)| ==>
              PickedIndices(cs, strong, base)[k] < PickedIndices(cs, strong, base)[l]
  {
    if cs != [] {
      PickedIncreasing(cs[1..], strong, base + 1);
    }
  }

  /** Entry k of the comprehension is the record at picked position k, and that record qualifies. */
  lemma {:induction false} PickedEntries(cs: seq<CategoryScore>, strong: bool, base: nat)
    ensures |PickedIndices(cs, strong, base)| == |Pick(cs, strong)|
    ensures forall k :: 0 <= k < |PickedIndices(cs, strong, base)| ==>
              && base <= PickedIndices(cs, strong, base)[k] < base + |cs|
              && Qualifies(cs[PickedIndices(cs, strong, base)[k] - base], strong)
              && Pick(cs, strong)[k] == Named(cs[PickedIndices(cs, strong, base)[k] - base])
  {
    if cs != [] {
      PickedEntries(cs[1..], strong, base + 1);
      var head: seq<nat> := if Qualifies(cs[0], strong) then [base] else [];
      var rest := PickedIndices(cs[1..], strong, base + 1);
      var idx := head + rest;
      forall k | |head| <= k < |idx|
        ensures && base <= idx[k] < base + |cs|
                && Qualifies(cs[idx[k] - base], strong)
                && Pick(cs, strong)[k] == Named(cs[idx[k] - base])
      {
        assert idx[k] == rest[k - |head|];
        assert cs[idx[k] - base] == cs[1..][idx[k] - (base + 1)];
      }
    }
  }

  /** Every qualifying record is picked. */
  lemma {:induction false} PickedComplete(cs: seq<CategoryScore>, strong: bool, base: nat)
    ensures forall i :: 0 <= i < |cs| && Qualifies(cs[i], strong) ==> base + i in PickedIndices(cs, strong, base)
  {
    if cs != [] {
      PickedComplete(cs[1..], strong, base + 1);
      forall i | 0 < i < |cs| && Qualifies(cs[i], strong)
        ensures base + i in PickedIndices(cs[1..], strong, base + 1)
      {
        assert cs[1..][i - 1] == cs[i];
      }
    }
  }

  /**
   * The comprehension keeps the qualifying records and only those, each
   * once, in their original order.
   */
  lemma PickFacts(cs: seq<CategoryScore>, strong: bool)
    ensures |Pick(cs, strong)| == |PickedIndices(cs, strong, 0)|
    ensures forall k :: 0 <= k < |PickedIndices(cs, strong, 0)| ==>
              && PickedIndices(cs, strong, 0)[k] < |cs|
              && Qualifies(cs[PickedIndices(cs, strong, 0)[k]], strong)
              && Pick(cs, strong)[k] == Named(cs[PickedIndices(cs, strong, 0)[k]])
    ensures forall k, l :: 0 <= k < l < |PickedIndices(cs, strong, 0)| ==>
              PickedIndices(cs, strong, 0)[k] < PickedIndices(cs, strong, 0)[l]
    ensures forall i :: 0 <= i < |cs| && Qualifies(cs[i], strong) ==> i in PickedIndices(cs, strong, 0)
  {
    PickedIncreasing(cs, strong, 0);
    PickedEntries(cs, strong, 0);
    PickedComplete(cs, strong, 0);
  }

  /** An entry is kept exactly when some record qualifies and carries it. */
  lemma PickMembers(cs: seq<CategoryScore>, strong: bool)
    ensures forall x :: x in Pick(cs, strong) <==>
              exists i :: 0 <= i < |cs| && Qualifies(cs[i], strong) && x == Named(cs[i])
  {
    PickFacts(cs, strong);
    var idx := PickedIndices(cs, strong, 0);
    var p := Pick(cs, strong);
    forall x | x in p
      ensures exists i :: 0 <= i < |cs| && Qualifies(cs[i], strong) && x == Named(cs[i])
    {
      var k :| 0 <= k < |p| && p[k] == x;
      assert Qualifies(cs[idx[k]], strong) && x == Named(cs[idx[k]]);
    }
    forall i | 0 <= i < |cs| && Qualifies(cs[i], strong)
      ensures Named(cs[i]) in p
    {
      var k :| 0 <= k < |idx| && idx[k] == i;
      assert p[k] == Named(cs[i]);
    }
  }

  /**
   * The strengths are exactly the categories scoring 70 or more, one entry
   * each, in category order: entry k is the category at the k-th qualifying
   * position, and those positions increase.
   */
  lemma StrengthsAreHighScores(cs: seq<CategoryScore>)
    ensures forall x :: x in Strengths(cs) <==>
      exists i :: 0 <= i < |cs| && cs[i].score >= STRENGTH_THRESHOLD && x == Named(cs[i])
    ensures |Strengths(cs)| == |PickedIndices(cs, true, 0)|
    ensures forall k :: 0 <= k < |PickedIndices(cs, true, 0)| ==>
              && PickedIndices(cs, true, 0)[k] < |cs|
              && cs[PickedIndices(cs, true, 0)[k]].score >= STRENGTH_THRESHOLD
              && Strengths(cs)[k] == Named(cs[PickedIndices(cs, true, 0)[k]])
    ensures forall k, l :: 0 <= k < l < |PickedIndices(cs, true, 0)| ==>
              PickedIndices(cs, true, 0)[k] < PickedIndices(cs, true, 0)[l]
    ensures forall i :: 0 <= i < |cs| && cs[i].score >= STRENGTH_THRESHOLD ==> i in PickedIndices(cs, true, 0)
  {
    PickFacts(cs, true);
    PickMembers(cs, true);
  }

  /**
   * The weaknesses are exactly the categories scoring under 60, one entry
   * each, in category order.
   */
  lemma WeaknessesAreLowScores(cs: seq<CategoryScore>)
    ensures forall x :: x in Weaknesses(cs) <==>
      exists i :: 0 <= i < |cs| && cs[i].score < WEAKNESS_THRESHOLD && x == Named(cs[i])
    ensures |Weaknesses(cs)| == |PickedIndices(cs, false, 0)|
    ensures forall k :: 0 <= k < |PickedIndices(cs, false, 0)| ==>
              && PickedIndices(cs, false, 0)[k] < |cs|
              && cs[PickedIndices(cs, false, 0)[k]].score < WEAKNESS_THRESHOLD
              && Weaknesses(cs)[k] == Named(cs[PickedIndices(cs, false, 0)[k]])
    ensures forall k, l :: 0 <= k < l < |PickedIndices(cs, false, 0)| ==>
              PickedIndices(cs, false, 0)[k] < PickedIndices(cs, false, 0)[l]
    ensures forall i :: 0 <= i < |cs| && cs[i].score < WEAKNESS_THRESHOLD ==> i in PickedIndices(cs, false, 0)
  {
    PickFacts(cs, false);
    PickMembers(cs, false);
  }

  /**
   * No category is both a strength and a weakness, and one scoring from 60
   * to 69 is neither.
   */
  lemma StrengthsWeaknessesSeparate(cs: seq<CategoryScore>)
    ensures forall x :: x in Strengths(cs) ==> x.score >= 70 && x !in Weaknesses(cs)
    ensures forall x :: x in Weaknesses(cs) ==> x.score < 60
    ensures forall x :: x in Strengths(cs) + Weaknesses(cs) ==> !(60 <= x.score < 70)
  {
    StrengthsAreHighScores(cs);
    WeaknessesAreLowScores(cs);
  }

  // ---------------------------------------------------------------------
  // Detail records
  // ---------------------------------------------------------------------

  /** The questions that received a non-empty answer, in list order. */
  function AnsweredQuestions(qs: seq<Question>, answers: map<string, string>): seq<Question> {
    if qs == [] then []
    else
      var q := qs[|qs| - 1];
      AnsweredQuestions(qs[..|qs| - 1], answers) + (if Answered(q, answers) then [q] else [])
  }

  /** There is one detail record per answered question, in the order of the question list. */
  lemma {:induction false} DetailsFollowAnswers(qs: seq<Question>, answers: map<string, string>)
    requires AllKnown(qs)
    ensures forall q :: q in AnsweredQuestions(qs, answers) ==> q in qs && Answered(q, answers)
    ensures |Details(qs, answers)| == |AnsweredQuestions(qs, answers)|
    ensures forall i :: 0 <= i < |Details(qs, answers)| ==>
      AnsweredQuestions(qs, answers)[i] in qs &&
      Details(qs, answers)[i] == DetailFor(AnsweredQuestions(qs, answers)[i], answers)
  {
    if qs != [] {
      var init := qs[..|qs| - 1];
      assert forall i :: 0 <= i < |init| ==> init[i] == qs[i];
      DetailsFollowAnswers(init, answers);
    }
  }

  /**
   * A detail record names its question, the answer given with the points it
   * earned out of the maximum, and the best answer; when option values are
   * distinct the two texts are those of the chosen option and of the best one.
   */
  lemma DetailContents(q: Question, answers: map<string, string>)
    requires IsCategory(q.category) && Answered(q, answers)
    ensures DetailFor(q, answers).questionId == q.id
    ensures DetailFor(q, answers).userAnswerValue == answers[q.id]
    ensures DetailFor(q, answers).userScore == Earned(q, answers)
    ensures DetailFor(q, answers).maxScore == MaxScore(q)
    ensures DetailFor(q, answers).correctAnswerValue == CorrectValue(q)
    ensures DistinctValues(q.options) ==>
      && DetailFor(q, answers).userAnswerText == TextOf(q.options, answers[q.id])
      && DetailFor(q, answers).correctAnswerText == TextOf(q.options, CorrectValue(q))
  {
    if DistinctValues(q.options) {
      ScanFindsTexts(q.options, answers[q.id], CorrectValue(q), "", "");
    }
  }

  // ---------------------------------------------------------------------
  // A worked case
  // ---------------------------------------------------------------------

  /** When only category `j` scores, the weighted sum is that category's weighted score. */
  lemma {:induction false} WeightedSumOfOne(cs: seq<CategoryScore>, j: nat)
    requires j < |cs| && forall i :: 0 <= i < |cs| && i != j ==> cs[i].score == 0
    ensures WeightedSum(cs) == cs[j].score * cs[j].weightTenths
  {
    var init := cs[..|cs| - 1];
    assert forall i :: 0 <= i < |init| ==> init[i] == cs[i];
    if j < |cs| - 1 {
      WeightedSumOfOne(init, j);
    } else {
      ZeroWeightedSum(init);
    }
  }

  /** A question of the database category whose best answer was given and is worth points. */
  predicate CorrectDatabaseAnswer(q: Question, answers: map<string, string>) {
    && q.category == "database"
    && AllCorrect([q], answers)
    && MaxScore(q) > 0
  }

  lemma OneDatabaseQuestionScores(q: Question, answers: map<string, string>)
    requires CorrectDatabaseAnswer(q, answers)
    ensures Score([q], answers).Success?
    ensures Score([q], answers).value.categories[3].score == 100
    ensures forall i :: 0 <= i < |CATEGORIES| && i != 3 ==> Score([q], answers).value.categories[i].score == 0
  {
    CategoriesWellFormed();
    assert CATEGORIES[3].key == "database";
    assert AllKnown([q]);
    assert MaxPossible([q], "database") == MaxScore(q) by {
      assert [q][..0] == [];
    }
    AllCorrectScoresHundred([q], answers, 3);
    forall i | 0 <= i < |CATEGORIES| && i != 3
      ensures Score([q], answers).value.categories[i].score == 0
    {
      OtherCategoryZero(q, answers, i);
    }
  }

  /** A single question leaves every category but its own at 0. */
  lemma OtherCategoryZero(q: Question, answers: map<string, string>, i: nat)
    requires Score([q], answers).Success? && i < |CATEGORIES| && CATEGORIES[i].key != q.category
    ensures Score([q], answers).value.categories[i].score == 0
  {
    ScoreCategory([q], answers, i);
    UnaskedCategory([q], answers, CATEGORIES[i].key);
  }

  /**
   * One database question answered correctly: the database category scores
   * 100, every other category 0, and the overall score is 100 × 1.1 / 9.9,
   * rounded: 11, which is the Junior tier.
   */
  lemma OneCorrectDatabaseAnswer(q: Question, answers: map<string, string>)
    requires CorrectDatabaseAnswer(q, answers)
    ensures Score([q], answers).Success?
    ensures Score([q], answers).value.overall == 11
    ensures Score([q], answers).value.level.level == "Junior"
  {
    OneCorrectDatabaseOverall(q, answers);
    ScoreLevel([q], answers);
  }

  lemma OneCorrectDatabaseOverall(q: Question, answers: map<string, string>)
    requires CorrectDatabaseAnswer(q, answers)
    ensures Score([q], answers).Success?
    ensures Score([q], answers).value.overall == 11
  {
    OneDatabaseQuestionScores(q, answers);
    var cs := Score([q], answers).value.categories;
    ScoreCategory([q], answers, 3);
    WeightedSumOfOne(cs, 3);
    CategoriesWellFormed();
    assert RoundHalfEven(1100, 99) == 11;
  }
}
